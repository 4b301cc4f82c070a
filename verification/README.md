# Event windowing buffer and address-event codec

This project models two pieces of a Python toolkit for event-driven (neuromorphic) sensor streams.

- **The windowing buffer** (`Buffer` in `vBufferPy/vBuffer.py`). It receives batches of event rows and sorts the events into time windows. The window of an event is its column 1 value floor-divided by `timestep`. While a window can still grow, its chunks stay in storage. When a batch shows that the window is over, the buffer emits it as one concatenated window.
- **The address-event codec** of `example_server.py`. `convert.py` holds a copy of its `decode`. Each event is a pair of 32-bit words:
  - word A holds the timestamp, with a tag in bit 31;
  - word B holds polarity (bit 0), x (bits 1-9), y (bits 10-17) and channel (bit 20), with a tag in bit 26.
- **The server's `process` step**, which rewrites the y column of every decoded row.

Modules:

- `EventRuns` (`runs.dfy`): events, Python's floor division and concatenation of chunks. It also holds `split`, modelled as the partition of an event sequence into maximal runs of equal window index, and the proofs that this partition is unique and ordered.
- `WindowBuffer` (`buffer.dfy`): the buffer state, `add_data` as a pure function from the state and a batch to the next state plus the emitted windows, the caller's feeding loop, and the stream-level guarantees.
- `BufferChecks` (`bufferchecks.dfy`): the checks the buffer's test script makes on emitted windows.
- `AerCodec` (`codec.dfy`): the word-pair codec on `bv32` words.
- `ServerProcess` (`process.dfy`): `process` and the server's decode-process-encode round trip.
- `SeqFacts` (`seqs.dfy`): generic sequence regrouping facts used by the buffer proofs.

What the code does and does not do:

- `add_data` (`vBufferPy/vBuffer.py:56-90`) synthesizes no empty windows (its docstring, `vBufferPy/vBuffer.py:63-64`, says a timestep without events is silently skipped), filters no batches, applies no timestamp modulus and has no flush. An event's window is its column 1 value floor-divided by `timestep`, and nothing else.
- Channel is bit 20 of word B. For a sample pair `0x80000064, 0x04000003` that bit is clear, so the event has channel 0 (`AerCodec.SamplePairDecodes`).
- The buffer does not need sorted input. Its guarantees hold for batches in any timestamp order, and strict window order holds for sorted input (`BufferChecks.FeedWindowsIncrease`).

Edge cases of the code that the model keeps:

- `np.split` of an empty array yields one empty chunk, so `Split` of an empty sequence is `[[]]`.
- `add_data` reads `classes[0]` and so fails on an empty batch. `AddData` therefore requires a non-empty batch.
- Python's `//` rounds towards minus infinity, and numpy's integer `x // 0` is 0. `FloorDiv` models both.
- `decode` reshapes the words into pairs, which fails on an odd count. That case is the `OddWordCount` result.
- Word arithmetic is unsigned 32-bit, as in the `uint32` arrays of the source.

## Model

| member | source | states |
|---|---|---|
| EventRuns.FloorDiv | vBufferPy/vBuffer.py:67 | The window index `ts // timestep` is the floor of the exact quotient for either sign of the divisor; numpy's zero divisor gives 0. |
| EventRuns.ClassOf | vBufferPy/vBuffer.py:67 | An event's class, computed from column 1, is the window that contains it: for a positive window length `c`, window `c` covers `[c * timestep, (c + 1) * timestep)`; a zero window length puts every event in class 0. |
| EventRuns.FlattenAppend | vBufferPy/vBuffer.py:79 | Concatenating a list of chunks made of two lists gives the concatenation of the first list's events followed by the second's, as `np.concatenate(self.storage + [splitted[0]])` relies on. |
| EventRuns.FloorDivMonotone | vBufferPy/vBuffer.py:67 | For a positive window length, a later timestamp never falls in an earlier window. |
| EventRuns.Split | vBufferPy/vBuffer.py:106-108 | Cutting at every change of window index gives non-empty single-class chunks, with neighbours in different windows, that concatenate back to the input; an empty input gives one empty chunk. |
| EventRuns.RunsUnique | vBufferPy/vBuffer.py:106-108 | Two partitions into maximal runs of the same events are equal. |
| EventRuns.SplitCharacterization | vBufferPy/vBuffer.py:106-108 | For a non-empty input, a chunk list is the split exactly when it is a maximal-run partition that concatenates back to the input (both directions). |
| EventRuns.SplitOfRun | vBufferPy/vBuffer.py:69 | A batch all in one window splits into a single chunk, itself. |
| EventRuns.SplitSortedIncreasing | vBufferPy/vBuffer.py:106-108 | On timestamp-sorted input with a positive window length, the window index strictly increases from each chunk of the split to the next. |
| EventRuns.RunSpan | vBufferPy/bufferTest.py:24 | Any two events of one run are less than one window length apart. |
| WindowBuffer.Init | vBufferPy/vBuffer.py:51-54 | A new buffer has empty storage, no open window and the given window length, and satisfies the state invariant. |
| WindowBuffer.Extend | vBufferPy/vBuffer.py:69-71 | A one-run batch in the open window's class is appended to storage and nothing is emitted; no event is lost. |
| WindowBuffer.Reopen | vBufferPy/vBuffer.py:72-75 | A one-run batch of another class emits nothing when storage is empty and otherwise exactly one window, all stored events concatenated; it opens a window holding just that run; no event is lost. |
| WindowBuffer.CloseFirst | vBufferPy/vBuffer.py:77-86 | For a multi-run batch, the emitted events are the stored events followed by the first run. With empty storage the first run goes out alone; when it continues the open window it is joined to the stored events as one window; otherwise the stored window and then the first run go out as two windows. |
| WindowBuffer.Close | vBufferPy/vBuffer.py:76-89 | For a multi-run batch, the windows CloseFirst chooses for the first run (joined to, or separate from, the stored window) are followed by every middle run as a window of its own, the last run becomes the only stored chunk, and no event is lost. |
| WindowBuffer.AddData | vBufferPy/vBuffer.py:56-90 | Emitted events followed by stored events are the previously stored events followed by the batch. The window length is kept, storage is non-empty afterwards, and the open window is the class of the batch's last event. |
| WindowBuffer.AddDataKeepsValid | vBufferPy/vBuffer.py:66-90 | From a consistent state, a window is open exactly when storage is non-empty, stored chunks are non-empty and all stored events are in the open window's class; this is preserved. |
| WindowBuffer.AddDataEmitsRuns | vBufferPy/vBuffer.py:66-90 | From a consistent state, the windows one call emits, followed by the window left open, are non-empty, single-class, and differ in class from their neighbours. |
| WindowBuffer.AddDataWithinWindow | vBufferPy/vBuffer.py:69-71 | A batch in the open window's class emits nothing and only appends the batch to storage. |
| WindowBuffer.AddDataPreservesStream | vBufferPy/vBuffer.py:66-90 | Across calls, everything emitted so far followed by the open window stays a maximal-run partition, including across the seam between calls. |
| WindowBuffer.Feed | vBufferPy/bufferTest.py:14-16 | Feeding batches one call at a time keeps the window length, and after any non-empty run of calls storage is non-empty. |
| WindowBuffer.FeedConserves | vBufferPy/bufferTest.py:19-23 | Over any number of calls, emitted events followed by stored events are the initially stored events followed by all batches in order: nothing lost, duplicated or reordered. |
| WindowBuffer.FeedPreservesStream | vBufferPy/vBuffer.py:66-90 | The stream invariant holds after any sequence of calls. |
| WindowBuffer.FeedIsSplit | vBufferPy/vBuffer.py:56-90 | From a fresh buffer, the emitted windows are all but the last chunk of the split of the whole input, and storage holds the last chunk. |
| WindowBuffer.FeedMatchesTest | vBufferPy/bufferTest.py:19-29 | From a fresh buffer, counts add up, the emitted events are a prefix of the input, and re-splitting the emitted events by window gives back exactly the emitted windows. |
| BufferChecks.SpanCheckAsWrittenIsVacuous | vBufferPy/bufferTest.py:24 | The test's window-length check, first minus last timestamp, holds for every sorted window, including one of two events 5000 apart with window length 1028. |
| BufferChecks.FeedWindowsSpan | vBufferPy/bufferTest.py:24 | Every emitted window, for a positive window length, has last minus first timestamp below the window length. |
| BufferChecks.FeedWindowsIncrease | vBufferPy/vBuffer.py:56-90 | On sorted input, emitted windows followed by the open one come in strictly increasing window index. |
| AerCodec.DecodePair | example_server.py:27-42 | Each decoded field fits its wire width: timestamp below 2^31, channel and polarity one bit, x nine bits, y eight bits. |
| AerCodec.EncodePair | example_server.py:44-49 | Encoding sets both tags and no reserved bit of word B, and decoding the pair gives the row with each field cut to its width. |
| AerCodec.Truncate | example_server.py:46 | Cutting fields to their widths yields a fitting row, and leaves a row unchanged exactly when it already fits. |
| AerCodec.EncodeDecodePair | example_server.py:27-49 | Decoding then encoding a pair sets both tags and clears the reserved bits of word B, keeping all other bits. |
| AerCodec.DecodeIgnoresReserved | convert.py:13-23 | Two pairs decode alike exactly when they agree outside word A's tag and on the field bits of word B. |
| AerCodec.ReEncodeFixedPoint | example_server.py:27-49 | A pair survives decode-then-encode unchanged exactly when word A's tag is set and word B has its tag and no reserved bit. |
| AerCodec.Decode | example_server.py:27-42 | Decoding fails exactly on an odd word count; otherwise one row per word pair, in order, each the decoding of its pair. |
| AerCodec.DecodeWords | example_server.py:29-42 | An even-length word list, reshaped into pairs, yields exactly one row per pair, row `i` being the decoding of words `2i` and `2i+1`. |
| AerCodec.DecodeOnePair | example_server.py:27-42 | Two words decode to the one-row matrix holding their pair's decoding. |
| AerCodec.EncodeOneRow | example_server.py:44-51 | A one-row matrix encodes to its row's two words, word A first. |
| AerCodec.Encode | example_server.py:44-51 | Encoding yields two words per row, in row order, each pair the encoding of its row. |
| AerCodec.DecodeEncode | example_server.py:27-51 | Decoding an encoding succeeds and gives the rows cut to their widths; rows that fit come back unchanged. |
| AerCodec.EncodeDecode | example_server.py:27-51 | Re-encoding decoded words gives the same number of words, with tags set and reserved bits cleared. |
| AerCodec.SamplePairDecodes | example_server.py:27-42 | The sample pair `0x80000064, 0x04000003` decodes to timestamp 100, channel 0, x 1, y 0, polarity 1. |
| AerCodec.SamplePairEncodes | example_server.py:44-51 | That event encodes back to `0x80000064, 0x04000003`. |
| ServerProcess.ProcessValue | example_server.py:16-24 | A processed value is never below 50. |
| ServerProcess.ProcessValueCases | example_server.py:19-23 | Values up to 20 gain 50, values from 21 to 119 gain 30, values from 120 on lose 20, all without wrap-around; a value grows exactly when it is below 120. |
| ServerProcess.ProcessRow | example_server.py:19-23 | Only column 3, y, changes. |
| ServerProcess.Process | example_server.py:16-24 | Each row is processed on its own, and the row count is kept. |
| ServerProcess.ProcessKeepsFits | example_server.py:19-23 | A row whose fields fit their wire widths still fits after processing. |
| ServerProcess.ServerRoundTrip | example_server.py:72-75 | For any even word count, decoding, processing and encoding yields words that decode to exactly the processed rows. |

## Left out

- Transport: the YARP ports, the `VBottleBuffer` reader, the queue and the `event_driven` bottle parsing (`vBufferPy/vBuffer.py:13-48`). These are I/O. The model starts at the batch `add_data` receives.
- The string layer of the codec. The model works on the word list: it leaves out `str.split` and integer parsing in `decode`, and the `np.int32` cast and `' '.join` in `encode`. The cast reinterprets words with bit 31 set as negative numbers. Parsing them back into `uint32` is a numpy conversion whose behaviour depends on the numpy version, so it is not modelled.
- `np.split` returns views of the caller's batch, so the emitted `splitted[0]` and `splitted[1:-1]` and the stored `splitted[-1]` (`vBufferPy/vBuffer.py:83,86-88`) share memory with `x`; a caller that later writes into its batch changes emitted windows and storage. The model's sequences are values, so this aliasing is not modelled.
- `encode` mutates the timestamp column of its argument in place (`timestamps |= ...` on a view). The model is pure, so this aliasing is not modelled.
- ServerProcess.Process: `process` updates `arr` in place and returns the same array (`example_server.py:21,23`). The model returns the updated rows as a new sequence, so the caller-visible mutation of the argument is not modelled.
- numba's `@jit`, `print` calls, the server's main block and `convert.py`'s file conversion (`convert.py:26-43`) are left out. So is `eps_counter.py`.
- Event columns other than the one the buffer divides are carried along as opaque `fields`, because the buffer never looks at them.
- AerCodec.DecodePair: word A's tag mask `~(1<<31)` is modelled as clearing bit 31. Depending on the numpy version, combining a negative Python integer with a `uint32` array may promote to a wider type or raise, and that is not modelled.
- No window-length validation: the source accepts any `timestep`. The buffer lemmas hold for any value, except that the span and order lemmas need a positive one.
- Gap filling, empty windows, a corrupted-batch filter, a timestamp modulus and a flush are not part of `add_data`, so they are not modelled.

## Findings

| source | as written | input that shows it | evidently intended | confidence | as-written member | corrected member |
|---|---|---|---|---|---|---|
| vBufferPy/bufferTest.py:24 | checks `x[0,1] - x[-1,1] < bufferTime`, first minus last timestamp, which is at most 0 for any window in time order | a window of two events at 0 and 5000 with `bufferTime` 1028 passes the check | `x[-1,1] - x[0,1] < bufferTime`, last minus first | medium, not executed | BufferChecks.SpanCheckAsWrittenIsVacuous | BufferChecks.FeedWindowsSpan |
