/**
 The example server's `process` step: it rewrites column 3 (y) of every
 decoded row and leaves the other columns alone. The arithmetic is on
 `Word`: process sees decoded values, which fit in 8 bits, so neither step
 wraps (the subtraction only happens above 20 and the addition only below
 100).
 */
module ServerProcess {
  import opened AerCodec

  /** One cell: subtract 20 when above 20, then add 50 when below 100. */
  function ProcessValue(v: Word): (r: Word)
    ensures r >= 50
  {
    var v1 := if v > 20 then v - 20 else v;
    if v1 < 100 then v1 + 50 else v1
  }

  /** The two steps combine into three ranges, and neither step wraps around:
      up to 20 the value gains 50, below 120 it gains 30, and from 120 on it
      loses 20. */
  lemma ProcessValueCases(v: Word)
    ensures v <= 20 ==> ProcessValue(v) == v + 50
    ensures 20 < v < 120 ==> ProcessValue(v) == v + 30
    ensures v >= 120 ==> ProcessValue(v) == v - 20 && ProcessValue(v) < v
    ensures v < 120 <==> ProcessValue(v) > v
  {
  }

  /** `process` on one row: only the y column changes. */
  function ProcessRow(r: Row): (p: Row)
    ensures p.ts == r.ts && p.channel == r.channel && p.x == r.x && p.polarity == r.polarity
    ensures p.y == ProcessValue(r.y)
  {
    r.(y := ProcessValue(r.y))
  }

  /** `process` on the whole matrix, row by row; the result is the updated
      matrix. */
  function Process(rows: seq<Row>): (out: seq<Row>)
    ensures |out| == |rows|
    ensures forall i :: 0 <= i < |rows| ==> out[i] == ProcessRow(rows[i])
  {
    seq(|rows|, i requires 0 <= i < |rows| => ProcessRow(rows[i]))
  }

  /** A y that fits in 8 bits still fits after processing: at most 70 from
      the low range, 149 from the middle one and 235 from the top. A decoded
      row therefore re-encodes without loss. */
  lemma ProcessKeepsFits(r: Row)
    requires Fits(r)
    ensures Fits(ProcessRow(r))
  {
  }

  /** The server's round trip: decoding the words it receives, processing the
      rows and encoding them again yields words that decode to exactly the
      processed rows. */
  lemma ServerRoundTrip(words: seq<Word>)
    requires Decode(words).Decoded?
    ensures Decode(Encode(Process(Decode(words).rows))) == Decoded(Process(Decode(words).rows))
  {
    var rows := Decode(words).rows;
    forall i | 0 <= i < |rows|
      ensures Fits(Process(rows)[i])
    {
      assert Fits(rows[i]);
      ProcessKeepsFits(rows[i]);
    }
    DecodeEncode(Process(rows));
  }
}
