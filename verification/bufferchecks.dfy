/**
 The checks the buffer's test script makes on the emitted windows, stated
 over the model of a fresh buffer fed with non-empty batches.
 */
module BufferChecks {
  import opened EventRuns
  import opened WindowBuffer
  import SeqFacts

  /** The window-length check as the test script writes it: the first
      timestamp minus the last one is below the window length. */
  predicate SpanCheckAsWritten(w: seq<Event>, step: int)
  {
    |w| > 0 ==> w[0].ts - w[|w| - 1].ts < step
  }

  /** The window-length check as intended: the last timestamp minus the
      first one is below the window length. */
  predicate SpanBelow(w: seq<Event>, step: int)
  {
    |w| > 0 ==> w[|w| - 1].ts - w[0].ts < step
  }

  /** The check as written accepts every sorted window, however long: two
      events 5000 apart pass it for a window length of 1028. */
  lemma SpanCheckAsWrittenIsVacuous(w: seq<Event>, step: int)
    requires step > 0 && Sorted(w)
    ensures SpanCheckAsWritten(w, step)
    ensures var wide := [Event(0, []), Event(5000, [])];
            Sorted(wide) && SpanCheckAsWritten(wide, 1028) && !SpanBelow(wide, 1028)
  {
  }

  /** The intended check holds: every window a fresh buffer emits, for a
      positive window length, spans less than one window length, whatever
      the order of the timestamps. */
  lemma FeedWindowsSpan(step: int, batches: seq<seq<Event>>)
    requires step > 0
    requires |batches| > 0
    requires forall i :: 0 <= i < |batches| ==> |batches[i]| > 0
    ensures var r := Feed(Init(step), batches);
            forall k :: 0 <= k < |r.out| ==> SpanBelow(r.out[k], step)
  {
    var r := Feed(Init(step), batches);
    FeedIsSplit(step, batches);
    var all := Split(Flatten(batches), step);
    DropLastRun(all, step);
    forall k | 0 <= k < |r.out|
      ensures SpanBelow(r.out[k], step)
    {
      assert IsRun(r.out[k], step);
      RunSpan(r.out[k], step);
    }
  }

  /** On timestamp-sorted input, the windows a fresh buffer emits, followed
      by the one it leaves open, come in strictly increasing window order:
      no window index repeats or goes back. */
  lemma FeedWindowsIncrease(step: int, batches: seq<seq<Event>>)
    requires step > 0
    requires |batches| > 0
    requires forall i :: 0 <= i < |batches| ==> |batches[i]| > 0
    requires Sorted(Flatten(batches))
    ensures var r := Feed(Init(step), batches);
            IncreasingRuns(r.out + [Flatten(r.next.storage)], step)
  {
    var r := Feed(Init(step), batches);
    FeedIsSplit(step, batches);
    FlattenHead(batches);
    var all := Split(Flatten(batches), step);
    SplitSortedIncreasing(Flatten(batches), step);
    SeqFacts.DropLastThenLast(all);
  }
}
