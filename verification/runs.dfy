/**
 Events keyed by their time window, and the partition of an event sequence
 into maximal runs of equal window index (the `split` helper of vBuffer.py).
 */
module EventRuns {

  /** One event row as the buffer sees it: `ts` is column 1, the value the
      buffer divides by the window length (the timestamp in the event layout
      the buffer receives); `fields` are the other columns, carried along
      untouched. */
  datatype Event = Event(ts: int, fields: seq<int>)

  /** Python's `a // b` on numpy integers: the floor of the exact quotient
      (rounding towards minus infinity) for either sign of the divisor, and
      0 (with a warning) for a zero divisor. */
  function FloorDiv(a: int, b: int): (q: int)
    ensures b > 0 ==> b * q <= a < b * q + b
    ensures b < 0 ==> b * q + b < a <= b * q
    ensures b == 0 ==> q == 0
  {
    if b == 0 then 0
    else if b > 0 then a / b
    else (-a) / (-b)
  }

  /** The class of an event: the index of the time window it falls in. For a
      positive window length, window `c` covers `[c * step, (c + 1) * step)`. */
  function ClassOf(e: Event, step: int): (c: int)
    ensures step > 0 ==> c * step <= e.ts < (c + 1) * step
    ensures step == 0 ==> c == 0
  {
    FloorDiv(e.ts, step)
  }

  /** `np.concatenate` of a list of chunks. */
  function Flatten(chunks: seq<seq<Event>>): seq<Event>
  {
    if |chunks| == 0 then [] else chunks[0] + Flatten(chunks[1..])
  }

  /** All events of `w` belong to window `c`. */
  predicate InClass(w: seq<Event>, c: int, step: int)
  {
    forall j :: 0 <= j < |w| ==> ClassOf(w[j], step) == c
  }

  /** A run: a non-empty stretch of events of one class. */
  predicate IsRun(w: seq<Event>, step: int)
  {
    |w| > 0 && InClass(w, ClassOf(w[0], step), step)
  }

  /** Runs in which no two neighbours share a class, so none could be merged
      with the next: the maximal-run partition of their concatenation. */
  ghost predicate MaximalRuns(p: seq<seq<Event>>, step: int)
  {
    && (forall i :: 0 <= i < |p| ==> IsRun(p[i], step))
    && (forall i :: 0 <= i < |p| - 1 ==> ClassOf(p[i][0], step) != ClassOf(p[i + 1][0], step))
  }

  /** The events of one run lie in one window: for a positive window length,
      any two of their timestamps differ by less than that length. */
  lemma RunSpan(w: seq<Event>, step: int)
    requires step > 0 && IsRun(w, step)
    ensures forall i, j :: 0 <= i < |w| && 0 <= j < |w| ==> w[j].ts - w[i].ts < step
  {
  }

  lemma {:induction false} FlattenAppend(a: seq<seq<Event>>, b: seq<seq<Event>>)
    ensures Flatten(a + b) == Flatten(a) + Flatten(b)
    decreases |a|
  {
    if |a| == 0 {
      assert a + b == b;
    } else {
      assert (a + b)[1..] == a[1..] + b;
      FlattenAppend(a[1..], b);
    }
  }

  /** The events of several runs: the first run, the middle runs, the last. */
  lemma {:induction false} FlattenFirstMidLast(runs: seq<seq<Event>>)
    requires |runs| > 1
    ensures Flatten(runs) == runs[0] + (Flatten(runs[1..|runs| - 1]) + runs[|runs| - 1])
  {
    var mid := runs[1..|runs| - 1];
    var last := runs[|runs| - 1];
    assert runs == [runs[0]] + (mid + [last]);
    FlattenCons(runs[0], mid + [last]);
    FlattenAppend(mid, [last]);
    FlattenSingle(last);
  }

  /** Emitting `first` (the events `pre` followed by the first run) and the
      middle runs, and keeping the last run, accounts for `pre` and every run. */
  lemma {:induction false} FlattenKeepLast(first: seq<seq<Event>>, pre: seq<Event>, runs: seq<seq<Event>>)
    requires |runs| > 1 && Flatten(first) == pre + runs[0]
    ensures Flatten(first + runs[1..|runs| - 1]) + Flatten([runs[|runs| - 1]]) == pre + Flatten(runs)
  {
    var mid := runs[1..|runs| - 1];
    var last := runs[|runs| - 1];
    FlattenFirstMidLast(runs);
    FlattenAppend(first, mid);
    FlattenSingle(last);
    var fm := Flatten(mid);
    calc {
      Flatten(first + mid) + Flatten([last]);
      (pre + runs[0] + fm) + last;
      pre + (runs[0] + (fm + last));
    }
  }

  lemma FlattenCons(w: seq<Event>, p: seq<seq<Event>>)
    ensures Flatten([w] + p) == w + Flatten(p)
  {
    assert ([w] + p)[1..] == p;
  }

  lemma FlattenSingle(w: seq<Event>)
    ensures Flatten([w]) == w
  {
    assert [w][1..] == [];
  }

  /** `split(sequence, classes)`: cut at every index where the class differs
      from the previous one. An empty input gives a single empty chunk, as
      `np.split` of an empty array does. */
  function Split(s: seq<Event>, step: int): (r: seq<seq<Event>>)
    ensures |s| == 0 ==> r == [s]
    ensures |s| > 0 ==> MaximalRuns(r, step)
    ensures Flatten(r) == s
    ensures |r| > 0
    decreases |s|
  {
    if |s| <= 1 then
      FlattenSingle(s);
      [s]
    else
      var rest := Split(s[1..], step);
      assert rest[0][0] == s[1] by {
        assert Flatten(rest) == rest[0] + Flatten(rest[1..]);
      }
      if ClassOf(s[0], step) == ClassOf(s[1], step) then
        var r := [[s[0]] + rest[0]] + rest[1..];
        assert Flatten(r) == s by {
          assert r[1..] == rest[1..];
          assert Flatten(rest) == rest[0] + Flatten(rest[1..]);
        }
        assert forall i :: 1 <= i < |r| ==> r[i] == rest[i];
        r
      else
        var r := [[s[0]]] + rest;
        assert Flatten(r) == s by {
          assert r[1..] == rest;
        }
        assert forall i :: 1 <= i < |r| ==> r[i] == rest[i-1];
        r
  }

  /** Timestamps never decrease along the sequence. */
  predicate Sorted(s: seq<Event>)
  {
    forall i, j :: 0 <= i < j < |s| ==> s[i].ts <= s[j].ts
  }

  /** Non-empty runs whose window index strictly increases from each run to
      the next. */
  ghost predicate IncreasingRuns(p: seq<seq<Event>>, step: int)
  {
    && (forall i :: 0 <= i < |p| ==> |p[i]| > 0)
    && (forall i :: 0 <= i < |p| - 1 ==> ClassOf(p[i][0], step) < ClassOf(p[i + 1][0], step))
  }

  /** For a positive window length, a later timestamp is never in an earlier
      window. */
  lemma FloorDivMonotone(a: int, a': int, b: int)
    requires b > 0 && a <= a'
    ensures FloorDiv(a, b) <= FloorDiv(a', b)
  {
    var q, q' := FloorDiv(a, b), FloorDiv(a', b);
    assert b * q < b * (q' + 1);
    MulCancel(b, q, q' + 1);
  }

  lemma MulCancel(b: int, x: int, y: int)
    requires b > 0 && b * x < b * y
    ensures x < y
  {
  }

  /** On timestamp-sorted input with a positive window length, the runs of
      the split come in strictly increasing window order. */
  lemma {:induction false} SplitSortedIncreasing(s: seq<Event>, step: int)
    requires step > 0 && |s| > 0 && Sorted(s)
    ensures IncreasingRuns(Split(s, step), step)
    decreases |s|
  {
    if |s| > 1 {
      var rest := Split(s[1..], step);
      SplitSortedIncreasing(s[1..], step);
      FlattenHead(rest);
      assert rest[0][0] == s[1];
      FloorDivMonotone(s[0].ts, s[1].ts, step);
      var r := Split(s, step);
      if ClassOf(s[0], step) == ClassOf(s[1], step) {
        assert r == [[s[0]] + rest[0]] + rest[1..];
        assert forall i :: 1 <= i < |r| ==> r[i] == rest[i];
      } else {
        assert r == [[s[0]]] + rest;
        assert forall i :: 1 <= i < |r| ==> r[i] == rest[i - 1];
      }
    }
  }

  /** A batch of one class splits into itself. */
  lemma SplitOfRun(s: seq<Event>, step: int)
    requires |s| > 0 && InClass(s, ClassOf(s[0], step), step)
    ensures Split(s, step) == [s]
  {
    FlattenSingle(s);
    assert MaximalRuns([s], step);
    SplitCharacterization(s, [s], step);
  }

  /** Indexing into a concatenation of runs: the first run comes first, then
      the first event of the second run. */
  lemma FlattenHead(p: seq<seq<Event>>)
    requires |p| > 0
    ensures Flatten(p) == p[0] + Flatten(p[1..])
    ensures forall j :: 0 <= j < |p[0]| ==> Flatten(p)[j] == p[0][j]
  {
  }

  lemma FlattenSecond(p: seq<seq<Event>>)
    requires |p| > 1 && |p[1]| > 0
    ensures |Flatten(p)| > |p[0]|
    ensures Flatten(p)[|p[0]|] == p[1][0]
  {
    assert Flatten(p) == p[0] + Flatten(p[1..]);
    assert Flatten(p[1..]) == p[1] + Flatten(p[2..]) by {
      assert p[1..][1..] == p[2..];
    }
  }

  lemma FlattenEmpty(p: seq<seq<Event>>)
    requires forall i :: 0 <= i < |p| ==> |p[i]| > 0
    ensures |Flatten(p)| == 0 <==> |p| == 0
  {
    if |p| > 0 {
      FlattenHead(p);
    }
  }

  lemma InClassConcat(w: seq<Event>, v: seq<Event>, c: int, step: int)
    requires InClass(w, c, step) && InClass(v, c, step)
    ensures InClass(w + v, c, step)
  {
    assert forall j :: 0 <= j < |w + v| ==> (w + v)[j] == if j < |w| then w[j] else v[j - |w|];
  }

  /** Two lists of maximal runs glue into one when the class changes at the
      seam. */
  lemma JoinRuns(p: seq<seq<Event>>, s: seq<seq<Event>>, step: int)
    requires MaximalRuns(p, step) && MaximalRuns(s, step)
    requires |p| > 0 && |s| > 0 ==> ClassOf(p[|p|-1][0], step) != ClassOf(s[0][0], step)
    ensures MaximalRuns(p + s, step)
  {
    var q := p + s;
    assert forall i :: 0 <= i < |p| ==> q[i] == p[i];
    assert forall i :: |p| <= i < |q| ==> q[i] == s[i - |p|];
  }

  lemma DropFirstRun(p: seq<seq<Event>>, step: int)
    requires MaximalRuns(p, step) && |p| > 0
    ensures MaximalRuns(p[1..], step)
  {
    assert forall i :: 0 <= i < |p| - 1 ==> p[1..][i] == p[i+1];
  }

  lemma DropLastRun(p: seq<seq<Event>>, step: int)
    requires MaximalRuns(p, step) && |p| > 0
    ensures MaximalRuns(p[..|p|-1], step)
  {
    assert forall i :: 0 <= i < |p| - 1 ==> p[..|p|-1][i] == p[i];
  }

  /** Dropping the last run of a maximal-run partition leaves the split of
      the remaining events. */
  lemma SplitOfDropLast(p: seq<seq<Event>>, step: int)
    requires MaximalRuns(p, step) && |p| > 1
    ensures p[..|p|-1] == Split(Flatten(p[..|p|-1]), step)
  {
    var q := p[..|p|-1];
    DropLastRun(p, step);
    FlattenEmpty(q);
    SplitCharacterization(Flatten(q), q, step);
  }

  /** The last run may be replaced by another run of the same class. */
  lemma ReplaceLastRun(p: seq<seq<Event>>, w: seq<Event>, v: seq<Event>, step: int)
    requires IsRun(w, step) && MaximalRuns(p + [w], step) && IsRun(v, step)
    requires ClassOf(v[0], step) == ClassOf(w[0], step)
    ensures MaximalRuns(p + [v], step)
  {
    var q, q' := p + [w], p + [v];
    assert forall i :: 0 <= i < |p| ==> q[i] == p[i] && q'[i] == p[i];
    assert q[|p|] == w && q'[|p|] == v;
    if |p| > 0 {
      assert ClassOf(q[|p|-1][0], step) != ClassOf(q[|p|][0], step);
    }
  }

  /** Maximal runs are unique: two maximal-run partitions of the same events
      are the same partition. */
  lemma {:induction false} RunsUnique(p: seq<seq<Event>>, q: seq<seq<Event>>, step: int)
    requires MaximalRuns(p, step) && MaximalRuns(q, step)
    requires Flatten(p) == Flatten(q)
    ensures p == q
    decreases |p|
  {
    FlattenEmpty(p);
    FlattenEmpty(q);
    if |p| == 0 {
      return;
    }
    FlattenHead(p);
    FlattenHead(q);
    var s := Flatten(p);
    var k, m := |p[0]|, |q[0]|;
    var c := ClassOf(s[0], step);
    assert ClassOf(p[0][0], step) == c && ClassOf(q[0][0], step) == c;
    // a longer first run on one side would reach the other side's second
    // run, whose class differs from c
    if |p| > 1 {
      FlattenSecond(p);
    }
    if |q| > 1 {
      FlattenSecond(q);
    }
    assert k == m;
    assert p[0] == s[..k] == q[0];
    assert Flatten(p[1..]) == Flatten(q[1..]);
    DropFirstRun(p, step);
    DropFirstRun(q, step);
    RunsUnique(p[1..], q[1..], step);
    assert p == [p[0]] + p[1..] && q == [q[0]] + q[1..];
  }

  /** `Split` is the maximal-run partition, and the only one: a sequence of
      chunks is the split of a non-empty input exactly when its chunks are
      maximal runs that concatenate back to that input. */
  lemma SplitCharacterization(s: seq<Event>, p: seq<seq<Event>>, step: int)
    requires |s| > 0
    ensures p == Split(s, step) <==> (MaximalRuns(p, step) && Flatten(p) == s)
  {
    if MaximalRuns(p, step) && Flatten(p) == s {
      RunsUnique(p, Split(s, step), step);
    }
  }
}
