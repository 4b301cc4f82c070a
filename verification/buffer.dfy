/**
 The windowing `Buffer` of vBuffer.py: a two-field state (the chunks of the
 still-open window and its class) and `add_data`, which takes a non-empty
 batch of events and returns the windows that the batch completes.
 */
module WindowBuffer {
  import opened EventRuns
  import opened SeqFacts

  datatype Option<T> = None | Some(value: T)

  /** `storage` holds the chunks of the open window, `current` its class
      (None while nothing is open); `timestep` is the window length. */
  datatype Buffer = Buffer(storage: seq<seq<Event>>, current: Option<int>, timestep: int)

  /** The outcome of one `add_data` call: the new state and the completed
      windows, in emission order. */
  datatype Step = Step(next: Buffer, out: seq<seq<Event>>)

  /** The state `add_data` keeps: a window is open exactly when storage holds
      chunks, no chunk is empty, and every stored event is in class `current`. */
  predicate Valid(b: Buffer)
  {
    && (b.storage == [] <==> b.current == None)
    && (forall i :: 0 <= i < |b.storage| ==> |b.storage[i]| > 0)
    && (b.current.Some? ==> InClass(Flatten(b.storage), b.current.value, b.timestep))
  }

  /** `Buffer(timestep)`: nothing stored, nothing open. */
  function Init(step: int): (b: Buffer)
    ensures Valid(b)
    ensures Flatten(b.storage) == [] && b.timestep == step
  {
    Buffer([], None, step)
  }

  /** A batch that is one run is its own split. */
  lemma SplitOne(x: seq<Event>, step: int)
    requires |x| > 0 && |Split(x, step)| == 1
    ensures Split(x, step) == [x]
    ensures InClass(x, ClassOf(x[0], step), step)
  {
    var sp := Split(x, step);
    FlattenSingle(sp[0]);
    assert sp == [sp[0]];
  }

  /** A batch of several runs: first run, middle runs, last run. */
  lemma SplitMany(x: seq<Event>, step: int)
    requires |x| > 0 && |Split(x, step)| > 1
    ensures var sp := Split(x, step);
            && x == sp[0] + Flatten(sp[1..|sp|-1]) + sp[|sp|-1]
            && sp[0][0] == x[0]
            && InClass(sp[|sp|-1], ClassOf(x[|x|-1], step), step)
  {
    var sp := Split(x, step);
    var n := |sp|;
    FlattenFirstMidLast(sp);
    assert sp[n-1][|sp[n-1]|-1] == x[|x|-1];
  }

  /** A batch that is one run of the open window's class: append it to
      storage, emit nothing. */
  function Extend(b: Buffer, run: seq<Event>): (r: Step)
    ensures Flatten(r.out) + Flatten(r.next.storage) == Flatten(b.storage) + run
    ensures r.out == [] && r.next.current == b.current && r.next.timestep == b.timestep
  {
    FlattenAppend(b.storage, [run]);
    FlattenSingle(run);
    Step(b.(storage := b.storage + [run]), [])
  }

  /** A batch that is one run of another class: emit the stored window, if
      any, and open a new window holding the run. */
  function Reopen(b: Buffer, run: seq<Event>, c: int): (r: Step)
    ensures Flatten(r.out) + Flatten(r.next.storage) == Flatten(b.storage) + run
    // the stored chunks leave as one concatenated window
    ensures |r.out| == (if b.storage == [] then 0 else 1)
    ensures r.next == Buffer([run], Some(c), b.timestep)
  {
    FlattenSingle(run);
    FlattenSingle(Flatten(b.storage));
    var out := if b.storage != [] then [Flatten(b.storage)] else [];
    Step(Buffer([run], Some(c), b.timestep), out)
  }

  /** What a batch of several runs emits for its first run `s0`: the stored
      chunks joined with it when it continues the open window, otherwise the
      stored window and then `s0` on its own. */
  function CloseFirst(b: Buffer, s0: seq<Event>, joins: bool): (first: seq<seq<Event>>)
    ensures Flatten(first) == Flatten(b.storage) + s0
    ensures b.storage == [] ==> first == [s0]
    ensures b.storage != [] && joins ==> |first| == 1
    ensures b.storage != [] && !joins ==> |first| == 2 && first[1] == s0
  {
    FlattenSingle(s0);
    if b.storage != [] then
      FlattenAppend(b.storage, [s0]);
      FlattenSingle(Flatten(b.storage + [s0]));
      FlattenCons(Flatten(b.storage), [s0]);
      if joins then [Flatten(b.storage + [s0])]
      else [Flatten(b.storage), s0]
    else [s0]
  }

  /** A batch of several runs: emit the first run (with or after the stored
      window) and every middle run, and keep the last run open. */
  function Close(b: Buffer, runs: seq<seq<Event>>, joins: bool, c: int): (r: Step)
    requires |runs| > 1
    ensures Flatten(r.out) + Flatten(r.next.storage) == Flatten(b.storage) + Flatten(runs)
    ensures r.next == Buffer([runs[|runs|-1]], Some(c), b.timestep)
    // each middle run goes out as a window of its own, after the first run's
    ensures |r.out| == |CloseFirst(b, runs[0], joins)| + |runs| - 2
    ensures r.out[|r.out| - (|runs| - 2)..] == runs[1..|runs| - 1]
    // and the first run's windows are exactly those CloseFirst chooses
    ensures r.out[..|CloseFirst(b, runs[0], joins)|] == CloseFirst(b, runs[0], joins)
  {
    var first := CloseFirst(b, runs[0], joins);
    var mid := runs[1..|runs| - 1];
    FlattenKeepLast(first, Flatten(b.storage), runs);
    AppendTail(first, mid);
    Step(Buffer([runs[|runs| - 1]], Some(c), b.timestep), first + mid)
  }

  /** `Buffer.add_data(x)`. The batch must be non-empty: the source reads
      `classes[0]`, which fails on an empty batch. */
  function AddData(b: Buffer, x: seq<Event>): (r: Step)
    requires |x| > 0
    // no event is lost, duplicated or reordered
    ensures Flatten(r.out) + Flatten(r.next.storage) == Flatten(b.storage) + x
    // after every call a window is open, in the class of the batch's last event
    ensures r.next.timestep == b.timestep
    ensures |r.next.storage| > 0
    ensures r.next.current == Some(ClassOf(x[|x|-1], b.timestep))
  {
    var step := b.timestep;
    var classes := ClassOf(x[0], step);
    var splitted := Split(x, step);
    if |splitted| == 1 then
      SplitOne(x, step);
      if b.current == Some(classes) then Extend(b, splitted[0])
      else Reopen(b, splitted[0], classes)
    else
      Close(b, splitted, b.current == Some(classes), ClassOf(x[|x| - 1], step))
  }

  /** From a consistent state, `add_data` leads to a consistent state: the
      open window's chunks are non-empty and all of its class. */
  lemma AddDataKeepsValid(b: Buffer, x: seq<Event>)
    requires |x| > 0 && Valid(b)
    ensures Valid(AddData(b, x).next)
  {
    var step := b.timestep;
    var sp := Split(x, step);
    var n := AddData(b, x).next;
    if |sp| == 1 {
      SplitOne(x, step);
      FlattenSingle(x);
      if b.current == Some(ClassOf(x[0], step)) {
        FlattenAppend(b.storage, [x]);
        InClassConcat(Flatten(b.storage), x, ClassOf(x[0], step), step);
        assert n.storage == b.storage + [x];
      }
    } else {
      SplitMany(x, step);
      FlattenSingle(sp[|sp|-1]);
    }
  }

  /** The emitted windows followed by the open window (when one is open). */
  function Windows(outs: seq<seq<Event>>, b: Buffer): (w: seq<seq<Event>>)
    ensures Flatten(w) == Flatten(outs) + Flatten(b.storage)
  {
    FlattenAppend(outs, [Flatten(b.storage)]);
    FlattenSingle(Flatten(b.storage));
    if b.storage == [] then outs else outs + [Flatten(b.storage)]
  }

  /** What holds between the buffer and everything it emitted so far: the
      state is consistent, nothing was emitted before the first window opened,
      and the emitted windows followed by the open window are maximal runs. */
  ghost predicate StreamInv(outs: seq<seq<Event>>, b: Buffer)
  {
    && Valid(b)
    && (b.storage == [] ==> outs == [])
    && MaximalRuns(Windows(outs, b), b.timestep)
  }

  lemma StoredRun(b: Buffer)
    requires Valid(b) && b.storage != []
    ensures IsRun(Flatten(b.storage), b.timestep)
    ensures ClassOf(Flatten(b.storage)[0], b.timestep) == b.current.value
  {
    FlattenHead(b.storage);
  }

  /** Nothing open yet: the windows after the call are the batch's runs. */
  lemma StreamOpens(b: Buffer, x: seq<Event>)
    requires |x| > 0 && Valid(b) && b.storage == []
    ensures MaximalRuns(Windows(AddData(b, x).out, AddData(b, x).next), b.timestep)
  {
    var step := b.timestep;
    var r := AddData(b, x);
    var sp := Split(x, step);
    if |sp| == 1 {
      SplitOne(x, step);
      FlattenSingle(x);
    } else {
      assert r.out + [sp[|sp|-1]] == sp;
      FlattenSingle(sp[|sp|-1]);
    }
    assert Windows(r.out, r.next) == sp;
  }

  /** When the batch's first run continues the open window, the windows after
      the call are the earlier ones with the open window grown by that run,
      followed by the batch's other runs. */
  lemma JoinsShape(outs: seq<seq<Event>>, b: Buffer, x: seq<Event>)
    requires |x| > 0 && b.storage != []
    requires b.current == Some(ClassOf(x[0], b.timestep))
    ensures var sp := Split(x, b.timestep);
            Windows(outs + AddData(b, x).out, AddData(b, x).next)
            == outs + [Flatten(b.storage) + sp[0]] + sp[1..]
  {
    if |Split(x, b.timestep)| == 1 {
      JoinsShapeOne(outs, b, x);
    } else {
      JoinsShapeMany(outs, b, x);
    }
  }

  lemma JoinsShapeOne(outs: seq<seq<Event>>, b: Buffer, x: seq<Event>)
    requires |x| > 0 && b.storage != [] && |Split(x, b.timestep)| == 1
    requires b.current == Some(ClassOf(x[0], b.timestep))
    ensures var sp := Split(x, b.timestep);
            Windows(outs + AddData(b, x).out, AddData(b, x).next)
            == outs + [Flatten(b.storage) + sp[0]] + sp[1..]
  {
    var r := AddData(b, x);
    var sp := Split(x, b.timestep);
    SplitOne(x, b.timestep);
    FlattenAppend(b.storage, [x]);
    FlattenSingle(x);
    assert r.out == [] && r.next.storage == b.storage + [x];
    assert sp[1..] == [];
  }

  lemma JoinsShapeMany(outs: seq<seq<Event>>, b: Buffer, x: seq<Event>)
    requires |x| > 0 && b.storage != [] && |Split(x, b.timestep)| > 1
    requires b.current == Some(ClassOf(x[0], b.timestep))
    ensures var sp := Split(x, b.timestep);
            Windows(outs + AddData(b, x).out, AddData(b, x).next)
            == outs + [Flatten(b.storage) + sp[0]] + sp[1..]
  {
    var r := AddData(b, x);
    var sp := Split(x, b.timestep);
    var m := Flatten(b.storage) + sp[0];
    var last := sp[|sp|-1];
    FlattenAppend(b.storage, [sp[0]]);
    FlattenSingle(sp[0]);
    FlattenSingle(last);
    assert r.out == [m] + sp[1..|sp|-1];
    RegroupJoinAll(outs, m, sp);
  }

  /** When the batch starts another window, the windows after the call are
      the earlier windows (the open one now emitted whole) followed by the
      batch's runs. */
  lemma BreaksShape(outs: seq<seq<Event>>, b: Buffer, x: seq<Event>)
    requires |x| > 0 && b.storage != []
    requires b.current != Some(ClassOf(x[0], b.timestep))
    ensures Windows(outs + AddData(b, x).out, AddData(b, x).next)
            == Windows(outs, b) + Split(x, b.timestep)
  {
    if |Split(x, b.timestep)| == 1 {
      BreaksShapeOne(outs, b, x);
    } else {
      BreaksShapeMany(outs, b, x);
    }
  }

  lemma BreaksShapeOne(outs: seq<seq<Event>>, b: Buffer, x: seq<Event>)
    requires |x| > 0 && b.storage != [] && |Split(x, b.timestep)| == 1
    requires b.current != Some(ClassOf(x[0], b.timestep))
    ensures Windows(outs + AddData(b, x).out, AddData(b, x).next)
            == Windows(outs, b) + Split(x, b.timestep)
  {
    var r := AddData(b, x);
    var w := Flatten(b.storage);
    SplitOne(x, b.timestep);
    FlattenSingle(x);
    assert r.out == [w] && r.next.storage == [x];
    assert Windows(outs, b) == outs + [w];
  }

  lemma BreaksShapeMany(outs: seq<seq<Event>>, b: Buffer, x: seq<Event>)
    requires |x| > 0 && b.storage != [] && |Split(x, b.timestep)| > 1
    requires b.current != Some(ClassOf(x[0], b.timestep))
    ensures Windows(outs + AddData(b, x).out, AddData(b, x).next)
            == Windows(outs, b) + Split(x, b.timestep)
  {
    var r := AddData(b, x);
    var sp := Split(x, b.timestep);
    var w := Flatten(b.storage);
    var last := sp[|sp|-1];
    assert r.out == [w, sp[0]] + sp[1..|sp|-1];
    FlattenSingle(last);
    RegroupBreakAll(outs, w, sp);
    assert Windows(outs, b) == outs + [w];
  }

  /** The batch's first run continues the open window: that window grows,
      and the batch's other runs follow it. */
  lemma StreamJoins(outs: seq<seq<Event>>, b: Buffer, x: seq<Event>)
    requires |x| > 0 && StreamInv(outs, b) && b.storage != []
    requires b.current == Some(ClassOf(x[0], b.timestep))
    ensures MaximalRuns(Windows(outs + AddData(b, x).out, AddData(b, x).next), b.timestep)
  {
    var step := b.timestep;
    var sp := Split(x, step);
    var w := Flatten(b.storage);
    StoredRun(b);
    FlattenHead(sp);
    var m := w + sp[0];
    assert IsRun(m, step) by {
      InClassConcat(w, sp[0], ClassOf(x[0], step), step);
    }
    FlattenSingle(w);
    assert Windows(outs, b) == outs + [w];
    ReplaceLastRun(outs, w, m, step);
    DropFirstRun(sp, step);
    JoinRuns(outs + [m], sp[1..], step);
    JoinsShape(outs, b, x);
  }

  /** The batch starts another window: the open window is emitted whole and
      the batch's runs follow it. */
  lemma StreamBreaks(outs: seq<seq<Event>>, b: Buffer, x: seq<Event>)
    requires |x| > 0 && StreamInv(outs, b) && b.storage != []
    requires b.current != Some(ClassOf(x[0], b.timestep))
    ensures MaximalRuns(Windows(outs + AddData(b, x).out, AddData(b, x).next), b.timestep)
  {
    var step := b.timestep;
    var sp := Split(x, step);
    var w := Flatten(b.storage);
    StoredRun(b);
    FlattenHead(sp);
    FlattenSingle(w);
    assert Windows(outs, b) == outs + [w];
    JoinRuns(outs + [w], sp, step);
    BreaksShape(outs, b, x);
  }

  /** One `add_data` call keeps the stream invariant, also across the seam
      between the windows emitted before and those it emits. */
  lemma AddDataPreservesStream(outs: seq<seq<Event>>, b: Buffer, x: seq<Event>)
    requires |x| > 0 && StreamInv(outs, b)
    ensures StreamInv(outs + AddData(b, x).out, AddData(b, x).next)
  {
    AddDataKeepsValid(b, x);
    if b.storage == [] {
      assert outs + AddData(b, x).out == AddData(b, x).out;
      StreamOpens(b, x);
    } else if b.current == Some(ClassOf(x[0], b.timestep)) {
      StreamJoins(outs, b, x);
    } else {
      StreamBreaks(outs, b, x);
    }
  }

  /** From a consistent state, the windows one call emits, followed by the
      window it leaves open, are maximal runs: each emitted window is
      non-empty and of one class, and neighbours differ in class. */
  lemma AddDataEmitsRuns(b: Buffer, x: seq<Event>)
    requires |x| > 0 && Valid(b)
    ensures var r := AddData(b, x);
            MaximalRuns(r.out + [Flatten(r.next.storage)], b.timestep)
  {
    if b.storage != [] {
      StoredRun(b);
      FlattenSingle(Flatten(b.storage));
    }
    assert StreamInv([], b);
    AddDataPreservesStream([], b, x);
    var r := AddData(b, x);
    assert [] + r.out == r.out;
  }

  /** A batch that is a single run of the open window's class emits nothing
      and only appends the batch to storage. */
  lemma AddDataWithinWindow(b: Buffer, x: seq<Event>)
    requires |x| > 0 && InClass(x, ClassOf(x[0], b.timestep), b.timestep)
    requires b.current == Some(ClassOf(x[0], b.timestep))
    ensures AddData(b, x).out == []
    ensures AddData(b, x).next == b.(storage := b.storage + [x])
  {
    SplitOfRun(x, b.timestep);
  }

  /** The caller's loop `for x in batches: outs += buf.add_data(x)`: the final
      state and every window emitted on the way. */
  function Feed(b: Buffer, batches: seq<seq<Event>>): (r: Step)
    requires forall i :: 0 <= i < |batches| ==> |batches[i]| > 0
    ensures r.next.timestep == b.timestep
    ensures |batches| > 0 ==> |r.next.storage| > 0
    decreases |batches|
  {
    if |batches| == 0 then Step(b, [])
    else
      var s := AddData(b, batches[0]);
      var t := Feed(s.next, batches[1..]);
      Step(t.next, s.out + t.out)
  }

  /** Over any number of calls no event is lost, duplicated or reordered: the
      emitted windows followed by storage hold the stored events and then all
      batches, in order. */
  lemma {:induction false} FeedConserves(b: Buffer, batches: seq<seq<Event>>)
    requires forall i :: 0 <= i < |batches| ==> |batches[i]| > 0
    ensures Flatten(Feed(b, batches).out) + Flatten(Feed(b, batches).next.storage)
            == Flatten(b.storage) + Flatten(batches)
    decreases |batches|
  {
    if |batches| > 0 {
      var s := AddData(b, batches[0]);
      var t := Feed(s.next, batches[1..]);
      FeedConserves(s.next, batches[1..]);
      FlattenAppend(s.out, t.out);
      FlattenHead(batches);
      ChainConcat(Flatten(s.out), Flatten(s.next.storage), Flatten(t.out), Flatten(t.next.storage),
                  Flatten(b.storage), batches[0], Flatten(batches[1..]));
    }
  }

  /** Chaining two conservation facts through the state passed between them. */
  lemma ChainConcat(out1: seq<Event>, mid: seq<Event>, out2: seq<Event>, fin: seq<Event>,
                    start: seq<Event>, x: seq<Event>, rest: seq<Event>)
    requires out1 + mid == start + x
    requires out2 + fin == mid + rest
    ensures (out1 + out2) + fin == start + (x + rest)
  {
    calc {
      (out1 + out2) + fin;
      out1 + (out2 + fin);
      out1 + (mid + rest);
      (out1 + mid) + rest;
      (start + x) + rest;
    }
  }

  lemma {:induction false} FeedPreservesStream(outs: seq<seq<Event>>, b: Buffer, batches: seq<seq<Event>>)
    requires forall i :: 0 <= i < |batches| ==> |batches[i]| > 0
    requires StreamInv(outs, b)
    ensures StreamInv(outs + Feed(b, batches).out, Feed(b, batches).next)
    decreases |batches|
  {
    if |batches| == 0 {
      assert outs + [] == outs;
    } else {
      var s := AddData(b, batches[0]);
      AddDataPreservesStream(outs, b, batches[0]);
      FeedPreservesStream(outs + s.out, s.next, batches[1..]);
      var t := Feed(s.next, batches[1..]);
      var r := Feed(b, batches);
      assert r == Step(t.next, s.out + t.out);
      Assoc(outs, s.out, t.out);
    }
  }

  /** The whole-stream guarantee: from a fresh buffer, after any non-empty
      batches in any timestamp order, the emitted windows followed by the
      open window are exactly the maximal-run split of all input. So the
      emitted windows are all runs but the last, and storage holds the last. */
  lemma FeedIsSplit(step: int, batches: seq<seq<Event>>)
    requires |batches| > 0
    requires forall i :: 0 <= i < |batches| ==> |batches[i]| > 0
    ensures var r := Feed(Init(step), batches);
            var all := Split(Flatten(batches), step);
            && r.next.storage != []
            && r.out == all[..|all|-1]
            && Flatten(r.next.storage) == all[|all|-1]
  {
    var r := Feed(Init(step), batches);
    assert StreamInv([], Init(step));
    FeedPreservesStream([], Init(step), batches);
    FeedConserves(Init(step), batches);
    assert [] + r.out == r.out;
    FlattenHead(batches);
    var all := Split(Flatten(batches), step);
    var wins := Windows(r.out, r.next);
    RunsUnique(wins, all, step);
    assert wins == r.out + [Flatten(r.next.storage)];
  }

  /** What the buffer's test asserts after its loop: the event count adds up,
      the emitted events are a prefix of the input, and re-splitting the
      emitted events by class gives back exactly the emitted windows. */
  lemma FeedMatchesTest(step: int, batches: seq<seq<Event>>)
    requires |batches| > 0
    requires forall i :: 0 <= i < |batches| ==> |batches[i]| > 0
    ensures var r := Feed(Init(step), batches);
            var couts := Flatten(r.out);
            && |couts| + |Flatten(r.next.storage)| == |Flatten(batches)|
            && couts == Flatten(batches)[..|couts|]
            && (|r.out| > 0 ==> r.out == Split(couts, step))
  {
    var r := Feed(Init(step), batches);
    var couts := Flatten(r.out);
    FeedConserves(Init(step), batches);
    assert couts + Flatten(r.next.storage) == Flatten(batches);
    assert couts == Flatten(batches)[..|couts|];
    FeedIsSplit(step, batches);
    var all := Split(Flatten(batches), step);
    if |r.out| > 0 {
      SplitOfDropLast(all, step);
    }
  }
}
