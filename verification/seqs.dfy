/** Regrouping facts about sequence concatenation, stated once with no
    context so that the proofs that use them stay small. */
module SeqFacts {

  lemma Assoc<T>(a: seq<T>, b: seq<T>, c: seq<T>)
    ensures a + (b + c) == (a + b) + c
  {
  }

  /** A non-empty sequence is its prefix without the last element followed by
      that element. */
  lemma DropLastThenLast<T>(s: seq<T>)
    requires |s| > 0
    ensures s[..|s|-1] + [s[|s|-1]] == s
  {
  }

  /** `a` is the head and `b` the tail of `a + b`. */
  lemma AppendTail<T>(a: seq<T>, b: seq<T>)
    ensures |a + b| == |a| + |b|
    ensures (a + b)[..|a|] == a
    ensures (a + b)[|a + b| - |b|..] == b
  {
  }

  /** Emitting `w`, the runs of a batch but its last, and then keeping the
      last run open gives `w` followed by all runs. */
  lemma RegroupBreakAll<T>(outs: seq<T>, w: T, sp: seq<T>)
    requires |sp| > 1
    ensures (outs + ([w, sp[0]] + sp[1..|sp|-1])) + [sp[|sp|-1]] == (outs + [w]) + sp
  {
    assert sp == [sp[0]] + sp[1..|sp|-1] + [sp[|sp|-1]];
  }

  /** Emitting the grown open window `m`, the middle runs of a batch, and
      keeping the last run open gives `m` followed by every run but the first. */
  lemma RegroupJoinAll<T>(outs: seq<T>, m: T, sp: seq<T>)
    requires |sp| > 1
    ensures (outs + ([m] + sp[1..|sp|-1])) + [sp[|sp|-1]] == (outs + [m]) + sp[1..]
  {
    assert sp[1..] == sp[1..|sp|-1] + [sp[|sp|-1]];
  }
}
