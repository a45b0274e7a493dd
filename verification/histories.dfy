/** What goes into a queue over time, what comes out of it, and what is left. */
module Histories {
  /** First in, first out over one period and then over another is first in, first out over both. */
  lemma Chain<T>(a: seq<T>, ins: seq<T>, outs: seq<T>, b: seq<T>, moreIns: seq<T>, moreOuts: seq<T>, c: seq<T>)
    requires a + ins == outs + b && b + moreIns == moreOuts + c
    ensures a + (ins + moreIns) == (outs + moreOuts) + c
  {
    assert a + (ins + moreIns) == (a + ins) + moreIns;
    assert (outs + b) + moreIns == outs + (b + moreIns);
    assert outs + (moreOuts + c) == (outs + moreOuts) + c;
  }

  /** Two ways to begin the same sequence: one begins with the other. */
  lemma Prefixes<T>(a: seq<T>, x: seq<T>, b: seq<T>, y: seq<T>)
    requires a + x == b + y
    ensures b <= a || a <= b
  {
    if |b| <= |a| {
      assert b == (b + y)[..|b|] == a[..|b|];
    } else {
      assert a == (a + x)[..|a|] == b[..|a|];
    }
  }
}
