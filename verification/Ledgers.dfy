/** Bookkeeping along a run: what comes in, goes out and is held, step by step. */
module Ledgers {

  /** All parts together. */
  ghost function Collect<T>(parts: seq<multiset<T>>): (all: multiset<T>) {
    if parts == [] then multiset{} else Collect(parts[..|parts| - 1]) + parts[|parts| - 1]
  }

  lemma {:induction false} EmptyExactly<T>(parts: seq<multiset<T>>)
    ensures Collect(parts) == multiset{} <==> forall i :: 0 <= i < |parts| ==> parts[i] == multiset{}
  {
    if parts != [] {
      var last := |parts| - 1;
      EmptyExactly(parts[..last]);
      assert parts[last] <= Collect(parts) && Collect(parts[..last]) <= Collect(parts);
      if Collect(parts) == multiset{} {
        forall i | 0 <= i < |parts|
          ensures parts[i] == multiset{}
        {
          if i < last {
            assert parts[..last][i] == multiset{};
          }
        }
      }
    }
  }

  /** When each step turns what comes in into what is held or goes out, so does the whole run. */
  lemma {:induction false} Balances<T>(held: seq<multiset<T>>, ins: seq<multiset<T>>, outs: seq<multiset<T>>)
    requires |held| == |ins| + 1 == |outs| + 1
    requires forall i :: 0 <= i < |ins| ==> held[i + 1] + outs[i] == held[i] + ins[i]
    ensures held[|ins|] + Collect(outs) == held[0] + Collect(ins)
  {
    if ins != [] {
      var last := |ins| - 1;
      Balances(held[..last + 1], ins[..last], outs[..last]);
      assert held[last + 1] + outs[last] == held[last] + ins[last];
      Shift(held[last], Collect(outs[..last]), held[0] + Collect(ins[..last]), held[last + 1], outs[last], ins[last]);
    }
  }

  lemma Shift<T>(h: multiset<T>, out_: multiset<T>, in_: multiset<T>, h': multiset<T>, moreOut: multiset<T>, moreIn: multiset<T>)
    requires h + out_ == in_ && h' + moreOut == h + moreIn
    ensures h' + (out_ + moreOut) == in_ + moreIn
  {
    assert h' + (out_ + moreOut) == (h' + moreOut) + out_;
  }
}
