/**
 The process-wide nonce generator (service/peer/nonce.go): the clock in milliseconds at
 second resolution plus a counter that restarts every second.
 */
module Nonces {
  import opened DecimalText

  const TWO64: int := 0x1_0000_0000_0000_0000

  /** Clock readings for which the millisecond value and a counter of 1000 fit in 64 bits. */
  type UnixSeconds = n: nat | n * 1000 + 1000 < TWO64

  function Ms(second: nat): (ms: nat) {
    second * 1000
  }

  datatype Gen = Gen(ts: nat, nonce: nat)

  function Started(now: UnixSeconds): (g: Gen) {
    Gen(Ms(now), 1)
  }

  function Next(g: Gen, now: UnixSeconds): (r: Gen) {
    if g.ts == Ms(now) then g.(nonce := g.nonce + 1) else Gen(Ms(now), 1)
  }

  function Value(g: Gen): (n: nat) {
    g.ts + g.nonce
  }

  class NonceGenerator {
    var ts: nat
    var nonce: nat

    function State(): Gen
      reads this
    {
      Gen(ts, nonce)
    }

    constructor (now: UnixSeconds)
      ensures State() == Started(now)
    {
      ts, nonce := Ms(now), 1;
    }

    method GetNonce(now: UnixSeconds) returns (s: string)
      modifies this
      ensures State() == Next(old(State()), now)
      ensures s == FormatNat(Value(State()))
    {
      var n := Ms(now);
      if ts == n {
        nonce := nonce + 1;
      } else {
        ts := n;
        nonce := 1;
      }
      s := FormatNat(ts + nonce);
    }
  }

  // ----- A run of the process: started at one clock reading, then one reading per call -----

  function After(start: UnixSeconds, clock: seq<UnixSeconds>, n: nat): (g: Gen)
    requires n <= |clock|
  {
    if n == 0 then Started(start) else Next(After(start, clock, n - 1), clock[n - 1])
  }

  /** The value returned by call i. */
  function Nonce(start: UnixSeconds, clock: seq<UnixSeconds>, i: nat): (n: nat)
    requires i < |clock|
  {
    Value(After(start, clock, i + 1))
  }

  predicate Forward(start: UnixSeconds, clock: seq<UnixSeconds>) {
    forall i :: 0 <= i < |clock| ==> (if i == 0 then start else clock[i - 1]) <= clock[i]
  }

  /** The calls made in one second among the first n. */
  function CallsIn(clock: seq<UnixSeconds>, n: nat, second: nat): (count: nat)
    requires n <= |clock|
  {
    if n == 0 then 0 else CallsIn(clock, n - 1, second) + if clock[n - 1] == second then 1 else 0
  }

  lemma {:induction false} NoEarlierCalls(start: UnixSeconds, clock: seq<UnixSeconds>, n: nat, second: nat)
    requires Forward(start, clock) && n <= |clock|
    requires (if n == 0 then start else clock[n - 1]) < second
    ensures CallsIn(clock, n, second) == 0
  {
    if n > 0 {
      assert (if n - 1 == 0 then start else clock[n - 2]) <= clock[n - 1];
      NoEarlierCalls(start, clock, n - 1, second);
    }
  }

  /** The counter of call i: the calls of its second so far, one more in the second of the start. */
  function Counter(start: UnixSeconds, clock: seq<UnixSeconds>, i: nat): (c: nat)
    requires i < |clock|
  {
    CallsIn(clock, i + 1, clock[i]) + if clock[i] == start then 1 else 0
  }

  lemma {:induction false} ClosedForm(start: UnixSeconds, clock: seq<UnixSeconds>, i: nat)
    requires Forward(start, clock) && i < |clock|
    ensures After(start, clock, i + 1) == Gen(Ms(clock[i]), Counter(start, clock, i))
  {
    assert (if i == 0 then start else clock[i - 1]) <= clock[i];
    if i == 0 {
      assert CallsIn(clock, 0, clock[0]) == 0;
      assert CallsIn(clock, 1, clock[0]) == 1;
      assert After(start, clock, 0) == Started(start);
    } else {
      ClosedForm(start, clock, i - 1);
      if clock[i - 1] < clock[i] {
        NoEarlierCalls(start, clock, i, clock[i]);
        StartIsEarlier(start, clock, i - 1);
      }
    }
  }

  lemma {:induction false} StartIsEarlier(start: UnixSeconds, clock: seq<UnixSeconds>, i: nat)
    requires Forward(start, clock) && i < |clock|
    ensures start <= clock[i]
  {
    assert (if i == 0 then start else clock[i - 1]) <= clock[i];
    if i > 0 {
      StartIsEarlier(start, clock, i - 1);
    }
  }

  ghost predicate StrictlyIncreasing(start: UnixSeconds, clock: seq<UnixSeconds>) {
    forall i, j :: 0 <= i < j < |clock| ==> Nonce(start, clock, i) < Nonce(start, clock, j)
  }

  /** Whenever the clock moves on, the counter left behind fits into the elapsed milliseconds. */
  predicate CounterFits(start: UnixSeconds, clock: seq<UnixSeconds>) {
    forall i :: 0 < i < |clock| && clock[i - 1] < clock[i] ==>
      Counter(start, clock, i - 1) <= Ms(clock[i]) - Ms(clock[i - 1])
  }

  lemma Adjacent(start: UnixSeconds, clock: seq<UnixSeconds>, i: nat)
    requires Forward(start, clock) && 0 < i < |clock|
    ensures Nonce(start, clock, i - 1) < Nonce(start, clock, i) <==>
            (clock[i - 1] < clock[i] ==> Counter(start, clock, i - 1) <= Ms(clock[i]) - Ms(clock[i - 1]))
  {
    ClosedForm(start, clock, i - 1);
    ClosedForm(start, clock, i);
    assert clock[i - 1] <= clock[i];
    if clock[i - 1] < clock[i] {
      NoEarlierCalls(start, clock, i, clock[i]);
      StartIsEarlier(start, clock, i - 1);
    }
  }

  lemma {:induction false} AdjacentThenAll(start: UnixSeconds, clock: seq<UnixSeconds>, i: nat, j: nat)
    requires i < j < |clock|
    requires forall k :: 0 < k < |clock| ==> Nonce(start, clock, k - 1) < Nonce(start, clock, k)
    ensures Nonce(start, clock, i) < Nonce(start, clock, j)
  {
    assert Nonce(start, clock, j - 1) < Nonce(start, clock, j);
    if i < j - 1 {
      AdjacentThenAll(start, clock, i, j - 1);
    }
  }

  /** Under a clock that never goes back, nonces strictly increase exactly when the counters fit. */
  lemma IncreasingExactly(start: UnixSeconds, clock: seq<UnixSeconds>)
    requires Forward(start, clock)
    ensures StrictlyIncreasing(start, clock) <==> CounterFits(start, clock)
  {
    forall i | 0 < i < |clock|
      ensures Nonce(start, clock, i - 1) < Nonce(start, clock, i) <==>
              (clock[i - 1] < clock[i] ==> Counter(start, clock, i - 1) <= Ms(clock[i]) - Ms(clock[i - 1]))
    {
      Adjacent(start, clock, i);
    }
    if CounterFits(start, clock) {
      forall i, j | 0 <= i < j < |clock|
        ensures Nonce(start, clock, i) < Nonce(start, clock, j)
      {
        AdjacentThenAll(start, clock, i, j);
      }
    }
    if StrictlyIncreasing(start, clock) {
      forall i | 0 < i < |clock| && clock[i - 1] < clock[i]
        ensures Counter(start, clock, i - 1) <= Ms(clock[i]) - Ms(clock[i - 1])
      {
        assert Nonce(start, clock, i - 1) < Nonce(start, clock, i);
      }
    }
  }

  predicate AtMostPerSecond(clock: seq<UnixSeconds>, limit: nat) {
    forall i :: 0 <= i < |clock| ==> CallsIn(clock, i + 1, clock[i]) <= limit
  }

  /** With at most 999 calls a second, as documented, nonces increase and stay within 64 bits. */
  lemma DocumentedRate(start: UnixSeconds, clock: seq<UnixSeconds>)
    requires Forward(start, clock) && AtMostPerSecond(clock, 999)
    ensures StrictlyIncreasing(start, clock)
    ensures forall i :: 0 <= i < |clock| ==> Nonce(start, clock, i) < TWO64
    ensures forall i, j :: 0 <= i < j < |clock| ==>
              FormatNat(Nonce(start, clock, i)) != FormatNat(Nonce(start, clock, j))
  {
    forall i | 0 < i < |clock| && clock[i - 1] < clock[i]
      ensures Counter(start, clock, i - 1) <= Ms(clock[i]) - Ms(clock[i - 1])
    {
      assert CallsIn(clock, i - 1 + 1, clock[i - 1]) <= 999;
    }
    IncreasingExactly(start, clock);
    forall i | 0 <= i < |clock|
      ensures Nonce(start, clock, i) < TWO64
    {
      ClosedForm(start, clock, i);
      assert CallsIn(clock, i + 1, clock[i]) <= 999;
    }
    forall i, j | 0 <= i < j < |clock|
      ensures FormatNat(Nonce(start, clock, i)) != FormatNat(Nonce(start, clock, j))
    {
      assert Nonce(start, clock, i) < Nonce(start, clock, j);
      FormatNatDiffers(Nonce(start, clock, i), Nonce(start, clock, j));
    }
  }

  lemma {:induction false} ConstantClock(clock: seq<UnixSeconds>, n: nat, second: nat)
    requires n <= |clock| && forall i :: 0 <= i < n ==> clock[i] == second
    ensures CallsIn(clock, n, second) == n
  {
    if n > 0 {
      ConstantClock(clock, n - 1, second);
    }
  }

  /** The rate is tight: the 1000th call of the first second repeats in the following second. */
  lemma ThousandCallsCollide(start: UnixSeconds)
    requires (start + 1) * 1000 + 1000 < TWO64
    ensures var clock: seq<UnixSeconds> := seq(1000, _ => start) + [start + 1];
      Forward(start, clock) && AtMostPerSecond(clock[..999], 999) && Nonce(start, clock, 999) == Nonce(start, clock, 1000)
  {
    var clock: seq<UnixSeconds> := seq(1000, _ => start) + [start + 1];
    assert forall i :: 0 <= i < 1000 ==> clock[i] == start;
    assert Forward(start, clock);
    ConstantClock(clock, 1000, start);
    ClosedForm(start, clock, 999);
    ClosedForm(start, clock, 1000);
    NoEarlierCalls(start, clock, 1000, start + 1);
    forall i | 0 <= i < 999
      ensures CallsIn(clock[..999], i + 1, clock[..999][i]) <= 999
    {
      ConstantClock(clock[..999], i + 1, start);
    }
  }
}
