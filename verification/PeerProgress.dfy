/**
 Progress of peer removal: every run of the protocol is finite, and there are two ways for a
 RemovePeer call not to return. One is the end of the process by a send on a closed channel. The
 other is a wait cycle between the remover, the listener and the service loop, closed at one of
 the three places where Close waits: for the lock of the websocket client, which its reader keeps
 while the listener takes no messages; for someone to take the reason of the shutdown, when the
 one meant to has timed out; and for `exit`. All of them are reachable, and a wait cycle is never
 left.
 */
module PeerProgress {
  import opened WebsocketFeed
  import opened PeerProtocol

  // ----- A measure that every step decreases -----

  function ListenerRank(p: Listener): (n: nat) {
    match p
    case LIdle => 7
    case LSpawned => 5
    case LSelect => 4
    case LSend(_) => 9
    case LSignal => 3
    case LCloseExit => 2
    case LDone => 1
  }

  function WatcherRank(p: Watcher): (n: nat) {
    match p
    case WWait => 4
    case WGot(_) => 3
    case WLook(_) => 2
    case WReport => 1
    case WDone => 0
  }

  function RemoverRank(p: Remover): (n: nat) {
    match p
    case RIdle => 9
    case RWant => 8
    case RHold => 7
    case RStop(waiter) => if waiter then 6 else 5
    case RFeed => 4
    case RWaitExit => 3
    case RCloseDisc => 2
    case RDelete => 1
    case RDone => 0
  }

  function ServerRank(p: Server): (n: nat) {
    match p
    case SReady => 0
    case SWant => 3
    case SLook => 2
    case SHandle => 1
  }

  function RemoversRank(ps: seq<Remover>): (n: nat) {
    if ps == [] then 0 else RemoverRank(ps[0]) + RemoversRank(ps[1..])
  }

  function WireRank(p: Wire): (n: nat) {
    match p
    case Up => 3
    case Stopping(waiter) => if waiter then 2 else 1
    case Down => 0
  }

  function ReaderRank(p: Reader): (n: nat) {
    match p
    case NIdle => 1
    case NRead => 1
    case NGot => 10
    case NPut => 9
    case NDone => 0
  }

  function UpstreamRank(p: Upstream): (n: nat) {
    match p
    case UIdle => 1
    case USelect => 1
    case UHand => 7
    case UDone => 0
  }

  /** Messages count for more the further they have to go. */
  function FeedMeasure(f: Feed): (n: nat) {
    10 * f.pending + 7 * f.buffer + WireRank(f.wire) + ReaderRank(f.reader) + UpstreamRank(f.upstream)
    + (if f.connected then 1 else 0)
  }

  lemma FeedStepDecreases(f: Feed, step: FeedStep)
    requires Can(f, step) && (step.Connect? ==> f.reader.NIdle?)
    ensures match step
      case Connect => FeedMeasure(After(f, step)) <= FeedMeasure(f) + 1
      case HandOver => FeedMeasure(After(f, step)) + 6 == FeedMeasure(f)
      case CloseFeed => FeedMeasure(After(f, step)) == FeedMeasure(f)
      case _ => FeedMeasure(After(f, step)) < FeedMeasure(f)
  {
  }

  /** Likewise for program points set back by a message. */
  function Measure(s: State): (n: nat) {
    FeedMeasure(s.feed) + 4 * s.foreign + 2 * s.others + (if s.lock.ByOther? then 1 else 0)
    + ListenerRank(s.listener) + WatcherRank(s.watcher) + RemoversRank(s.removers) + ServerRank(s.server)
  }

  lemma {:induction false} RankOfMove(ps: seq<Remover>, i: nat, p: Remover)
    requires i < |ps|
    ensures RemoversRank(ps[i := p]) + RemoverRank(ps[i]) == RemoversRank(ps) + RemoverRank(p)
  {
    if i == 0 {
      assert ps[0 := p][1..] == ps[1..];
    } else {
      RankOfMove(ps[1..], i - 1, p);
      assert ps[i := p][1..] == ps[1..][i - 1 := p];
    }
  }

  predicate InShutdown(a: Action) {
    a.StopConnection? || a.ReasonSeen?
  }

  lemma RemoverPointDecreases(s: State, a: Action)
    requires Enabled(s, a) && ByARemover(a) && !InShutdown(a)
    ensures Next(s, a).removers == s.removers[a.i := Next(s, a).removers[a.i]]
    ensures RemoverRank(Next(s, a).removers[a.i]) < RemoverRank(s.removers[a.i])
  {
  }

  lemma RemoverMoves(s: State, a: Action)
    requires Enabled(s, a) && ByARemover(a) && !InShutdown(a)
    ensures RemoversRank(Next(s, a).removers) < RemoversRank(s.removers)
  {
    RemoverPointDecreases(s, a);
    RankOfMove(s.removers, a.i, Next(s, a).removers[a.i]);
  }

  lemma FeedNotIncreased(s: State, a: Action)
    requires Enabled(s, a) && !a.Logon?
    ensures FeedMeasure(Next(s, a).feed) <= FeedMeasure(s.feed)
    ensures InShutdown(a) || a.Client? ==> FeedMeasure(Next(s, a).feed) < FeedMeasure(s.feed)
    ensures a.Receive? ==> FeedMeasure(Next(s, a).feed) + 6 == FeedMeasure(s.feed)
  {
    FeedFollows(s, a);
    var step := FeedStepOf(s, a);
    if step.Some? {
      FeedStepDecreases(s.feed, step.value);
    }
  }

  lemma RemoverStepDecreases(s: State, a: Action)
    requires Enabled(s, a) && ByARemover(a) && (s.lock.ByOther? ==> !Critical(s.removers[a.i]))
    ensures Measure(Next(s, a)) < Measure(s)
  {
    var s' := Next(s, a);
    FeedNotIncreased(s, a);
    if InShutdown(a) {
      assert s' == s.(feed := s'.feed);
    } else {
      RemoverMoves(s, a);
      assert s'.listener == s.listener && s'.watcher == s.watcher && s'.server == s.server;
      assert s'.foreign == s.foreign && s'.others == s.others && (s'.lock.ByOther? ==> s.lock.ByOther?);
    }
  }

  predicate ByThePeer(a: Action) {
    || a.Logon? || a.Start? || a.Client? || a.Receive? || a.ReceiveNil? || a.Timeout?
    || a.Deliver? || a.Signal? || a.CloseExit?
  }

  lemma PeerStepDecreases(s: State, a: Action)
    requires Enabled(s, a) && ByThePeer(a) && FeedInv(s.feed)
    ensures Measure(Next(s, a)) < Measure(s)
  {
    var s' := Next(s, a);
    assert s'.removers == s.removers && s'.lock == s.lock && s'.foreign == s.foreign && s'.others == s.others;
    if a.Logon? {
      FeedStepDecreases(s.feed, Connect);
    } else {
      FeedNotIncreased(s, a);
    }
  }

  lemma OtherStepDecreases(s: State, a: Action)
    requires Enabled(s, a) && !ByARemover(a) && !ByThePeer(a)
    ensures Measure(Next(s, a)) < Measure(s)
  {
    assert Next(s, a).removers == s.removers && Next(s, a).feed == s.feed;
  }

  lemma StepDecreases(s: State, a: Action)
    requires Inv(s) && Enabled(s, a)
    ensures Measure(Next(s, a)) < Measure(s)
  {
    if ByARemover(a) {
      assert Critical(s.removers[a.i]) <==> s.lock == ByRemover(a.i);
      RemoverStepDecreases(s, a);
    } else if ByThePeer(a) {
      PeerStepDecreases(s, a);
    } else {
      OtherStepDecreases(s, a);
    }
  }

  /** No run is longer than the measure of its first state. */
  lemma {:induction false} RunsAreFinite(trace: seq<State>, actions: seq<Action>, n: nat)
    requires Run(trace, actions) && Patient(trace, actions) && n <= |actions|
    ensures n + Measure(trace[n]) <= Measure(trace[0])
  {
    if n > 0 {
      RunsAreFinite(trace, actions, n - 1);
      RunStepDecreases(trace, actions, n - 1);
    }
  }

  lemma RunStepDecreases(trace: seq<State>, actions: seq<Action>, i: nat)
    requires Run(trace, actions) && Patient(trace, actions) && i < |actions|
    ensures Measure(trace[i + 1]) < Measure(trace[i])
  {
    RunInv(trace, actions, i);
    assert StepAt(trace, actions, i);
    StepDecreases(trace[i], actions[i]);
  }

  // ----- The wait cycle -----

  /** The service loop wants the lock, and the listener waits for it to take a message. */
  predicate ListenerWaits(s: State) {
    s.listener.LSend? && s.server.SWant?
  }

  /** The upstream goroutine waits for a listener that waits itself, or has left by a timeout. */
  predicate UpstreamWaits(s: State) {
    s.feed.upstream.UHand? && (ListenerWaits(s) || s.listener.LDone?)
  }

  /** Remover i holds the lock and waits for exit to close. */
  predicate WaitsForExit(s: State, i: nat) {
    At(s, i, RWaitExit) && s.lock == ByRemover(i) && ListenerWaits(s)
  }

  /** Remover i holds the lock and waits for the reader, which waits for room in the buffer. */
  predicate WaitsForReader(s: State, i: nat) {
    && Stops(s, i) && s.lock == ByRemover(i) && UpstreamWaits(s)
    && s.feed.wire.Up? && s.feed.reader.NPut? && s.feed.buffer == READ_CAPACITY
  }

  /** Remover i holds the lock and waits for the end of a stop whose reason nobody takes. */
  predicate WaitsForTaker(s: State, i: nat) {
    At(s, i, RStop(false)) && s.lock == ByRemover(i) && UpstreamWaits(s) && s.feed.wire == Stopping(false)
  }

  predicate Caught(s: State, i: nat) {
    WaitsForExit(s, i) || WaitsForReader(s, i) || WaitsForTaker(s, i)
  }

  /** Steps that wait for something to happen outside: calls, messages, failures of the connection. */
  predicate External(a: Action) {
    || a.Logon? || a.Begin? || a.ServeForeign? || a.OtherLock?
    || (a.Client? && FromOutside(a.step))
  }

  /** The gateway has come to rest: nothing moves before something happens outside. */
  ghost predicate AtRest(s: State) {
    forall a :: Enabled(s, a) ==> External(a)
  }

  /** Every RemovePeer call made has returned. */
  predicate AllReturned(s: State) {
    forall i :: 0 <= i < |s.removers| ==> s.removers[i].RIdle? || s.removers[i].RDone?
  }

  /** A listener that does not take what the upstream goroutine hands over is waiting, or has left. */
  lemma UpstreamAtRest(s: State, i: nat)
    requires Inv(s) && Alive(s) && AtRest(s) && Stops(s, i) && s.feed.upstream.UHand?
    ensures UpstreamWaits(s)
  {
    assert PointOk(s, s.removers[i]);
    assert Critical(s.removers[i]) <==> s.lock == ByRemover(i);
    assert !Enabled(s, Receive(true)) && !Enabled(s, Deliver) && !Enabled(s, Signal) && !Enabled(s, CloseExit);
    assert !Enabled(s, ServeDone);
  }

  /** A client at rest whose connection is not down has the upstream goroutine waiting, and the reader or a stop behind it. */
  lemma ClientAtRest(f: Feed)
    requires FeedInv(f) && !f.upstream.UIdle? && !f.wire.Down?
    requires !Can(f, Put) && !Can(f, Take) && !Can(f, GiveUp) && !Can(f, HandReason(TheUpstream)) && !Can(f, BeginStop(false))
    ensures f.upstream.UHand?
    ensures f.wire == Stopping(false) || (f.wire.Up? && f.reader.NPut? && f.buffer == READ_CAPACITY)
  {
  }

  lemma ClientCannot(s: State, step: FeedStep)
    requires Alive(s) && AtRest(s) && Own(step) && !FromOutside(step)
    ensures !Can(s.feed, step)
  {
    assert !Enabled(s, Client(step));
  }

  lemma StopAtRest(s: State, i: nat)
    requires Inv(s) && Alive(s) && AtRest(s) && Stops(s, i)
    ensures Caught(s, i)
  {
    assert PointOk(s, s.removers[i]);
    assert Critical(s.removers[i]) <==> s.lock == ByRemover(i);
    ClientCannot(s, Put);
    ClientCannot(s, Take);
    ClientCannot(s, GiveUp);
    ClientCannot(s, HandReason(TheUpstream));
    assert !Enabled(s, ConnectionStopped(i)) && !Enabled(s, StopConnection(i)) && !Enabled(s, StopTimeout(i));
    ClientAtRest(s.feed);
    UpstreamAtRest(s, i);
  }

  lemma ExitAtRest(s: State, i: nat)
    requires Inv(s) && Alive(s) && AtRest(s) && At(s, i, RWaitExit)
    ensures Caught(s, i)
  {
    assert PointOk(s, s.removers[i]);
    assert Critical(s.removers[i]) <==> s.lock == ByRemover(i);
    assert !Enabled(s, ExitSeen(i));
    assert !Enabled(s, ReceiveNil) && !Enabled(s, Deliver) && !Enabled(s, Signal) && !Enabled(s, CloseExit);
    assert !Enabled(s, ServeDone);
  }

  /** Only at its waits inside Close can a remover that holds the lock be kept from moving. */
  lemma HolderAtRest(s: State, i: nat)
    requires Inv(s) && Alive(s) && AtRest(s) && i < |s.removers| && Critical(s.removers[i])
    ensures Caught(s, i)
  {
    assert !Enabled(s, Inspect(i)) && !Enabled(s, FeedClose(i));
    assert !Enabled(s, CloseDisconnect(i)) && !Enabled(s, Delete(i));
    if Stops(s, i) {
      StopAtRest(s, i);
    } else {
      ExitAtRest(s, i);
    }
  }

  /** A gateway at rest has finished every removal, or one is caught in the wait cycle. */
  lemma RestIsDoneOrCaught(s: State)
    requires Inv(s) && Alive(s) && AtRest(s)
    ensures AllReturned(s) || (s.lock.ByRemover? && Caught(s, s.lock.i))
  {
    assert !Enabled(s, WatchUnlock) && !Enabled(s, ServeUnlock) && !Enabled(s, OtherUnlock);
    if s.lock.Free? {
      forall i | 0 <= i < |s.removers|
        ensures s.removers[i].RIdle? || s.removers[i].RDone?
      {
        assert !Enabled(s, RemoveLock(i));
        assert Critical(s.removers[i]) <==> s.lock == ByRemover(i);
      }
    } else {
      var i := s.lock.i;
      assert Critical(s.removers[i]) <==> s.lock == ByRemover(i);
      HolderAtRest(s, i);
    }
  }

  lemma ListenerWaitsOn(s: State, a: Action)
    requires LockOk(s) && Enabled(s, a) && s.lock.ByRemover? && (ListenerWaits(s) || s.listener.LDone?)
    ensures ListenerWaits(s) ==> ListenerWaits(Next(s, a))
    ensures s.listener.LDone? ==> Next(s, a).listener.LDone?
  {
  }

  /** The wait for exit ends with the listener only. */
  lemma ExitForever(s: State, a: Action, i: nat)
    requires Inv(s) && Enabled(s, a) && WaitsForExit(s, i)
    ensures WaitsForExit(Next(s, a), i)
  {
    ListenerWaitsOn(s, a);
    assert PointOk(s, s.removers[i]);
    if ByARemover(a) {
      assert Critical(s.removers[a.i]) <==> s.lock == ByRemover(a.i);
    }
  }

  lemma RemoverStopForever(s: State, a: Action, i: nat)
    requires Inv(s) && Enabled(s, a) && (WaitsForReader(s, i) || WaitsForTaker(s, i)) && ByARemover(a)
    ensures Caught(Next(s, a), i)
  {
    ListenerWaitsOn(s, a);
    assert Critical(s.removers[a.i]) <==> s.lock == ByRemover(a.i);
  }

  lemma OtherStopForever(s: State, a: Action, i: nat)
    requires Inv(s) && Enabled(s, a) && (WaitsForReader(s, i) || WaitsForTaker(s, i)) && !ByARemover(a)
    ensures Caught(Next(s, a), i)
  {
    ListenerWaitsOn(s, a);
    assert PointOk(s, s.removers[i]);
    assert !a.Receive? && !a.Logon?;
    assert Next(s, a).removers == s.removers && Next(s, a).lock == s.lock;
    assert a.Client? || Next(s, a).feed == s.feed;
  }

  /** The cycle is never left: the removal does not return, whatever else happens. */
  lemma CaughtForever(s: State, a: Action, i: nat)
    requires Inv(s) && Enabled(s, a) && Caught(s, i)
    ensures Caught(Next(s, a), i)
  {
    if WaitsForExit(s, i) {
      ExitForever(s, a, i);
    } else if ByARemover(a) {
      RemoverStopForever(s, a, i);
    } else {
      OtherStopForever(s, a, i);
    }
  }

  lemma {:induction false} RunCaughtForever(trace: seq<State>, actions: seq<Action>, m: nat, n: nat, i: nat)
    requires Run(trace, actions) && Patient(trace, actions) && m <= n <= |actions| && Caught(trace[m], i)
    ensures Caught(trace[n], i)
  {
    if m < n {
      RunCaughtForever(trace, actions, m, n - 1, i);
      RunInv(trace, actions, n - 1);
      assert StepAt(trace, actions, n - 1);
      CaughtForever(trace[n - 1], actions[n - 1], i);
    }
  }

  ghost predicate NeverCaught(trace: seq<State>) {
    forall m, i :: 0 <= m < |trace| && 0 <= i ==> !Caught(trace[m], i)
  }

  lemma CaughtHasNotReturned(trace: seq<State>, actions: seq<Action>)
    requires Run(trace, actions) && Patient(trace, actions) && AllReturned(trace[|actions|])
    ensures NeverCaught(trace)
  {
    forall m, i | 0 <= m < |trace| && 0 <= i
      ensures !Caught(trace[m], i)
    {
      if Caught(trace[m], i) {
        RunCaughtForever(trace, actions, m, |actions|, i);
      }
    }
  }

  /**
   For every run that has come to rest: all RemovePeer calls have returned and the process goes
   on exactly when no removal has at any point been caught in the wait cycle and nobody has come
   to send on a closed channel.
   */
  lemma RemovalCompletesExactly(trace: seq<State>, actions: seq<Action>)
    requires Run(trace, actions) && Patient(trace, actions) && AtRest(trace[|actions|])
    ensures AllReturned(trace[|actions|]) && Alive(trace[|actions|]) <==>
            NeverCaught(trace) && forall m :: 0 <= m < |trace| ==> Alive(trace[m])
  {
    var last := |actions|;
    RunInv(trace, actions, last);
    if AllReturned(trace[last]) && Alive(trace[last]) {
      CaughtHasNotReturned(trace, actions);
      forall m | 0 <= m < |trace|
        ensures Alive(trace[m])
      {
        assert m < last ==> StepAt(trace, actions, m);
      }
    } else if Alive(trace[last]) {
      RestIsDoneOrCaught(trace[last]);
    }
  }

  /** Without a fatal close the wait cycle is all that can keep a removal from returning. */
  lemma CarefulRemovalCompletesExactly(trace: seq<State>, actions: seq<Action>)
    requires Run(trace, actions) && Patient(trace, actions) && Careful(trace, actions) && AtRest(trace[|actions|])
    ensures AllReturned(trace[|actions|]) <==> NeverCaught(trace)
  {
    forall m | 0 <= m < |trace|
      ensures Alive(trace[m])
    {
      AliveWhenCareful(trace, actions, m);
    }
    RemovalCompletesExactly(trace, actions);
  }
}
