/**
 Runs that show how the removal of a peer can fail: into the wait cycle at each of the three waits
 of Close, and into a send on each of the two channels the websocket client closes.
 */
module PeerScenarios {
  import opened WebsocketFeed
  import opened PeerProtocol
  import opened PeerProgress

  lemma Go(trace: seq<State>, actions: seq<Action>, a: Action) returns (trace': seq<State>, actions': seq<Action>)
    requires Run(trace, actions) && Patient(trace, actions)
    requires Enabled(trace[|actions|], a) && !Hasty(trace[|actions|], a)
    ensures Run(trace', actions') && Patient(trace', actions') && trace'[0] == trace[0]
    ensures trace'[|actions'|] == Next(trace[|actions|], a) && actions' == actions + [a]
  {
    RunSnoc(trace, actions, trace[|actions|], a);
    trace', actions' := trace + [Next(trace[|actions|], a)], actions + [a];
  }

  /** The connection is up, and the client has taken in what there was. */
  predicate Connected(s: State) {
    && s.inMap && s.started && s.lock.Free? && s.feed.connected && !s.feed.closed && s.feed.wire.Up?
    && s.discCloses == 0 && Alive(s)
  }

  lemma LoggedOn(s0: State) returns (trace: seq<State>, actions: seq<Action>)
    requires Init(s0)
    ensures Run(trace, actions) && Patient(trace, actions) && trace[0] == s0 && actions == [Logon, Start]
    ensures trace[|actions|] == s0.(
      started := true, listener := LSelect, feed := s0.feed.(connected := true, reader := NRead, upstream := USelect))
  {
    trace, actions := Go([s0], [], Logon);
    trace, actions := Go(trace, actions, Start);
  }

  /** A message on its way into the buffer. */
  lemma Buffered(trace: seq<State>, actions: seq<Action>) returns (trace': seq<State>, actions': seq<Action>)
    requires Run(trace, actions) && Patient(trace, actions)
    requires var s := trace[|actions|];
      Connected(s) && s.feed.pending > 0 && s.feed.buffer < READ_CAPACITY && s.feed.reader.NRead?
    ensures Run(trace', actions') && Patient(trace', actions') && trace'[0] == trace[0]
    ensures var s := trace[|actions|];
      trace'[|actions'|] == s.(feed := s.feed.(pending := s.feed.pending - 1, buffer := s.feed.buffer + 1))
  {
    trace', actions' := Go(trace, actions, Client(Read));
    trace', actions' := Go(trace', actions', Client(LockRead));
    trace', actions' := Go(trace', actions', Client(Put));
  }

  /** A message on its way to the upstream goroutine. */
  lemma InHand(trace: seq<State>, actions: seq<Action>) returns (trace': seq<State>, actions': seq<Action>)
    requires Run(trace, actions) && Patient(trace, actions)
    requires var s := trace[|actions|];
      Connected(s) && s.feed.pending > 0 && s.feed.buffer == 0 && s.feed.reader.NRead? && s.feed.upstream.USelect?
    ensures Run(trace', actions') && Patient(trace', actions') && trace'[0] == trace[0]
    ensures var s := trace[|actions|];
      trace'[|actions'|] == s.(feed := s.feed.(pending := s.feed.pending - 1, upstream := UHand))
  {
    trace', actions' := Buffered(trace, actions);
    trace', actions' := Go(trace', actions', Client(Take));
  }

  /** The service loop handles one message, the listener holds the next. */
  function Busy(s0: State, needsLock: bool): (s: State)
    requires s0.feed.pending >= 2
  {
    s0.(started := true, listener := LSend(needsLock), server := Handling(needsLock),
        feed := s0.feed.(connected := true, pending := s0.feed.pending - 2, reader := NRead, upstream := USelect))
  }

  lemma GettingBusy(s0: State, needsLock: bool) returns (trace: seq<State>, actions: seq<Action>)
    requires Init(s0) && s0.feed.pending >= 2
    ensures Run(trace, actions) && Patient(trace, actions) && trace[0] == s0
    ensures trace[|actions|] == Busy(s0, needsLock)
  {
    trace, actions := LoggedOn(s0);
    trace, actions := InHand(trace, actions);
    trace, actions := Go(trace, actions, Receive(needsLock));
    trace, actions := Go(trace, actions, Deliver);
    trace, actions := InHand(trace, actions);
    trace, actions := Go(trace, actions, Receive(needsLock));
  }

  /** A removal goes as far as stopping the connection. */
  lemma Removing(trace: seq<State>, actions: seq<Action>) returns (trace': seq<State>, actions': seq<Action>)
    requires Run(trace, actions) && Patient(trace, actions)
    requires var s := trace[|actions|]; Connected(s) && At(s, 0, RIdle) && !s.listener.LSpawned?
    ensures Run(trace', actions') && Patient(trace', actions') && trace'[0] == trace[0]
    ensures var s := trace[|actions|];
      trace'[|actions'|] == s.(
        lock := ByRemover(0), removers := s.removers[0 := RStop(true)], feed := s.feed.(connected := false))
  {
    var s := trace[|actions|];
    trace', actions' := Go(trace, actions, Begin(0));
    trace', actions' := Go(trace', actions', RemoveLock(0));
    trace', actions' := Go(trace', actions', Inspect(0));
    assert s.removers[0 := RWant][0 := RHold][0 := RStop(true)] == s.removers[0 := RStop(true)];
  }

  /** The connection is stopped without delay. */
  lemma Stopped(trace: seq<State>, actions: seq<Action>) returns (trace': seq<State>, actions': seq<Action>)
    requires Run(trace, actions) && Patient(trace, actions)
    requires var s := trace[|actions|];
      Alive(s) && At(s, 0, RStop(true)) && Can(s.feed, BeginStop(false))
    ensures Run(trace', actions') && Patient(trace', actions') && trace'[0] == trace[0]
    ensures var s := trace[|actions|]; trace'[|actions'|] == s.(feed := s.feed.(wire := Down))
  {
    trace', actions' := Go(trace, actions, StopConnection(0));
    trace', actions' := Go(trace', actions', ReasonSeen(0));
  }

  /** After that, the feed is closed. */
  lemma Closed(trace: seq<State>, actions: seq<Action>) returns (trace': seq<State>, actions': seq<Action>)
    requires Run(trace, actions) && Patient(trace, actions)
    requires var s := trace[|actions|]; Alive(s) && Stops(s, 0) && s.feed.wire.Down?
    ensures Run(trace', actions') && Patient(trace', actions') && trace'[0] == trace[0]
    ensures var s := trace[|actions|];
      trace'[|actions'|] == s.(removers := s.removers[0 := RWaitExit], feed := s.feed.(closed := true))
  {
    var s := trace[|actions|];
    trace', actions' := Go(trace, actions, ConnectionStopped(0));
    trace', actions' := Go(trace', actions', FeedClose(0));
    assert s.removers[0 := RFeed][0 := RWaitExit] == s.removers[0 := RWaitExit];
  }

  // ----- Wait cycles -----

  /** Two messages in flight when the session is removed are enough to enter the cycle at the wait for exit. */
  lemma ExitCycleReachable(s0: State) returns (trace: seq<State>, actions: seq<Action>)
    requires Init(s0) && s0.feed.pending >= 2 && |s0.removers| >= 1
    ensures Run(trace, actions) && Patient(trace, actions) && trace[0] == s0 && WaitsForExit(trace[|actions|], 0)
  {
    trace, actions := GettingBusy(s0, true);
    trace, actions := Removing(trace, actions);
    trace, actions := Stopped(trace, actions);
    trace, actions := Closed(trace, actions);
  }

  /** So is one message, when the service loop is busy with another session. */
  lemma ForeignCycleReachable(s0: State) returns (trace: seq<State>, actions: seq<Action>)
    requires Init(s0) && s0.feed.pending >= 1 && s0.foreign >= 1 && |s0.removers| >= 1
    ensures Run(trace, actions) && Patient(trace, actions) && trace[0] == s0 && WaitsForExit(trace[|actions|], 0)
  {
    trace, actions := LoggedOn(s0);
    trace, actions := InHand(trace, actions);
    trace, actions := Go(trace, actions, Receive(true));
    trace, actions := Go(trace, actions, ServeForeign(true));
    trace, actions := Removing(trace, actions);
    trace, actions := Stopped(trace, actions);
    trace, actions := Closed(trace, actions);
  }

  /** A third one in the hands of the upstream goroutine, and a shutdown that takes its time. */
  lemma TakerCycleReachable(s0: State) returns (trace: seq<State>, actions: seq<Action>)
    requires Init(s0) && s0.feed.pending >= 3 && |s0.removers| >= 1
    ensures Run(trace, actions) && Patient(trace, actions) && trace[0] == s0 && WaitsForTaker(trace[|actions|], 0)
  {
    trace, actions := GettingBusy(s0, true);
    trace, actions := InHand(trace, actions);
    trace, actions := Removing(trace, actions);
    trace, actions := Go(trace, actions, StopTimeout(0));
    trace, actions := Go(trace, actions, StopConnection(0));
  }

  /** Eleven more read ahead: the shutdown does not even begin. */
  lemma ReaderCycleReachable(s0: State) returns (trace: seq<State>, actions: seq<Action>)
    requires Init(s0) && s0.feed.pending >= 3 + READ_CAPACITY + 1 && |s0.removers| >= 1
    ensures Run(trace, actions) && Patient(trace, actions) && trace[0] == s0 && WaitsForReader(trace[|actions|], 0)
  {
    trace, actions := GettingBusy(s0, true);
    trace, actions := InHand(trace, actions);
    var s := trace[|actions|];
    for k := 0 to READ_CAPACITY
      invariant Run(trace, actions) && Patient(trace, actions) && trace[0] == s0
      invariant trace[|actions|] == s.(feed := s.feed.(pending := s.feed.pending - k, buffer := k))
    {
      trace, actions := Buffered(trace, actions);
    }
    trace, actions := Go(trace, actions, Client(Read));
    trace, actions := Go(trace, actions, Client(LockRead));
    trace, actions := Removing(trace, actions);
  }

  // ----- Sends on closed channels -----

  lemma NotCaughtNeverCaught(trace: seq<State>, actions: seq<Action>)
    requires Run(trace, actions) && Patient(trace, actions) && forall i: nat :: !Caught(trace[|actions|], i)
    ensures NeverCaught(trace)
  {
    forall m, i | 0 <= m < |trace| && 0 <= i
      ensures !Caught(trace[m], i)
    {
      if Caught(trace[m], i) {
        RunCaughtForever(trace, actions, m, |actions|, i);
      }
    }
  }

  /**
   Three messages in flight when the session is removed, and none of them needs the lock: no wait
   cycle is ever entered, but the feed is closed under the hands of the upstream goroutine.
   */
  lemma FeedClosedUnderHand(s0: State) returns (trace: seq<State>, actions: seq<Action>)
    requires Init(s0) && s0.feed.pending >= 3 && |s0.removers| >= 1
    ensures Run(trace, actions) && Patient(trace, actions) && trace[0] == s0 && NeverCaught(trace)
    ensures SendsOnClosed(trace[|actions|].feed) && !AllReturned(trace[|actions|])
  {
    trace, actions := GettingBusy(s0, false);
    trace, actions := InHand(trace, actions);
    trace, actions := Removing(trace, actions);
    trace, actions := Stopped(trace, actions);
    trace, actions := Closed(trace, actions);
    assert At(trace[|actions|], 0, RWaitExit);
    NotCaughtNeverCaught(trace, actions);
  }

  /** One message is enough when it has just been read: the buffer is closed before it is put there. */
  lemma BufferClosedUnderHand(s0: State) returns (trace: seq<State>, actions: seq<Action>)
    requires Init(s0) && s0.feed.pending >= 1 && |s0.removers| >= 1
    ensures Run(trace, actions) && Patient(trace, actions) && trace[0] == s0 && NeverCaught(trace)
    ensures SendsOnClosed(trace[|actions|].feed) && !AllReturned(trace[|actions|])
  {
    trace, actions := LoggedOn(s0);
    trace, actions := Go(trace, actions, Client(Read));
    trace, actions := Removing(trace, actions);
    trace, actions := Stopped(trace, actions);
    trace, actions := Go(trace, actions, Client(LockRead));
    assert At(trace[|actions|], 0, RStop(true));
    NotCaughtNeverCaught(trace, actions);
  }
}
