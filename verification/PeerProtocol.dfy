/**
 The lifecycle of one peer as a concurrent protocol over atomic steps. The participants are
 the listener goroutine (service/peer/peer.go, listen), the disconnect watcher
 (service/fix/fix.go, FromAdmin), any number of RemovePeer calls for the session
 (service/service.go), the service loop that consumes the inbound channel, and any number of
 other users of the service lock. They meet on the unbuffered channels `disconnect` and
 `inbound`, on the closing of `exit`, and on the lock; the listener and the remover meet the
 websocket client (`WebsocketFeed`) at its feed and in its shutdown.

 The listener sets `started` itself, some time after it was spawned. A removal that inspects
 the peer in between is called hasty; the results below say what holds of runs without one, and
 that every hasty removal can end in a send on a closed channel. So can every close under the
 hands of the websocket client, and nothing else. A send on a closed channel ends the process.

 Assumed: a session's Logon ends before its first removal begins, there is no re-logon under
 the same session, and Stop is not called.
 */
module PeerProtocol {
  import opened Wrappers
  import opened WebsocketFeed

  datatype Listener =
    | LIdle                    // not spawned
    | LSpawned                 // spawned, `started` not set yet
    | LSelect                  // waiting for a websocket message or a timeout
    | LSend(needsLock: bool)   // sending a message on inbound
    | LSignal                  // deferred: sending on disconnect
    | LCloseExit               // deferred: about to close exit
    | LDone

  datatype Watcher =
    | WWait                    // receiving on disconnect
    | WGot(dc: bool)           // received; wants the lock for FindPeer
    | WLook(dc: bool)          // holds the lock in FindPeer
    | WReport                  // about to send the logout
    | WDone

  datatype Remover =
    | RIdle
    | RWant                    // wants the lock
    | RHold                    // holds the lock, looks the peer up
    | RStop(waiter: bool)      // in Close: stopping the connection; one of its own still waits for the end of it
    | RFeed                    // in Close: about to close the feed
    | RWaitExit                // in Close: receiving on exit
    | RCloseDisc               // in Close: about to close disconnect
    | RDelete                  // about to delete the peer and unlock
    | RDone

  datatype Server =
    | SReady                   // receiving on inbound
    | SWant                    // handling a message, wants the lock for FindPeer
    | SLook                    // holds the lock in FindPeer
    | SHandle                  // handling a message without the lock

  datatype Lock = Free | ByRemover(i: nat) | ByServer | ByWatcher | ByOther

  datatype State = State(
    inMap: bool, lock: Lock, started: bool, feed: Feed, exitCloses: nat, discCloses: nat,
    listener: Listener, watcher: Watcher, removers: seq<Remover>, server: Server,
    foreign: nat, others: nat, logouts: nat)

  datatype Action =
    | Logon | Start | Client(step: FeedStep)
    | Receive(needsLock: bool) | ReceiveNil | Timeout | Deliver | Signal | CloseExit
    | WatchClosed | WatchLock | WatchUnlock | Report
    | Begin(i: nat) | RemoveLock(i: nat) | Inspect(i: nat)
    | StopConnection(i: nat) | StopTimeout(i: nat) | ReasonSeen(i: nat) | ConnectionStopped(i: nat) | FeedClose(i: nat)
    | ExitSeen(i: nat) | CloseDisconnect(i: nat) | Delete(i: nat)
    | ServeForeign(needsLock: bool) | ServeLock | ServeUnlock | ServeDone
    | OtherLock | OtherUnlock

  /** A peer was just added and its watcher spawned. */
  predicate Init(s: State) {
    && s.inMap && s.lock.Free? && !s.started && Fresh(s.feed)
    && s.exitCloses == 0 && s.discCloses == 0 && s.logouts == 0
    && s.listener.LIdle? && s.watcher.WWait? && s.server.SReady?
    && forall i :: 0 <= i < |s.removers| ==> s.removers[i].RIdle?
  }

  /** The listener sends, or is blocked sending, on the closed disconnect channel. */
  predicate SignalsOnClosed(s: State) {
    s.listener.LSignal? && s.discCloses > 0
  }

  /** The process goes on. */
  predicate Alive(s: State) {
    !SignalsOnClosed(s) && !SendsOnClosed(s.feed)
  }

  predicate At(s: State, i: nat, p: Remover) {
    i < |s.removers| && s.removers[i] == p
  }

  predicate Enabled(s: State, a: Action) {
    && Alive(s)
    && match a
       case Logon => s.listener.LIdle? && Can(s.feed, Connect) && forall i :: 0 <= i < |s.removers| ==> s.removers[i].RIdle?
       case Start => s.listener.LSpawned?
       case Client(step) => Own(step) && Can(s.feed, step)
       case Receive(_) => s.listener.LSelect? && Can(s.feed, HandOver)
       case ReceiveNil => s.listener.LSelect? && s.feed.closed
       case Timeout => s.listener.LSelect? && !s.feed.connected
       case Deliver => s.listener.LSend? && s.server.SReady?
       case Signal => s.listener.LSignal? && s.watcher.WWait? && s.discCloses == 0
       case CloseExit => s.listener.LCloseExit?
       case WatchClosed => s.watcher.WWait? && s.discCloses > 0
       case WatchLock => s.watcher.WGot? && s.lock.Free?
       case WatchUnlock => s.watcher.WLook?
       case Report => s.watcher.WReport?
       case Begin(i) => At(s, i, RIdle)
       case RemoveLock(i) => At(s, i, RWant) && s.lock.Free?
       case Inspect(i) => At(s, i, RHold)
       case StopConnection(i) => Stops(s, i) && Can(s.feed, BeginStop(false))
       case StopTimeout(i) => At(s, i, RStop(true))
       case ReasonSeen(i) => At(s, i, RStop(true)) && Can(s.feed, HandReason(TheCloser))
       case ConnectionStopped(i) => Stops(s, i) && s.feed.wire.Down?
       case FeedClose(i) => At(s, i, RFeed)
       case ExitSeen(i) => At(s, i, RWaitExit) && s.exitCloses > 0
       case CloseDisconnect(i) => At(s, i, RCloseDisc)
       case Delete(i) => At(s, i, RDelete)
       case ServeForeign(_) => s.server.SReady? && s.foreign > 0
       case ServeLock => s.server.SWant? && s.lock.Free?
       case ServeUnlock => s.server.SLook?
       case ServeDone => s.server.SHandle?
       case OtherLock => s.others > 0 && s.lock.Free?
       case OtherUnlock => s.lock.ByOther?
  }

  predicate Stops(s: State, i: nat) {
    i < |s.removers| && s.removers[i].RStop?
  }

  function Move(s: State, i: nat, p: Remover): (r: State)
    requires i < |s.removers|
  {
    s.(removers := s.removers[i := p])
  }

  function Handling(needsLock: bool): (p: Server) {
    if needsLock then SWant else SHandle
  }

  function Next(s: State, a: Action): (r: State)
    requires Enabled(s, a)
  {
    match a
    case Logon => s.(listener := LSpawned, feed := After(s.feed, Connect))
    case Start => s.(listener := LSelect, started := true)
    case Client(step) => s.(feed := After(s.feed, step))
    case Receive(needsLock) => s.(listener := LSend(needsLock), feed := After(s.feed, HandOver))
    case ReceiveNil => s.(listener := LSignal)
    case Timeout => s.(listener := LSignal)
    case Deliver => s.(listener := LSelect, server := Handling(s.listener.needsLock))
    case Signal => s.(listener := LCloseExit, watcher := WGot(true))
    case CloseExit => s.(listener := LDone, exitCloses := s.exitCloses + 1)
    case WatchClosed => s.(watcher := WGot(false))
    case WatchLock => s.(watcher := WLook(s.watcher.dc), lock := ByWatcher)
    case WatchUnlock => s.(watcher := if s.watcher.dc && s.inMap then WReport else WDone, lock := Free)
    case Report => s.(watcher := WDone, logouts := s.logouts + 1)
    case Begin(i) => Move(s, i, RWant)
    case RemoveLock(i) => Move(s, i, RHold).(lock := ByRemover(i))
    case Inspect(i) =>
      if !s.inMap then Move(s, i, RDone).(lock := Free)
      else if !s.started then Move(s, i, RCloseDisc)
      else if s.feed.connected then Move(s, i, RStop(true)).(feed := After(s.feed, Drop))
      else Move(s, i, RFeed)
    case StopConnection(i) => s.(feed := After(s.feed, BeginStop(false)))
    case StopTimeout(i) => Move(s, i, RStop(false))
    case ReasonSeen(i) => s.(feed := After(s.feed, HandReason(TheCloser)))
    case ConnectionStopped(i) => Move(s, i, RFeed)
    case FeedClose(i) => Move(s, i, RWaitExit).(feed := After(s.feed, CloseFeed))
    case ExitSeen(i) => Move(s, i, RCloseDisc)
    case CloseDisconnect(i) => Move(s, i, RDelete).(discCloses := s.discCloses + 1)
    case Delete(i) => Move(s, i, RDone).(inMap := false, lock := Free)
    case ServeForeign(needsLock) => s.(server := Handling(needsLock), foreign := s.foreign - 1)
    case ServeLock => s.(server := SLook, lock := ByServer)
    case ServeUnlock => s.(server := SHandle, lock := Free)
    case ServeDone => s.(server := SReady)
    case OtherLock => s.(lock := ByOther, others := s.others - 1)
    case OtherUnlock => s.(lock := Free)
  }

  /** A removal takes a spawned listener for one that does not exist. */
  predicate Hasty(s: State, a: Action) {
    a.Inspect? && s.inMap && s.listener.LSpawned?
  }

  // ----- The invariant -----

  predicate Critical(p: Remover) {
    !p.RIdle? && !p.RWant? && !p.RDone?
  }

  predicate LockOk(s: State) {
    && (s.lock.ByWatcher? <==> s.watcher.WLook?)
    && (s.lock.ByServer? <==> s.server.SLook?)
    && (s.lock.ByRemover? ==> s.lock.i < |s.removers|)
    && forall i :: 0 <= i < |s.removers| ==> (Critical(s.removers[i]) <==> s.lock == ByRemover(i))
  }

  /** What a remover's program point says about the rest. */
  predicate PointOk(s: State, p: Remover) {
    match p
    case RStop(_) => s.inMap && s.started && !s.feed.closed
    case RFeed => s.inMap && s.started && !s.feed.closed
    case RWaitExit => s.inMap && s.started && s.feed.closed
    case RCloseDisc => s.inMap && (s.listener.LIdle? || s.listener.LDone?)
    case RDelete => s.inMap && s.discCloses == 1
    case RDone => !s.inMap
    case _ => true
  }

  predicate RemoversOk(s: State) {
    forall i :: 0 <= i < |s.removers| ==> PointOk(s, s.removers[i])
  }

  predicate SomeDone(removers: seq<Remover>) {
    exists i :: 0 <= i < |removers| && removers[i].RDone?
  }

  /** The channel disconnect is closed by the remover about to delete the peer, or deleted it. */
  predicate DisconnectOk(s: State) {
    && s.discCloses <= 1
    && (s.inMap && s.discCloses == 1 ==> s.lock.ByRemover? && At(s, s.lock.i, RDelete))
    && (!s.inMap ==> s.discCloses == 1 && SomeDone(s.removers))
    && (s.discCloses == 1 ==> s.listener.LIdle? || s.listener.LDone?)
  }

  /** The feed is closed by a remover that goes on to delete the peer. */
  predicate ClosedOk(s: State) {
    s.inMap && s.feed.closed ==>
      && s.lock.ByRemover? && s.lock.i < |s.removers|
      && (At(s, s.lock.i, RWaitExit) || At(s, s.lock.i, RCloseDisc) || At(s, s.lock.i, RDelete))
  }

  predicate FeedOk(s: State) {
    FeedInv(s.feed) && (s.feed.upstream.UIdle? <==> s.listener.LIdle?)
  }

  predicate ListenerOk(s: State) {
    && (s.started <==> !s.listener.LIdle? && !s.listener.LSpawned?)
    && s.exitCloses == (if s.listener.LDone? then 1 else 0)
  }

  predicate WatcherOk(s: State) {
    && (s.listener.LSpawned? || s.listener.LSelect? || s.listener.LSend? || s.listener.LSignal? ==> s.watcher.WWait?)
    && (s.listener.LIdle? && s.discCloses == 0 ==> s.watcher.WWait?)
    && (s.listener.LCloseExit? || s.listener.LDone? ==> !s.watcher.WWait?)
    && (s.watcher.WReport? ==> s.started)
    && s.logouts <= 1
    && (s.logouts == 1 ==> s.watcher.WDone?)
  }

  predicate Inv(s: State) {
    LockOk(s) && RemoversOk(s) && DisconnectOk(s) && ClosedOk(s) && FeedOk(s) && ListenerOk(s) && WatcherOk(s)
  }

  lemma InitInv(s: State)
    requires Init(s)
    ensures Inv(s)
  {
  }

  predicate ByARemover(a: Action) {
    || a.Begin? || a.RemoveLock? || a.Inspect? || a.ExitSeen? || a.CloseDisconnect? || a.Delete?
    || a.StopConnection? || a.StopTimeout? || a.ReasonSeen? || a.ConnectionStopped? || a.FeedClose?
  }

  /** Only the remover holding the lock is past its lookup. */
  lemma HolderAlone(s: State, i: nat, j: nat)
    requires LockOk(s) && i < |s.removers| && j < |s.removers|
    requires Critical(s.removers[i]) && Critical(s.removers[j])
    ensures i == j
  {
  }

  lemma RemoverStepLock(s: State, a: Action)
    requires LockOk(s) && Enabled(s, a) && ByARemover(a)
    ensures LockOk(Next(s, a))
  {
    var s' := Next(s, a);
    assert Critical(s.removers[a.i]) <==> s.lock == ByRemover(a.i);
    assert Critical(s'.removers[a.i]) <==> s'.lock == ByRemover(a.i);
    forall j | 0 <= j < |s.removers| && j != a.i
      ensures Critical(s'.removers[j]) <==> s'.lock == ByRemover(j)
    {
      assert s'.removers[j] == s.removers[j];
      assert Critical(s.removers[j]) <==> s.lock == ByRemover(j);
    }
  }

  lemma RemoverStepOwnPoint(s: State, a: Action)
    requires Inv(s) && Enabled(s, a) && ByARemover(a) && !Hasty(s, a)
    ensures PointOk(Next(s, a), Next(s, a).removers[a.i])
  {
    assert PointOk(s, s.removers[a.i]);
    assert Critical(s.removers[a.i]) <==> s.lock == ByRemover(a.i);
  }

  /** A step of one remover changes nothing the others rely on. */
  lemma RemoverStepOtherPoint(s: State, a: Action, j: nat)
    requires LockOk(s) && Enabled(s, a) && ByARemover(a)
    requires j < |s.removers| && j != a.i && PointOk(s, s.removers[j])
    ensures Next(s, a).removers[j] == s.removers[j] && PointOk(Next(s, a), s.removers[j])
  {
    assert Critical(s.removers[j]) <==> s.lock == ByRemover(j);
    assert Critical(s.removers[a.i]) <==> s.lock == ByRemover(a.i);
    assert Next(s, a).inMap ==> s.inMap;
    assert !Critical(s.removers[a.i]) ==> a.Begin? || a.RemoveLock?;
  }

  lemma RemoverStepPoints(s: State, a: Action)
    requires Inv(s) && Enabled(s, a) && ByARemover(a) && !Hasty(s, a)
    ensures RemoversOk(Next(s, a))
  {
    RemoverStepOwnPoint(s, a);
    forall j | 0 <= j < |s.removers| && j != a.i
      ensures PointOk(Next(s, a), Next(s, a).removers[j])
    {
      RemoverStepOtherPoint(s, a, j);
    }
  }

  lemma RemoverStepDisconnect(s: State, a: Action)
    requires Inv(s) && Enabled(s, a) && ByARemover(a) && !Hasty(s, a)
    ensures DisconnectOk(Next(s, a))
  {
    var s' := Next(s, a);
    assert PointOk(s, s.removers[a.i]);
    assert Critical(s.removers[a.i]) <==> s.lock == ByRemover(a.i);
    if !s'.inMap {
      if s.inMap {
        assert s'.removers[a.i].RDone?;
      } else {
        var i :| 0 <= i < |s.removers| && s.removers[i].RDone?;
        assert s'.removers[i].RDone?;
      }
    }
  }

  lemma RemoverStepThreads(s: State, a: Action)
    requires Inv(s) && Enabled(s, a) && ByARemover(a) && !Hasty(s, a)
    ensures ListenerOk(Next(s, a)) && WatcherOk(Next(s, a))
  {
    var s' := Next(s, a);
    assert s'.listener == s.listener && s'.watcher == s.watcher && s'.started == s.started && s'.logouts == s.logouts;
    assert s'.discCloses >= s.discCloses;
  }

  lemma RemoverStepClosed(s: State, a: Action)
    requires Inv(s) && Enabled(s, a) && ByARemover(a) && !Hasty(s, a)
    ensures ClosedOk(Next(s, a))
  {
    assert Critical(s.removers[a.i]) <==> s.lock == ByRemover(a.i);
  }

  lemma OtherStepClosed(s: State, a: Action)
    requires Inv(s) && Enabled(s, a) && !ByARemover(a)
    ensures ClosedOk(Next(s, a))
  {
    var s' := Next(s, a);
    assert s'.removers == s.removers && s'.inMap == s.inMap && s'.feed.closed == s.feed.closed;
    assert s.lock.ByRemover? ==> s'.lock == s.lock;
  }

  /** What a step does to the websocket client. */
  function FeedStepOf(s: State, a: Action): (r: Option<FeedStep>) {
    match a
    case Logon => Some(Connect)
    case Client(step) => Some(step)
    case Receive(_) => Some(HandOver)
    case Inspect(_) => if s.inMap && s.started && s.feed.connected then Some(Drop) else None
    case StopConnection(_) => Some(BeginStop(false))
    case ReasonSeen(_) => Some(HandReason(TheCloser))
    case FeedClose(_) => Some(CloseFeed)
    case _ => None
  }

  lemma FeedFollows(s: State, a: Action)
    requires Enabled(s, a)
    ensures match FeedStepOf(s, a)
      case None => Next(s, a).feed == s.feed
      case Some(step) => Can(s.feed, step) && Next(s, a).feed == After(s.feed, step)
  {
  }

  lemma AnyStepFeed(s: State, a: Action)
    requires FeedOk(s) && Enabled(s, a)
    ensures FeedOk(Next(s, a))
  {
    FeedFollows(s, a);
    var step := FeedStepOf(s, a);
    if step.Some? {
      StepFeedInv(s.feed, step.value);
    }
  }

  lemma OtherStepLock(s: State, a: Action)
    requires LockOk(s) && Enabled(s, a) && !ByARemover(a)
    ensures LockOk(Next(s, a))
  {
    var s' := Next(s, a);
    assert s'.removers == s.removers;
    forall j | 0 <= j < |s.removers|
      ensures Critical(s'.removers[j]) <==> s'.lock == ByRemover(j)
    {
      assert Critical(s.removers[j]) <==> s.lock == ByRemover(j);
    }
  }

  lemma OtherStepPoints(s: State, a: Action)
    requires Inv(s) && Enabled(s, a) && !ByARemover(a)
    ensures RemoversOk(Next(s, a))
  {
    var s' := Next(s, a);
    assert s'.removers == s.removers && s'.inMap == s.inMap;
    forall j | 0 <= j < |s.removers|
      ensures PointOk(s', s.removers[j])
    {
      assert PointOk(s, s.removers[j]);
    }
  }

  lemma OtherStepDisconnect(s: State, a: Action)
    requires Inv(s) && Enabled(s, a) && !ByARemover(a)
    ensures DisconnectOk(Next(s, a))
  {
    var s' := Next(s, a);
    assert s'.removers == s.removers && s'.inMap == s.inMap && s'.discCloses == s.discCloses;
    if s.discCloses == 1 {
      SomeBegun(s);
      assert s'.listener.LIdle? || s'.listener.LDone?;
      assert s.lock.ByRemover? ==> s'.lock == s.lock;
    }
  }

  /** Once disconnect is closed, some removal has begun. */
  lemma SomeBegun(s: State)
    requires DisconnectOk(s) && s.discCloses == 1
    ensures exists i :: 0 <= i < |s.removers| && !s.removers[i].RIdle?
  {
    if !s.inMap {
      var i :| 0 <= i < |s.removers| && s.removers[i].RDone?;
    }
  }

  lemma OtherStepThreads(s: State, a: Action)
    requires Inv(s) && Enabled(s, a) && !ByARemover(a)
    ensures ListenerOk(Next(s, a)) && WatcherOk(Next(s, a))
  {
    if a.Logon? && s.discCloses == 1 {
      SomeBegun(s);
      assert false;
    }
  }

  lemma StepInv(s: State, a: Action)
    requires Inv(s) && Enabled(s, a) && !Hasty(s, a)
    ensures Inv(Next(s, a))
  {
    AnyStepFeed(s, a);
    if ByARemover(a) {
      RemoverStepLock(s, a);
      RemoverStepPoints(s, a);
      RemoverStepDisconnect(s, a);
      RemoverStepThreads(s, a);
      RemoverStepClosed(s, a);
    } else {
      OtherStepClosed(s, a);
      OtherStepLock(s, a);
      OtherStepPoints(s, a);
      OtherStepDisconnect(s, a);
      OtherStepThreads(s, a);
    }
  }

  ghost predicate Run(trace: seq<State>, actions: seq<Action>) {
    && |trace| == |actions| + 1
    && Init(trace[0])
    && forall i :: 0 <= i < |actions| ==> StepAt(trace, actions, i)
  }

  ghost predicate StepAt(trace: seq<State>, actions: seq<Action>, i: nat)
    requires i < |actions| < |trace|
  {
    Enabled(trace[i], actions[i]) && trace[i + 1] == Next(trace[i], actions[i])
  }

  ghost predicate Patient(trace: seq<State>, actions: seq<Action>)
    requires |trace| > |actions|
  {
    forall i :: 0 <= i < |actions| ==> !Hasty(trace[i], actions[i])
  }

  lemma RunStepInv(trace: seq<State>, actions: seq<Action>, i: nat)
    requires Run(trace, actions) && Patient(trace, actions) && i < |actions| && Inv(trace[i])
    ensures Inv(trace[i + 1])
  {
    assert StepAt(trace, actions, i);
    StepInv(trace[i], actions[i]);
  }

  lemma {:induction false} RunInv(trace: seq<State>, actions: seq<Action>, n: nat)
    requires Run(trace, actions) && Patient(trace, actions) && n <= |actions|
    ensures Inv(trace[n])
  {
    if n == 0 {
      InitInv(trace[0]);
    } else {
      RunInv(trace, actions, n - 1);
      RunStepInv(trace, actions, n - 1);
    }
  }

  // ----- Safety -----

  /**
   Over all interleavings without a hasty removal: each channel is closed at most once, nobody sends on a closed
   disconnect channel, not even from a blocked send, and disconnect of a started peer is closed
   only after exit.
   */
  lemma ChannelSafety(trace: seq<State>, actions: seq<Action>, n: nat)
    requires Run(trace, actions) && Patient(trace, actions) && n <= |actions|
    ensures trace[n].exitCloses <= 1 && trace[n].discCloses <= 1
    ensures trace[n].listener.LSignal? ==> trace[n].discCloses == 0
    ensures trace[n].started && trace[n].discCloses == 1 ==> trace[n].exitCloses == 1
    ensures !trace[n].inMap ==> trace[n].discCloses == 1
  {
    RunInv(trace, actions, n);
  }

  lemma RunSnoc(trace: seq<State>, actions: seq<Action>, s: State, a: Action)
    requires Run(trace, actions) && s == trace[|actions|] && Enabled(s, a)
    ensures Run(trace + [Next(s, a)], actions + [a])
  {
    var trace', actions' := trace + [Next(s, a)], actions + [a];
    forall i | 0 <= i < |actions'|
      ensures StepAt(trace', actions', i)
    {
      assert i < |actions| ==> StepAt(trace, actions, i);
    }
  }

  /** The listener has not set `started` yet. */
  predicate NotYetStarted(s: State) {
    s.listener.LIdle? || s.listener.LSpawned? ==> !s.started
  }

  lemma StepNotYetStarted(s: State, a: Action)
    requires Enabled(s, a) && NotYetStarted(s)
    ensures NotYetStarted(Next(s, a))
  {
  }

  lemma {:induction false} SpawnedNotStarted(trace: seq<State>, actions: seq<Action>, n: nat)
    requires Run(trace, actions) && n <= |actions|
    ensures NotYetStarted(trace[n])
  {
    if n > 0 {
      SpawnedNotStarted(trace, actions, n - 1);
      assert StepAt(trace, actions, n - 1);
      StepNotYetStarted(trace[n - 1], actions[n - 1]);
    }
  }

  /**
   Patience is needed exactly: every run that ends with a hasty removal can go on to a state in
   which the listener sends on the closed disconnect channel.
   */
  lemma HastyRemovalPanics(trace: seq<State>, actions: seq<Action>, a: Action)
    returns (trace': seq<State>, actions': seq<Action>)
    requires Run(trace, actions) && Enabled(trace[|actions|], a) && Hasty(trace[|actions|], a)
    ensures Run(trace', actions') && actions + [a] <= actions' && trace <= trace'
    ensures SignalsOnClosed(trace'[|actions'|])
  {
    var s := trace[|actions|];
    SpawnedNotStarted(trace, actions, |actions|);
    RunSnoc(trace, actions, s, a);
    trace', actions' := trace + [Next(s, a)], actions + [a];
    var rest := [CloseDisconnect(a.i), Start] + (if s.feed.connected then [Client(Drop), Timeout] else [Timeout]);
    for k := 0 to |rest|
      invariant Run(trace', actions') && actions + [a] <= actions' && trace <= trace'
      invariant var t := trace'[|actions'|];
        && a.i < |t.removers|
        && (k == 0 ==> t.removers[a.i].RCloseDisc?)
        && (k >= 1 ==> t.discCloses > 0)
        && t.listener == (if k < 2 then LSpawned else if k < |rest| then LSelect else LSignal)
        && t.feed == s.feed.(connected := s.feed.connected && k < 3)
    {
      var t := trace'[|actions'|];
      RunSnoc(trace', actions', t, rest[k]);
      trace', actions' := trace' + [Next(t, rest[k])], actions' + [rest[k]];
    }
  }

  // ----- Closes under the hands of the websocket client -----

  /** The step closes the feed under messages read ahead, or the read buffer under a message just read. */
  predicate FatalStep(s: State, a: Action) {
    FeedStepOf(s, a).Some? && Fatal(s.feed, FeedStepOf(s, a).value)
  }

  ghost predicate Careful(trace: seq<State>, actions: seq<Action>)
    requires |trace| > |actions|
  {
    forall i :: 0 <= i < |actions| ==> !FatalStep(trace[i], actions[i])
  }

  lemma LogonFindsOpen(s: State)
    requires Inv(s) && Enabled(s, Logon)
    ensures !s.feed.closed
  {
    if s.feed.closed && !s.inMap {
      SomeBegun(s);
    }
  }

  lemma AnyStepSound(s: State, a: Action)
    requires Inv(s) && Enabled(s, a) && Sound(s.feed) && !FatalStep(s, a)
    ensures Sound(Next(s, a).feed)
  {
    FeedFollows(s, a);
    var step := FeedStepOf(s, a);
    if step.Some? {
      if a.Logon? {
        LogonFindsOpen(s);
      }
      assert step.value.Connect? ==> a.Logon?;
      StepSound(s.feed, step.value);
    }
  }

  lemma {:induction false} RunSound(trace: seq<State>, actions: seq<Action>, n: nat)
    requires Run(trace, actions) && Patient(trace, actions) && Careful(trace, actions) && n <= |actions|
    ensures Sound(trace[n].feed)
  {
    if n > 0 {
      RunSound(trace, actions, n - 1);
      RunInv(trace, actions, n - 1);
      assert StepAt(trace, actions, n - 1);
      AnyStepSound(trace[n - 1], actions[n - 1]);
    }
  }

  /** Over all interleavings without a hasty removal and without a fatal close, nobody sends on any closed channel. */
  lemma AliveWhenCareful(trace: seq<State>, actions: seq<Action>, n: nat)
    requires Run(trace, actions) && Patient(trace, actions) && Careful(trace, actions) && n <= |actions|
    ensures Alive(trace[n])
  {
    RunSound(trace, actions, n);
    SoundIsQuiet(trace[n].feed);
    ChannelSafety(trace, actions, n);
  }

  lemma {:induction false} RunFeedOk(trace: seq<State>, actions: seq<Action>, n: nat)
    requires Run(trace, actions) && n <= |actions|
    ensures FeedOk(trace[n])
  {
    if n > 0 {
      RunFeedOk(trace, actions, n - 1);
      assert StepAt(trace, actions, n - 1);
      AnyStepFeed(trace[n - 1], actions[n - 1]);
    }
  }

  /** Once doomed, the websocket client can go on by itself to the send on a closed channel. */
  lemma {:induction false} DoomedCanCrash(trace: seq<State>, actions: seq<Action>)
    returns (trace': seq<State>, actions': seq<Action>)
    requires Run(trace, actions) && Doomed(trace[|actions|].feed) && !SignalsOnClosed(trace[|actions|])
    ensures Run(trace', actions') && actions <= actions' && trace <= trace'
    ensures SendsOnClosed(trace'[|actions'|].feed)
    decreases StepsToDoom(trace[|actions|].feed)
  {
    var s := trace[|actions|];
    trace', actions' := trace, actions;
    if !SendsOnClosed(s.feed) {
      DoomAdvances(s.feed);
      var a := Client(Doom(s.feed));
      RunSnoc(trace, actions, s, a);
      trace', actions' := trace + [Next(s, a)], actions + [a];
      if !SendsOnClosed(Next(s, a).feed) {
        trace', actions' := DoomedCanCrash(trace', actions');
      }
    }
  }

  /**
   Care is needed exactly: every run that ends with a fatal close can go on to a state in which
   the websocket client sends on the channel closed.
   */
  lemma FatalStepCrashes(trace: seq<State>, actions: seq<Action>, a: Action)
    returns (trace': seq<State>, actions': seq<Action>)
    requires Run(trace, actions) && Enabled(trace[|actions|], a) && FatalStep(trace[|actions|], a)
    ensures Run(trace', actions') && actions + [a] <= actions' && trace <= trace'
    ensures SendsOnClosed(trace'[|actions'|].feed)
  {
    var s := trace[|actions|];
    RunFeedOk(trace, actions, |actions|);
    FeedFollows(s, a);
    FatalDooms(s.feed, FeedStepOf(s, a).value);
    RunSnoc(trace, actions, s, a);
    trace', actions' := DoomedCanCrash(trace + [Next(s, a)], actions + [a]);
  }

  /** The lock is exclusive: at most one RemovePeer is past its acquisition at a time. */
  lemma OneRemoverAtATime(trace: seq<State>, actions: seq<Action>, n: nat, i: nat, j: nat)
    requires Run(trace, actions) && Patient(trace, actions) && n <= |actions|
    requires i < |trace[n].removers| && j < |trace[n].removers|
    requires Critical(trace[n].removers[i]) && Critical(trace[n].removers[j])
    ensures i == j
  {
    RunInv(trace, actions, n);
    HolderAlone(trace[n], i, j);
  }

  /** No RemovePeer call is past its acquisition of the lock. */
  predicate NobodyRemoves(s: State) {
    forall j :: 0 <= j < |s.removers| ==> !Critical(s.removers[j])
  }

  /** Some remover, the service loop, the watcher or another user asks for the lock and gets it. */
  predicate Locks(a: Action) {
    a.RemoveLock? || a.ServeLock? || a.WatchLock? || a.OtherLock?
  }

  /**
   The lock is taken from nobody and only passes from holder to holder by being free in between; a
   lookup of the service loop, of the watcher or of another user happens under it, with no removal
   past its own acquisition.
   */
  lemma LookupsExcludeRemovals(trace: seq<State>, actions: seq<Action>, i: nat)
    requires Run(trace, actions) && Patient(trace, actions) && i < |actions|
    ensures trace[i].lock == trace[i + 1].lock || (trace[i].lock.Free? != trace[i + 1].lock.Free?)
    ensures Locks(actions[i]) <==> trace[i].lock.Free? && !trace[i + 1].lock.Free?
    ensures actions[i].ServeLock? || actions[i].WatchLock? || actions[i].OtherLock? ==> NobodyRemoves(trace[i + 1])
    ensures trace[i].server.SWant? && !trace[i + 1].server.SWant? ==> trace[i + 1].lock.ByServer? && trace[i + 1].server.SLook?
  {
    RunInv(trace, actions, i);
    RunInv(trace, actions, i + 1);
    assert StepAt(trace, actions, i);
    LockStep(trace[i], actions[i]);
    var t := trace[i + 1];
    if actions[i].ServeLock? || actions[i].WatchLock? || actions[i].OtherLock? {
      forall j | 0 <= j < |t.removers|
        ensures !Critical(t.removers[j])
      {
        assert Critical(t.removers[j]) <==> t.lock == ByRemover(j);
      }
    }
  }

  /** The lock is left alone, taken while it is free, or set free. */
  predicate LockMoves(s: State, a: Action, t: State) {
    && (s.lock == t.lock || (s.lock.Free? != t.lock.Free?))
    && (Locks(a) <==> s.lock.Free? && !t.lock.Free?)
    && (a.ServeLock? ==> t.lock.ByServer?) && (a.WatchLock? ==> t.lock.ByWatcher?) && (a.OtherLock? ==> t.lock.ByOther?)
    && (s.server.SWant? && !t.server.SWant? ==> t.lock.ByServer? && t.server.SLook?)
  }

  lemma LockStep(s: State, a: Action)
    requires Inv(s) && Enabled(s, a)
    ensures LockMoves(s, a, Next(s, a))
  {
    if ByARemover(a) {
      RemoverMovesLock(s, a);
    } else {
      OtherMovesLock(s, a);
    }
  }

  lemma RemoverMovesLock(s: State, a: Action)
    requires LockOk(s) && Enabled(s, a) && ByARemover(a)
    ensures LockMoves(s, a, Next(s, a))
  {
    assert Critical(s.removers[a.i]) <==> s.lock == ByRemover(a.i);
    assert Next(s, a).server == s.server;
  }

  lemma OtherMovesLock(s: State, a: Action)
    requires LockOk(s) && Enabled(s, a) && !ByARemover(a)
    ensures LockMoves(s, a, Next(s, a))
  {
  }

  // ----- Logouts -----

  /** A removal came first, and the watcher has not found the peer. */
  predicate Quiet(s: State) {
    && s.logouts == 0
    && !s.watcher.WReport?
    && (s.watcher.WDone? || !s.inMap || s.lock.ByRemover?)
  }

  lemma RemoverStepQuiet(s: State, a: Action)
    requires Inv(s) && Enabled(s, a) && ByARemover(a) && Quiet(s)
    ensures Quiet(Next(s, a))
  {
    assert PointOk(s, s.removers[a.i]);
    assert Critical(s.removers[a.i]) <==> s.lock == ByRemover(a.i);
  }

  lemma OtherStepQuiet(s: State, a: Action)
    requires LockOk(s) && WatcherOk(s) && Enabled(s, a) && !ByARemover(a) && Quiet(s)
    ensures Quiet(Next(s, a))
  {
  }

  lemma StepQuiet(s: State, a: Action)
    requires Inv(s) && Enabled(s, a) && Quiet(s)
    ensures Quiet(Next(s, a))
  {
    if ByARemover(a) {
      RemoverStepQuiet(s, a);
    } else {
      OtherStepQuiet(s, a);
    }
  }

  lemma {:induction false} RunQuiet(trace: seq<State>, actions: seq<Action>, m: nat, n: nat)
    requires Run(trace, actions) && Patient(trace, actions) && m <= n <= |actions| && Quiet(trace[m])
    ensures Quiet(trace[n])
  {
    if m < n {
      RunQuiet(trace, actions, m, n - 1);
      RunInv(trace, actions, n - 1);
      assert StepAt(trace, actions, n - 1);
      StepQuiet(trace[n - 1], actions[n - 1]);
    }
  }

  /** Remover i has had the lock, and the watcher has not looked for the peer yet. */
  predicate RemoverFirst(s: State, i: nat) {
    && i < |s.removers| && !s.removers[i].RIdle? && !s.removers[i].RWant?
    && (s.watcher.WWait? || s.watcher.WGot?)
  }

  /**
   The watcher reports a downstream disconnect at most once, and never when some RemovePeer
   acquired the lock before the watcher's FindPeer did.
   */
  lemma NoSpuriousLogout(trace: seq<State>, actions: seq<Action>, m: nat, n: nat, i: nat)
    requires Run(trace, actions) && Patient(trace, actions) && m <= n <= |actions|
    ensures trace[n].logouts <= 1
    ensures RemoverFirst(trace[m], i) ==> trace[n].logouts == 0
  {
    RunInv(trace, actions, n);
    RunInv(trace, actions, m);
    var s := trace[m];
    if RemoverFirst(s, i) {
      assert PointOk(s, s.removers[i]);
      assert Critical(s.removers[i]) <==> s.lock == ByRemover(i);
      RunQuiet(trace, actions, m, n);
    }
  }
}
