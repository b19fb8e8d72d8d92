/**
 The logout of a FIX session whose venue connection is lost: over every run that has come to rest
 it is sent exactly when it is due, and a run in which it is sent.
 */
module PeerLogout {
  import opened WebsocketFeed
  import opened PeerProtocol
  import opened PeerProgress
  import PeerScenarios

  /** The listener has signalled its end on the disconnect channel. */
  ghost predicate Signalled(actions: seq<Action>, n: nat)
    requires n <= |actions|
  {
    exists i :: 0 <= i < n && actions[i].Signal?
  }

  /** At some point the watcher had the lock. */
  ghost predicate Looked(trace: seq<State>, n: nat)
    requires n < |trace|
  {
    exists i :: 0 <= i <= n && trace[i].lock.ByWatcher?
  }

  /** At some point the watcher had the lock while the peer was still in the map. */
  ghost predicate Found(trace: seq<State>, n: nat)
    requires n < |trace|
  {
    exists i :: 0 <= i <= n && trace[i].lock.ByWatcher? && trace[i].inMap
  }

  /** What the watcher's program point tells of the past, and what it leads to. */
  predicate Remembers(s: State, signalled: bool, looked: bool, found: bool) {
    && (found ==> looked)
    && (s.watcher.WDone? || s.logouts == 0)
    && match s.watcher
       case WWait => !signalled && !looked
       case WGot(dc) => dc == signalled && !looked
       case WLook(dc) => dc == signalled && looked && found == s.inMap
       case WReport => signalled && found
       case WDone => looked && (s.logouts == 1 <==> signalled && found)
  }

  /** Nobody but a remover takes the peer out of the map. */
  lemma InMapKept(s: State, a: Action)
    requires LockOk(s) && Enabled(s, a) && !s.lock.ByRemover?
    ensures Next(s, a).inMap == s.inMap
  {
    assert forall i :: At(s, i, RDelete) ==> s.lock == ByRemover(i);
  }

  lemma OtherStepRemembers(s: State, a: Action, signalled: bool, looked: bool, found: bool)
    requires Inv(s) && Enabled(s, a) && Remembers(s, signalled, looked, found)
    requires Next(s, a).watcher == s.watcher && Next(s, a).logouts == s.logouts
    ensures !a.Signal?
    ensures var t := Next(s, a);
      Remembers(t, signalled, looked || t.lock.ByWatcher?, found || (t.lock.ByWatcher? && t.inMap))
  {
    var t := Next(s, a);
    if s.watcher.WLook? {
      InMapKept(s, a);
    } else {
      assert !t.lock.ByWatcher?;
    }
  }

  predicate ByTheWatcher(a: Action) {
    a.Signal? || a.WatchClosed? || a.WatchLock? || a.WatchUnlock? || a.Report?
  }

  lemma WatcherStepRemembers(s: State, a: Action, signalled: bool, looked: bool, found: bool)
    requires LockOk(s) && Enabled(s, a) && Remembers(s, signalled, looked, found) && ByTheWatcher(a)
    ensures var t := Next(s, a);
      Remembers(t, signalled || a.Signal?, looked || t.lock.ByWatcher?, found || (t.lock.ByWatcher? && t.inMap))
  {
    match a
    case Signal =>
    case WatchClosed =>
    case WatchLock =>
    case WatchUnlock =>
    case Report =>
  }

  lemma OtherStepKeepsWatcher(s: State, a: Action)
    requires Enabled(s, a) && !ByTheWatcher(a)
    ensures Next(s, a).watcher == s.watcher && Next(s, a).logouts == s.logouts
  {
  }

  lemma StepRemembers(s: State, a: Action, signalled: bool, looked: bool, found: bool)
    requires Inv(s) && Enabled(s, a) && Remembers(s, signalled, looked, found)
    ensures var t := Next(s, a);
      Remembers(t, signalled || a.Signal?, looked || t.lock.ByWatcher?, found || (t.lock.ByWatcher? && t.inMap))
  {
    if ByTheWatcher(a) {
      WatcherStepRemembers(s, a, signalled, looked, found);
    } else {
      OtherStepKeepsWatcher(s, a);
      OtherStepRemembers(s, a, signalled, looked, found);
    }
  }

  lemma {:induction false} RunRemembers(trace: seq<State>, actions: seq<Action>, n: nat)
    requires Run(trace, actions) && Patient(trace, actions) && n <= |actions|
    ensures Remembers(trace[n], Signalled(actions, n), Looked(trace, n), Found(trace, n))
  {
    if n > 0 {
      var m := n - 1;
      RunRemembers(trace, actions, m);
      RunInv(trace, actions, m);
      assert StepAt(trace, actions, m);
      StepRemembers(trace[m], actions[m], Signalled(actions, m), Looked(trace, m), Found(trace, m));
      assert trace[n] == trace[m + 1] == Next(trace[m], actions[m]);
      assert Signalled(actions, n) <==> Signalled(actions, m) || actions[m].Signal?;
      assert Looked(trace, n) <==> Looked(trace, m) || trace[n].lock.ByWatcher?;
      assert Found(trace, n) <==> Found(trace, m) || (trace[n].lock.ByWatcher? && trace[n].inMap);
    }
  }

  /** A watcher at rest still waits for word of the listener or for the lock, or is done. */
  lemma WatcherAtRest(s: State)
    requires Inv(s) && Alive(s) && AtRest(s)
    ensures s.watcher.WWait? || s.watcher.WDone? || (s.watcher.WGot? && s.lock.ByRemover?)
  {
    assert !Enabled(s, WatchLock) && !Enabled(s, WatchUnlock) && !Enabled(s, Report);
    assert !Enabled(s, ServeUnlock) && !Enabled(s, OtherUnlock);
  }

  /**
   For every run that has come to rest: the session has been logged out, once, exactly when the
   listener has signalled its end and the peer was in the map when the watcher had the lock.
   */
  lemma LogoutExactly(trace: seq<State>, actions: seq<Action>)
    requires Run(trace, actions) && Patient(trace, actions) && Alive(trace[|actions|]) && AtRest(trace[|actions|])
    ensures trace[|actions|].logouts == 1 <==> Signalled(actions, |actions|) && Found(trace, |actions|)
    ensures trace[|actions|].logouts <= 1
  {
    var last := |actions|;
    RunInv(trace, actions, last);
    RunRemembers(trace, actions, last);
    WatcherAtRest(trace[last]);
  }

  lemma {:induction false} UntouchedInMap(trace: seq<State>, actions: seq<Action>, n: nat)
    requires Run(trace, actions) && Patient(trace, actions) && n <= |actions|
    requires forall i :: 0 <= i < |trace| ==> !trace[i].lock.ByRemover?
    ensures trace[n].inMap
  {
    if n > 0 {
      UntouchedInMap(trace, actions, n - 1);
      RunInv(trace, actions, n - 1);
      assert StepAt(trace, actions, n - 1);
      InMapKept(trace[n - 1], actions[n - 1]);
    }
  }

  /**
   In particular, a peer whose listener has ended by itself, without any removal having got the
   lock, has had its session logged out by the time the gateway comes to rest.
   */
  lemma LostConnectionLogsOut(trace: seq<State>, actions: seq<Action>)
    requires Run(trace, actions) && Patient(trace, actions) && Alive(trace[|actions|]) && AtRest(trace[|actions|])
    requires trace[|actions|].listener.LDone?
    requires forall i :: 0 <= i < |trace| ==> !trace[i].lock.ByRemover?
    ensures trace[|actions|].logouts == 1
  {
    var last := |actions|;
    RunInv(trace, actions, last);
    RunRemembers(trace, actions, last);
    WatcherAtRest(trace[last]);
    assert Looked(trace, last);
    var i :| 0 <= i <= last && trace[i].lock.ByWatcher?;
    UntouchedInMap(trace, actions, i);
    DoneHasSignalled(trace, actions, last);
  }

  /** A listener past its loop has signalled, or is about to. */
  predicate Ended(s: State) {
    s.listener.LCloseExit? || s.listener.LDone?
  }

  lemma StepEnded(s: State, a: Action)
    requires Enabled(s, a) && Ended(Next(s, a)) && !Ended(s)
    ensures a.Signal?
  {
  }

  lemma {:induction false} DoneHasSignalled(trace: seq<State>, actions: seq<Action>, n: nat)
    requires Run(trace, actions) && n <= |actions| && Ended(trace[n])
    ensures Signalled(actions, n)
  {
    assert StepAt(trace, actions, n - 1);
    if Ended(trace[n - 1]) {
      DoneHasSignalled(trace, actions, n - 1);
    } else {
      StepEnded(trace[n - 1], actions[n - 1]);
    }
  }

  /** The connection is lost, the listener notices, and the session is logged out. */
  lemma ConnectionLost(s0: State) returns (trace: seq<State>, actions: seq<Action>)
    requires Init(s0)
    ensures actions == [Logon, Start, Client(Drop), Timeout, Signal, WatchLock, WatchUnlock, Report]
    ensures Run(trace, actions) && Patient(trace, actions) && trace[0] == s0
    ensures trace[|actions|].inMap && trace[|actions|].logouts == 1
  {
    trace, actions := PeerScenarios.LoggedOn(s0);
    trace, actions := Ending(s0, trace, actions);
    trace, actions := PeerScenarios.Go(trace, actions, WatchLock);
    trace, actions := PeerScenarios.Go(trace, actions, WatchUnlock);
    trace, actions := PeerScenarios.Go(trace, actions, Report);
  }

  lemma Ending(s0: State, trace: seq<State>, actions: seq<Action>) returns (trace': seq<State>, actions': seq<Action>)
    requires Run(trace, actions) && Patient(trace, actions) && Init(s0)
    requires trace[|actions|] == s0.(
      started := true, listener := LSelect, feed := s0.feed.(connected := true, reader := NRead, upstream := USelect))
    ensures actions' == actions + [Client(Drop), Timeout, Signal]
    ensures Run(trace', actions') && Patient(trace', actions') && trace'[0] == trace[0]
    ensures trace'[|actions'|] == s0.(
      started := true, listener := LCloseExit, watcher := WGot(true),
      feed := s0.feed.(connected := false, reader := NRead, upstream := USelect))
  {
    trace', actions' := PeerScenarios.Go(trace, actions, Client(Drop));
    trace', actions' := PeerScenarios.Go(trace', actions', Timeout);
    trace', actions' := PeerScenarios.Go(trace', actions', Signal);
  }
}
