/**
 The helper's accept loop and idle exit (internal/helper/server.go), one
 critical section at a time: the loop, a goroutine per connection, and the
 goroutine that reacts to cancellation interleave freely.
 */
module IdleExit {

  type ConnId = nat

  /** Where Serve's own goroutine is. */
  datatype Loop =
    | Accepting
    | Accepted(c: ConnId)
    | Tracked(c: ConnId)
    | CheckingIdle
    | ClearingDeadline
    | StoppingIdle
    | WaitingIdle
    | WaitingCancel
    | ReturnedIdle
    | ReturnedCancelled
    | ReturnedError

  /** Where a connection's goroutine is; Untracked remembers whether it must arm the deadline. */
  datatype Phase = Serving | CleanedUp | Untracked(arm: bool) | Armed | Finished

  datatype CancelPhase = NotCancelled | Cancelled | ListenerClosed | ConnsStopped

  datatype State = State(
    loop: Loop,
    conns: set<ConnId>,
    phases: map<ConnId, Phase>,
    closing: bool,
    deadline: bool,
    cancel: CancelPhase)

  /** Serve has armed the first idle window before it first accepts. */
  const STARTED := State(Accepting, {}, map[], false, true, NotCancelled)

  datatype Event =
    | NewConnection(c: ConnId, peerKnown: bool)
    | Track
    | Spawn
    | DeadlineExpires
    | AcceptFails
    | CheckIdle
    | ClearDeadline
    | StopConns
    | Return
    | Disconnects(c: ConnId)
    | Untrack(c: ConnId)
    | ArmDeadline(c: ConnId)
    | Finish(c: ConnId)
    | Cancel
    | CloseListener
    | CancelStopsConns

  predicate InPhase(s: State, c: ConnId, p: Phase) {
    c in s.phases && s.phases[c] == p
  }

  /** Goroutines the WaitGroup still counts. */
  predicate AllFinished(s: State) {
    forall c :: c in s.phases ==> s.phases[c] == Finished
  }

  /** One step; an event that cannot happen changes nothing. */
  function Step(s: State, e: Event): (r: State) {
    match e
    case NewConnection(c, peerKnown) =>
      if s.loop == Accepting && c !in s.phases && (s.cancel == NotCancelled || s.cancel == Cancelled)
      then s.(loop := if peerKnown then Accepted(c) else Accepting) else s
    case Track =>
      if s.loop.Accepted? then
        if s.closing then s.(loop := Accepting)
        else s.(conns := s.conns + {s.loop.c}, loop := Tracked(s.loop.c))
      else s
    case Spawn =>
      if s.loop.Tracked? then s.(phases := s.phases[s.loop.c := Serving], loop := Accepting) else s
    case DeadlineExpires =>
      if s.loop == Accepting && s.deadline
      then s.(loop := if s.cancel == NotCancelled then CheckingIdle else WaitingCancel) else s
    case AcceptFails =>
      if s.loop == Accepting
      then s.(loop := if s.cancel == NotCancelled then ReturnedError else WaitingCancel) else s
    case CheckIdle =>
      if s.loop == CheckingIdle then s.(loop := if s.conns == {} then StoppingIdle else ClearingDeadline) else s
    case ClearDeadline =>
      if s.loop == ClearingDeadline then s.(deadline := false, loop := Accepting) else s
    case StopConns =>
      if s.loop == StoppingIdle then s.(closing := true, loop := WaitingIdle) else s
    case Return =>
      if s.loop == WaitingIdle && AllFinished(s) then s.(loop := ReturnedIdle)
      else if s.loop == WaitingCancel && AllFinished(s) then s.(loop := ReturnedCancelled)
      else s
    case Disconnects(c) =>
      if InPhase(s, c, Serving) then s.(phases := s.phases[c := CleanedUp]) else s
    case Untrack(c) =>
      if InPhase(s, c, CleanedUp) then
        var left := s.conns - {c};
        s.(conns := left, phases := s.phases[c := Untracked(left == {})])
      else s
    case ArmDeadline(c) =>
      if InPhase(s, c, Untracked(true)) then s.(deadline := true, phases := s.phases[c := Armed])
      else if InPhase(s, c, Untracked(false)) then s.(phases := s.phases[c := Armed])
      else s
    case Finish(c) =>
      if InPhase(s, c, Armed) then s.(phases := s.phases[c := Finished]) else s
    case Cancel => if s.cancel == NotCancelled then s.(cancel := Cancelled) else s
    case CloseListener => if s.cancel == Cancelled then s.(cancel := ListenerClosed) else s
    case CancelStopsConns =>
      if s.cancel == ListenerClosed then s.(cancel := ConnsStopped, closing := true) else s
  }

  function Run(events: seq<Event>): (r: State) {
    if events == [] then STARTED else Step(Run(events[..|events| - 1]), events[|events| - 1])
  }

  // ------------------------------------------------------------------ safety

  predicate Stopped(l: Loop) {
    l.StoppingIdle? || l.WaitingIdle? || l.ReturnedIdle?
  }

  /** Tracked connections are exactly the ones still being served, and none exist once idle was decided. */
  ghost predicate Inv(s: State) {
    && (forall c :: c in s.conns <==>
          (c in s.phases && (s.phases[c].Serving? || s.phases[c].CleanedUp?)) || s.loop == Tracked(c))
    && (s.loop.Accepted? || s.loop.Tracked? ==> s.loop.c !in s.phases)
    && (Stopped(s.loop) ==> s.conns == {})
    && (s.loop.ReturnedIdle? || s.loop.ReturnedCancelled? ==> AllFinished(s))
  }

  lemma StepKeepsInv(s: State, e: Event)
    requires Inv(s)
    ensures Inv(Step(s, e))
  {
  }

  lemma {:induction false} RunKeepsInv(events: seq<Event>)
    ensures Inv(Run(events))
  {
    if events != [] {
      RunKeepsInv(events[..|events| - 1]);
      StepKeepsInv(Run(events[..|events| - 1]), events[|events| - 1]);
    }
  }

  /**
   In every interleaving: an idle return finds no tracked connection and every
   goroutine past its cleanup, and whatever happens afterwards nothing is
   served. A cancelled return too waits for every cleanup.
   */
  lemma IdleExitSafe(events: seq<Event>, later: seq<Event>)
    ensures Run(events).loop.ReturnedIdle? ==> Run(events).conns == {}
    ensures Run(events).loop.ReturnedIdle? || Run(events).loop.ReturnedCancelled? ==>
              AllFinished(Run(events)) && Run(events + later).phases == Run(events).phases
  {
    RunKeepsInv(events);
    if Run(events).loop.ReturnedIdle? || Run(events).loop.ReturnedCancelled? {
      NothingServedAfterReturn(events, later);
    }
  }

  lemma {:induction false} NothingServedAfterReturn(events: seq<Event>, later: seq<Event>)
    requires Run(events).loop.ReturnedIdle? || Run(events).loop.ReturnedCancelled?
    ensures Run(events + later).loop == Run(events).loop && Run(events + later).phases == Run(events).phases
  {
    RunKeepsInv(events);
    if later == [] {
      assert events + later == events;
    } else {
      var shorter := later[..|later| - 1];
      NothingServedAfterReturn(events, shorter);
      assert (events + later)[..|events + later| - 1] == events + shorter;
    }
  }

  // ---------------------------------------------------------------- liveness

  /** Some goroutine is still going to arm the idle window. */
  ghost predicate ArmPending(s: State) {
    exists c :: c in s.phases && s.phases[c] == Untracked(true)
  }

  /** While nothing is connected, the window that ends the process is armed or about to be. */
  ghost predicate WindowArmed(s: State) {
    s.conns == {} ==> s.deadline || ArmPending(s)
  }

  /** The clear that follows a check whose answer is out of date. */
  ghost predicate LosesWindow(s: State, e: Event) {
    e.ClearDeadline? && s.loop == ClearingDeadline && s.conns == {} && !ArmPending(s)
  }

  /** Exactly one step can lose the idle window: the check and the clear are not one critical section. */
  lemma WindowLostExactlyWhen(s: State, e: Event)
    requires Inv(s) && WindowArmed(s)
    ensures WindowArmed(Step(s, e)) <==> !LosesWindow(s, e)
  {
    var s' := Step(s, e);
    match e {
      case Untrack(c) =>
        if InPhase(s, c, CleanedUp) && s'.conns == {} {
          assert s'.phases[c] == Untracked(true);
        }
        PendingSurvives(s, s', c);
      case ArmDeadline(c) => PendingSurvives(s, s', c);
      case Disconnects(c) => PendingSurvives(s, s', c);
      case Finish(c) => PendingSurvives(s, s', c);
      case _ =>
    }
  }

  lemma PendingSurvives(s: State, s': State, c: ConnId)
    requires forall d :: d in s.phases && d != c ==> d in s'.phases && s'.phases[d] == s.phases[d]
    requires c in s.phases && s.phases[c] == Untracked(true) ==> s'.deadline || InPhase(s', c, Untracked(true))
    ensures ArmPending(s) ==> s'.deadline || ArmPending(s')
  {
    if ArmPending(s) {
      var d :| d in s.phases && s.phases[d] == Untracked(true);
      assert d != c ==> InPhase(s', d, Untracked(true));
    }
  }

  /** Without such a step the window is armed whenever nothing is connected. */
  lemma {:induction false} WindowKept(events: seq<Event>)
    requires forall k :: 0 <= k < |events| ==> !LosesWindow(Run(events[..k]), events[k])
    ensures WindowArmed(Run(events))
  {
    if events != [] {
      var n := |events| - 1;
      var before := events[..n];
      assert forall k :: 0 <= k < n ==> before[..k] == events[..k];
      WindowKept(before);
      RunKeepsInv(before);
      WindowLostExactlyWhen(Run(before), events[n]);
    }
  }

  /** The losing order happens: the last client leaves between the check and the clear. */
  lemma WindowCanBeLost() returns (events: seq<Event>)
    ensures var s := Run(events);
            s.loop == Accepting && s.conns == {} && !s.deadline && AllFinished(s) && s.cancel == NotCancelled
  {
    var s;
    events, s := LastConnectionGoes();
    events, s := Extend(events, s, ArmDeadline(1));
    assert s.phases == map[1 := Armed];
    events, s := Extend(events, s, Finish(1));
    assert s.phases == map[1 := Finished];
    events, s := Extend(events, s, ClearDeadline);
  }

  lemma LastConnectionGoes() returns (events: seq<Event>, s: State)
    ensures Run(events) == s && s == State(ClearingDeadline, {}, map[1 := Untracked(true)], false, true, NotCancelled)
  {
    events, s := OutdatedCheck();
    events, s := Extend(events, s, Disconnects(1));
    assert s.phases == map[1 := CleanedUp];
    events, s := Extend(events, s, Untrack(1));
    assert s.conns == {} && s.phases == map[1 := Untracked(true)];
  }

  lemma OutdatedCheck() returns (events: seq<Event>, s: State)
    ensures Run(events) == s && s == State(ClearingDeadline, {1}, map[1 := Serving], false, true, NotCancelled)
  {
    events, s := Extend([], STARTED, NewConnection(1, true));
    events, s := Extend(events, s, Track);
    events, s := Extend(events, s, Spawn);
    assert s == STARTED.(conns := {1}, phases := map[1 := Serving]);
    events, s := Extend(events, s, DeadlineExpires);
    events, s := Extend(events, s, CheckIdle);
  }

  lemma Extend(events: seq<Event>, s: State, e: Event) returns (events': seq<Event>, s': State)
    requires Run(events) == s
    ensures events' == events + [e] && s' == Step(s, e) && Run(events') == s'
  {
    events', s' := events + [e], Step(s, e);
    assert events'[..|events|] == events;
  }

  // ---------------------------------------------------------------- progress

  predicate Idle(s: State) {
    s.loop == Accepting && s.cancel == NotCancelled && s.conns == {} && s.deadline && AllFinished(s)
  }

  /** An armed window that expires with nothing connected ends the process. */
  lemma ExpiryEndsIt(events: seq<Event>)
    requires Idle(Run(events))
    ensures var s := Run(events + [DeadlineExpires] + [CheckIdle] + [StopConns] + [Return]);
            s.loop == ReturnedIdle && s.closing
  {
    var es, s := Extend(events, Run(events), DeadlineExpires);
    es, s := Extend(es, s, CheckIdle);
    es, s := Extend(es, s, StopConns);
    es, s := Extend(es, s, Return);
  }

  /** One that expires with something connected does not: the loop accepts again, and every connection is as it was. */
  lemma ExpiryWithConnections(events: seq<Event>)
    requires var s := Run(events); s.loop == Accepting && s.cancel == NotCancelled && s.conns != {} && s.deadline
    ensures Run(events + [DeadlineExpires] + [CheckIdle] + [ClearDeadline]) == Run(events).(deadline := false)
  {
    var es, s := Extend(events, Run(events), DeadlineExpires);
    es, s := Extend(es, s, CheckIdle);
    es, s := Extend(es, s, ClearDeadline);
  }

  lemma Departure(s: State, c: ConnId)
    requires InPhase(s, c, CleanedUp)
    ensures Step(Step(Step(s, Untrack(c)), ArmDeadline(c)), Finish(c)) ==
            s.(conns := s.conns - {c}, deadline := s.deadline || s.conns - {c} == {}, phases := s.phases[c := Finished])
  {
    var left := s.conns - {c};
    var s1 := Step(s, Untrack(c));
    assert s1 == s.(conns := left, phases := s.phases[c := Untracked(left == {})]);
    var s2 := Step(s1, ArmDeadline(c));
    assert s1.phases[c := Armed] == s.phases[c := Armed];
    assert s2 == s1.(deadline := s.deadline || left == {}, phases := s.phases[c := Armed]);
  }

  /** The last connection to go starts the window again; one that goes while others are connected starts nothing. */
  lemma LastOneArmsIt(events: seq<Event>, c: ConnId)
    requires InPhase(Run(events), c, CleanedUp)
    ensures var s, s' := Run(events), Run(events + [Untrack(c)] + [ArmDeadline(c)] + [Finish(c)]);
            && s'.conns == s.conns - {c} && InPhase(s', c, Finished)
            && (s'.deadline <==> s.deadline || s'.conns == {})
  {
    Departure(Run(events), c);
    var es, s := Extend(events, Run(events), Untrack(c));
    es, s := Extend(es, s, ArmDeadline(c));
    es, s := Extend(es, s, Finish(c));
  }

  /** A connection that arrives while nothing is closing is served. */
  lemma ConnectionIsServed(events: seq<Event>, c: ConnId)
    requires var s := Run(events); s.loop == Accepting && s.cancel == NotCancelled && !s.closing && c !in s.phases
    ensures var s := Run(events + [NewConnection(c, true)] + [Track] + [Spawn]);
            s.loop == Accepting && c in s.conns && InPhase(s, c, Serving)
  {
    var es, s := Extend(events, Run(events), NewConnection(c, true));
    es, s := Extend(es, s, Track);
    es, s := Extend(es, s, Spawn);
  }

  /** One whose peer cannot be told is dropped, and nothing else happens. */
  lemma UnknownPeerIsDropped(events: seq<Event>, c: ConnId)
    ensures Run(events + [NewConnection(c, false)]) == Run(events)
  {
    var es, s := Extend(events, Run(events), NewConnection(c, false));
  }

  /** Once shutdown has begun no connection that was not tracked by then is ever served. */
  lemma {:induction false} ClosingTakesNoOne(events: seq<Event>, later: seq<Event>)
    requires Run(events).closing && !Run(events).loop.Tracked?
    ensures var s := Run(events + later); s.closing && !s.loop.Tracked? && s.phases.Keys == Run(events).phases.Keys
  {
    if later == [] {
      assert events + later == events;
    } else {
      var before, e := later[..|later| - 1], later[|later| - 1];
      ClosingTakesNoOne(events, before);
      assert (events + later)[..|events + later| - 1] == events + before;
      ClosingStep(Run(events + before), e);
    }
  }

  lemma ClosingStep(s: State, e: Event)
    requires s.closing && !s.loop.Tracked?
    ensures var s' := Step(s, e); s'.closing && !s'.loop.Tracked? && s'.phases.Keys == s.phases.Keys
  {
  }

  /** Why Serve returns: idle only with shutdown begun by itself, nil only when cancelled, an error only when not. */
  ghost predicate ReturnInv(s: State) {
    && (s.loop.WaitingIdle? || s.loop.ReturnedIdle? ==> s.closing)
    && (s.loop.WaitingCancel? || s.loop.ReturnedCancelled? ==> s.cancel != NotCancelled)
  }

  lemma {:induction false} ReturnHasCause(events: seq<Event>)
    ensures ReturnInv(Run(events))
  {
    if events != [] {
      ReturnHasCause(events[..|events| - 1]);
      ReturnStep(Run(events[..|events| - 1]), events[|events| - 1]);
    }
  }

  lemma ReturnStep(s: State, e: Event)
    requires ReturnInv(s)
    ensures ReturnInv(Step(s, e))
    ensures Step(s, e).loop.ReturnedError? && !s.loop.ReturnedError? ==> e == AcceptFails && s.cancel == NotCancelled
  {
  }

  lemma Cancellation(s: State)
    requires s.loop == Accepting && s.cancel == NotCancelled && AllFinished(s)
    ensures Step(Step(Step(s, Cancel), CloseListener), CancelStopsConns) == s.(cancel := ConnsStopped, closing := true)
    ensures var stopped := s.(cancel := ConnsStopped, closing := true);
            Step(Step(stopped, AcceptFails), Return) == stopped.(loop := ReturnedCancelled)
  {
    var s1 := Step(s, Cancel);
    assert s1 == s.(cancel := Cancelled);
    var s2 := Step(s1, CloseListener);
    assert s2 == s.(cancel := ListenerClosed);
    var stopped := s.(cancel := ConnsStopped, closing := true);
    assert Step(stopped, AcceptFails) == stopped.(loop := WaitingCancel);
  }

  /** A cancelled server closes its listener and stops its connections, and returns once they are all cleaned up. */
  lemma CancelEndsIt(events: seq<Event>)
    requires var s := Run(events); s.loop == Accepting && s.cancel == NotCancelled && AllFinished(s)
    ensures var s := Run(events + [Cancel] + [CloseListener] + [CancelStopsConns] + [AcceptFails] + [Return]);
            s.loop == ReturnedCancelled && s.closing
  {
    Cancellation(Run(events));
    var es, s := Extend(events, Run(events), Cancel);
    es, s := Extend(es, s, CloseListener);
    es, s := Extend(es, s, CancelStopsConns);
    es, s := Extend(es, s, AcceptFails);
    es, s := Extend(es, s, Return);
  }

  /** A window that expires after cancellation does not count as idle. */
  lemma ExpiryWhenCancelled(events: seq<Event>)
    requires var s := Run(events); s.loop == Accepting && s.cancel != NotCancelled && s.deadline
    ensures Run(events + [DeadlineExpires]).loop == WaitingCancel
  {
    var es, s := Extend(events, Run(events), DeadlineExpires);
  }
}
