/**
 One doctor check under a time limit (bounded and abandonBounded in
 internal/cli/doctor.go): the call, the timer, the context and the caller's
 select race, and a result that comes too late may still need discarding.
 */
module Bounded {
  import opened Optional

  type Resource = nat

  /** A context error is the limit seen from the inside, not an answer. */
  datatype Error = ContextError | OtherError(code: int)

  datatype Result = Result(v: Resource, err: Option<Error>)

  datatype Outcome = Answer(r: Result) | TimedOut

  datatype Caller = Selecting | Abandoning | Returned(out: Outcome)

  datatype Discarder = NotStarted | Waiting | Finished

  /** ch is the one-slot channel; delivered remembers what was ever sent on it. */
  datatype State = State(
    hasDiscard: bool,
    ch: Option<Result>,
    delivered: Option<Result>,
    timer: bool,
    ctxDone: bool,
    caller: Caller,
    discarder: Discarder,
    discarded: seq<Resource>)

  predicate Answered(err: Option<Error>) {
    err != Some(ContextError)
  }

  function Start(hasDiscard: bool): (r: State) {
    State(hasDiscard, None, None, false, false, Selecting, NotStarted, [])
  }

  datatype Event =
    | Deliver(r: Result)
    | TimerFires
    | ContextEnds
    | SelectResult
    | SelectTimer
    | SelectContext
    | Abandon
    | DiscardLate

  function Conclude(r: Result): (result: Caller) {
    Returned(if Answered(r.err) then Answer(r) else TimedOut)
  }

  /** A select arm is taken only when it is ready; among ready arms any may be. */
  function Step(s: State, e: Event): (r: State) {
    match e
    case Deliver(r) => if s.delivered.None? then s.(ch := Some(r), delivered := Some(r)) else s
    case TimerFires => s.(timer := true)
    case ContextEnds => s.(ctxDone := true)
    case SelectResult =>
      if s.caller == Selecting && s.ch.Some? then s.(ch := None, caller := Conclude(s.ch.value)) else s
    case SelectTimer => if s.caller == Selecting && s.timer then s.(caller := Abandoning) else s
    case SelectContext => if s.caller == Selecting && s.ctxDone then s.(caller := Abandoning) else s
    case Abandon =>
      if s.caller != Abandoning then s
      else if s.ch.Some? then s.(ch := None, caller := Conclude(s.ch.value))
      else s.(caller := Returned(TimedOut), discarder := if s.hasDiscard then Waiting else NotStarted)
    case DiscardLate =>
      if s.discarder == Waiting && s.ch.Some? then
        s.(ch := None, discarder := Finished,
           discarded := if s.ch.value.err.None? then s.discarded + [s.ch.value.v] else s.discarded)
      else s
  }

  function Run(hasDiscard: bool, events: seq<Event>): (r: State) {
    if events == [] then Start(hasDiscard) else Step(Run(hasDiscard, events[..|events| - 1]), events[|events| - 1])
  }

  /** Where the one delivered result is, and what became of it. */
  ghost predicate Inv(s: State) {
    && (s.ch.Some? ==> s.ch == s.delivered)
    && (s.discarder.Waiting? ==>
          && s.caller == Returned(TimedOut) && s.discarded == [] && s.hasDiscard
          && (s.delivered.Some? ==> s.ch.Some?))
    && (s.discarder.NotStarted? ==> s.discarded == [])
    && (s.discarder.Finished? ==>
          && s.caller == Returned(TimedOut) && s.ch.None? && s.delivered.Some?
          && s.discarded == if s.delivered.value.err.None? then [s.delivered.value.v] else [])
    && (!s.caller.Returned? ==> s.discarder.NotStarted? && s.ch == s.delivered)
    && (s.caller.Returned? && s.caller.out.Answer? ==>
          s.delivered == Some(s.caller.out.r) && s.ch.None? && s.discarder.NotStarted? && Answered(s.caller.out.r.err))
    && (s.caller == Returned(TimedOut) && s.discarder.NotStarted? && s.hasDiscard ==>
          s.ch.None? && s.delivered.Some? && s.delivered.value.err == Some(ContextError))
    && (s.caller == Returned(TimedOut) && !s.hasDiscard && s.ch.None? && s.delivered.Some? ==>
          s.delivered.value.err == Some(ContextError))
  }

  lemma StepKeepsInv(s: State, e: Event)
    requires Inv(s)
    ensures Inv(Step(s, e)) && Step(s, e).hasDiscard == s.hasDiscard
  {
    match e {
      case Deliver(_) =>
      case Abandon => AbandonKeepsInv(s);
      case _ =>
    }
  }

  lemma AbandonKeepsInv(s: State)
    requires Inv(s)
    ensures Inv(Step(s, Abandon))
  {
  }

  /** An answer in the channel is what an undecided caller decides on. */
  lemma StepKeepsAnswer(s: State, e: Event, r: Result)
    requires Inv(s) && Answered(r.err)
    requires if s.caller.Returned? then s.caller.out == Answer(r) else s.ch == Some(r)
    ensures var s' := Step(s, e); if s'.caller.Returned? then s'.caller.out == Answer(r) else s'.ch == Some(r)
  {
  }

  lemma {:induction false} RunKeepsInv(hasDiscard: bool, events: seq<Event>)
    ensures Inv(Run(hasDiscard, events)) && Run(hasDiscard, events).hasDiscard == hasDiscard
  {
    if events != [] {
      RunKeepsInv(hasDiscard, events[..|events| - 1]);
      StepKeepsInv(Run(hasDiscard, events[..|events| - 1]), events[|events| - 1]);
    }
  }

  /** In every ordering the caller gets the delivered answer or a timeout, never a bare context error. */
  lemma AnswerOrTimeout(hasDiscard: bool, events: seq<Event>)
    ensures var s := Run(hasDiscard, events);
            s.caller.Returned? && s.caller.out.Answer? ==>
              s.delivered == Some(s.caller.out.r) && s.caller.out.r.err != Some(ContextError)
  {
    RunKeepsInv(hasDiscard, events);
  }

  /**
   With a discard given, a resource that is ever delivered is returned or
   discarded, and exactly once, as soon as nothing is left in the channel.
   */
  lemma ResourceUsedOnce(events: seq<Event>)
    ensures var s := Run(true, events);
            s.caller.Returned? && s.delivered.Some? && s.delivered.value.err.None? && s.ch.None? ==>
              (s.caller == Returned(Answer(s.delivered.value)) && s.discarded == [])
              || (s.caller == Returned(TimedOut) && s.discarded == [s.delivered.value.v])
    ensures |Run(true, events).discarded| <= 1
    ensures var s := Run(true, events);
            s.caller.Returned? && s.ch.Some? ==> s.discarder == Waiting
  {
    RunKeepsInv(true, events);
  }

  /** An answer already in the channel when the limit passes always wins. */
  lemma {:induction false} LandedAnswerWins(hasDiscard: bool, events: seq<Event>, later: seq<Event>)
    requires var s := Run(hasDiscard, events);
             s.ch.Some? && Answered(s.ch.value.err) && !s.caller.Returned?
    ensures var s := Run(hasDiscard, events + later);
            s.caller.Returned? ==> s.caller.out == Answer(Run(hasDiscard, events).ch.value)
    ensures var s := Run(hasDiscard, events + later);
            !s.caller.Returned? ==> s.ch == Run(hasDiscard, events).ch
  {
    if later == [] {
      assert events + later == events;
    } else {
      var n := |later| - 1;
      LandedAnswerWins(hasDiscard, events, later[..n]);
      RunKeepsInv(hasDiscard, events + later[..n]);
      assert (events + later)[..|events + later| - 1] == events + later[..n];
      StepKeepsAnswer(Run(hasDiscard, events + later[..n]), later[n], Run(hasDiscard, events).ch.value);
    }
  }

  /** Why the caller may give up: its time is up, its context is over, or the call itself was cut off by them. */
  predicate Overdue(s: State) {
    s.timer || s.ctxDone || (s.delivered.Some? && s.delivered.value.err == Some(ContextError))
  }

  /** In every ordering a timeout is reported only if one of those has happened. */
  lemma {:induction false} TimeoutHasCause(hasDiscard: bool, events: seq<Event>)
    ensures var s := Run(hasDiscard, events);
            s.caller == Abandoning || s.caller == Returned(TimedOut) ==> Overdue(s)
  {
    if events != [] {
      TimeoutHasCause(hasDiscard, events[..|events| - 1]);
      RunKeepsInv(hasDiscard, events[..|events| - 1]);
    }
  }

  lemma RunSnoc(hasDiscard: bool, events: seq<Event>, e: Event)
    ensures Run(hasDiscard, events + [e]) == Step(Run(hasDiscard, events), e)
  {
    assert (events + [e])[..|events|] == events;
  }

  /** A caller that takes what has been delivered gets it, value and error as they are, unless it is a context error. */
  lemma DeliveredIsReturned(hasDiscard: bool, events: seq<Event>)
    requires var s := Run(hasDiscard, events); s.caller == Selecting && s.delivered.Some?
    ensures var r := Run(hasDiscard, events).delivered.value;
            Run(hasDiscard, events + [SelectResult]).caller ==
            Returned(if r.err == Some(ContextError) then TimedOut else Answer(r))
  {
    RunKeepsInv(hasDiscard, events);
    RunSnoc(hasDiscard, events, SelectResult);
  }

  /** A caller whose time is up with nothing delivered gives up; what comes later is discarded. */
  lemma LateIsDiscarded(events: seq<Event>, v: Resource)
    requires var s := Run(true, events); s.caller == Selecting && s.delivered.None? && s.timer
    ensures var s := Run(true, events + [SelectTimer] + [Abandon] + [Deliver(Result(v, None))] + [DiscardLate]);
            s.caller == Returned(TimedOut) && s.discarded == [v]
  {
    RunKeepsInv(true, events);
    var e1 := events + [SelectTimer];
    var e2 := e1 + [Abandon];
    var e3 := e2 + [Deliver(Result(v, None))];
    RunSnoc(true, events, SelectTimer);
    RunSnoc(true, e1, Abandon);
    assert Run(true, e2).discarder == Waiting && Run(true, e2).delivered.None?;
    RunSnoc(true, e2, Deliver(Result(v, None)));
    RunSnoc(true, e3, DiscardLate);
    RunKeepsInv(true, e3);
  }
}
