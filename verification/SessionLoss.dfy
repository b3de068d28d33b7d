/**
 When `tetherd run` has lost every session (sessionLoss in
 internal/cli/run.go): a counter and a one-slot channel under one lock, a
 goroutine per watched session, and a reader that may take the report.
 */
module SessionLoss {
  import opened Optional

  type Sess = nat
  type Watcher = nat

  /** Why a session ended; a nil error is a session that was closed. */
  datatype Reason = Closed | Broken(code: int)

  /** The counter and the channel. */
  datatype Loss = Loss(live: int, ch: Option<Reason>)

  /**
   watched: every session some call to watch was given. waiting: the goroutines
   that have not run their critical section yet, by the session they watch.
   full: some send found the channel full.
   */
  datatype State = State(
    loss: Loss,
    watched: set<Sess>,
    waiting: map<Watcher, Sess>,
    ended: map<Sess, Reason>,
    full: bool)

  const INITIAL := State(Loss(0, None), {}, map[], map[], false)

  /** watch's critical section: count the session and take back a stale report. */
  function WatchSpec(l: Loss): (r: Loss) {
    Loss(l.live + 1, None)
  }

  /** The goroutine's critical section: the last one to leave reports, if the slot is free. */
  function EndedSpec(l: Loss, why: Reason): (r: Loss) {
    Loss(l.live - 1, if l.live == 1 && l.ch.None? then Some(why) else l.ch)
  }

  class Counter {
    var live: int
    var ch: Option<Reason>

    ghost function Now(): (r: Loss)
      reads this
    {
      Loss(live, ch)
    }

    constructor ()
      ensures Now() == Loss(0, None)
    {
      live, ch := 0, None;
    }

    method Watch()
      modifies this
      ensures Now() == WatchSpec(old(Now()))
    {
      live := live + 1;
      if ch.Some? {
        ch := None;
      }
    }

    method Ended(why: Reason)
      modifies this
      ensures Now() == EndedSpec(old(Now()), why)
    {
      live := live - 1;
      if live == 0 {
        if ch.None? {
          ch := Some(why);
        }
      }
    }

    /** The run takes the report off the channel, if there is one. */
    method Receive() returns (why: Option<Reason>)
      modifies this
      ensures why == old(ch) && Now() == old(Now()).(ch := None)
    {
      why, ch := ch, None;
    }
  }

  datatype Event = Watch(w: Watcher, s: Sess) | Ends(s: Sess, why: Reason) | Report(w: Watcher) | Receive

  predicate CanReport(st: State, w: Watcher) {
    w in st.waiting && st.waiting[w] in st.ended
  }

  /** An event that cannot happen (a reused watcher, a session ending twice) changes nothing. */
  function Step(st: State, e: Event): (r: State) {
    match e
    case Watch(w, s) =>
      if w in st.waiting then st
      else st.(loss := WatchSpec(st.loss), watched := st.watched + {s}, waiting := st.waiting[w := s])
    case Ends(s, why) =>
      if s in st.ended then st else st.(ended := st.ended[s := why])
    case Report(w) =>
      if !CanReport(st, w) then st
      else st.(loss := EndedSpec(st.loss, st.ended[st.waiting[w]]),
               waiting := st.waiting - {w},
               full := st.full || (st.loss.live == 1 && st.loss.ch.Some?))
    case Receive => st.(loss := st.loss.(ch := None))
  }

  function Run(events: seq<Event>): (r: State) {
    if events == [] then INITIAL else Step(Run(events[..|events| - 1]), events[|events| - 1])
  }

  /** What is proved of Run is true of the counter: any events drive it to that state. */
  method Drive(events: seq<Event>) returns (counter: Counter)
    ensures counter.Now() == Run(events).loss
  {
    counter := new Counter();
    var waiting: map<Watcher, Sess>, ended: map<Sess, Reason> := map[], map[];
    for i := 0 to |events|
      invariant fresh(counter) && counter.Now() == Run(events[..i]).loss
      invariant waiting == Run(events[..i]).waiting && ended == Run(events[..i]).ended
    {
      assert events[..i + 1][..i] == events[..i];
      match events[i] {
        case Watch(w, s) =>
          if w !in waiting {
            counter.Watch();
            waiting := waiting[w := s];
          }
        case Ends(s, why) =>
          if s !in ended {
            ended := ended[s := why];
          }
        case Report(w) =>
          if w in waiting && waiting[w] in ended {
            counter.Ended(ended[waiting[w]]);
            waiting := waiting - {w};
          }
        case Receive =>
          var _ := counter.Receive();
      }
    }
    assert events[..|events|] == events;
  }

  /**
   The counter is the number of goroutines still waiting; a report exists only
   when there are none; a watched session is over or still waited for; no send
   was ever dropped.
   */
  ghost predicate Inv(st: State) {
    && st.loss.live == |st.waiting|
    && (st.loss.ch.Some? ==> st.waiting == map[])
    && (forall s :: s in st.watched ==> s in st.ended || s in st.waiting.Values)
    && !st.full
  }

  lemma WatchKeepsInv(st: State, w: Watcher, s: Sess)
    requires Inv(st) && w !in st.waiting
    ensures Inv(Step(st, Watch(w, s)))
  {
    var waiting := st.waiting[w := s];
    assert waiting[w] == s;
    assert forall v :: v in st.waiting ==> v in waiting && waiting[v] == st.waiting[v];
  }

  /** The watcher that leaves waited for a session that is over; the others still wait. */
  lemma ReportKeepsInv(st: State, w: Watcher)
    requires Inv(st) && CanReport(st, w)
    ensures Inv(Step(st, Report(w)))
  {
    var waiting := st.waiting - {w};
    assert waiting.Keys == st.waiting.Keys - {w};
    assert forall v :: v in st.waiting && v != w ==> v in waiting && waiting[v] == st.waiting[v];
    forall x | x in st.watched && x !in st.ended
      ensures x in waiting.Values
    {
      var v :| v in st.waiting && st.waiting[v] == x;
      assert waiting[v] == x;
    }
  }

  lemma StepKeepsInv(st: State, e: Event)
    requires Inv(st)
    ensures Inv(Step(st, e))
  {
    match e {
      case Watch(w, s) =>
        if w !in st.waiting {
          WatchKeepsInv(st, w, s);
        }
      case Report(w) =>
        if CanReport(st, w) {
          ReportKeepsInv(st, w);
        }
      case _ =>
    }
  }

  lemma {:induction false} RunKeepsInv(events: seq<Event>)
    ensures Inv(Run(events))
  {
    if events != [] {
      RunKeepsInv(events[..|events| - 1]);
      StepKeepsInv(Run(events[..|events| - 1]), events[|events| - 1]);
    }
  }

  /** In every interleaving a pending report means every watched session is over. */
  lemma ReportIsSound(events: seq<Event>)
    ensures var st := Run(events);
            st.loss.ch.Some? ==> st.loss.live == 0 && forall s :: s in st.watched ==> s in st.ended
  {
    RunKeepsInv(events);
    var st := Run(events);
    if st.loss.ch.Some? {
      assert st.waiting.Values == {} by {
        assert st.waiting == map[];
      }
    }
  }

  /**
   Whenever the count reaches zero, the report of that very session is posted:
   the send never finds the channel full.
   */
  lemma ZeroIsReported(events: seq<Event>, w: Watcher)
    ensures var st := Run(events);
            var st' := Step(st, Report(w));
            CanReport(st, w) && st'.loss.live == 0 ==>
              st'.loss.ch == Some(st.ended[st.waiting[w]]) && !st'.full
  {
    RunKeepsInv(events);
    RunKeepsInv(events + [Report(w)]);
    assert (events + [Report(w)])[..|events|] == events;
  }

  /** A report, once posted, is there at the end of any run in which nothing is watched or received since. */
  lemma {:induction false} ReportStays(events: seq<Event>, later: seq<Event>)
    requires Run(events).loss.ch.Some?
    requires forall i :: 0 <= i < |later| ==> !later[i].Watch? && !later[i].Receive?
    ensures Run(events + later).loss == Run(events).loss
  {
    if later == [] {
      assert events + later == events;
    } else {
      var n := |later| - 1;
      ReportStays(events, later[..n]);
      assert (events + later)[..|events + later| - 1] == events + later[..n];
      RunKeepsInv(events + later[..n]);
    }
  }

  /** And a watch takes it back: from then on there is no report until the session watched is over too. */
  lemma {:induction false} WatchTakesItBack(events: seq<Event>, w: Watcher, s: Sess, later: seq<Event>)
    requires w !in Run(events).waiting && s !in Run(events + [Watch(w, s)] + later).ended
    ensures Run(events + [Watch(w, s)] + later).loss.ch == None
  {
    var all := events + [Watch(w, s)] + later;
    StillWatched(events, w, s, later);
    RunKeepsInv(all);
  }

  lemma {:induction false} StillWatched(events: seq<Event>, w: Watcher, s: Sess, later: seq<Event>)
    requires w !in Run(events).waiting && s !in Run(events + [Watch(w, s)] + later).ended
    ensures var st := Run(events + [Watch(w, s)] + later); w in st.waiting && st.waiting[w] == s
  {
    var all := events + [Watch(w, s)] + later;
    if later == [] {
      assert all[..|all| - 1] == events;
    } else {
      var n := |later| - 1;
      assert all[..|all| - 1] == events + [Watch(w, s)] + later[..n];
      assert all[|all| - 1] == later[n];
      StillWatched(events, w, s, later[..n]);
    }
  }
}
