/**
 Keeping the session set in step with the service's tasks
 (internal/cli/follow.go). The task list, attach results, cancellation and
 session deaths are the environment's; each arrives as an input of the round.
 */
module Following {
  import opened Optional
  import opened SessionSets

  /** Opens sessions; identities are never reused. */
  class Dialer {
    var next: Sess
    /** The sessions the follower closed itself instead of handing them over. */
    ghost var closed: set<Sess>
    /** The task each session was opened to. */
    ghost var to: map<Sess, Task>

    constructor ()
      ensures next == 1 && closed == {} && to == map[]
    {
      next, closed, to := 1, {}, map[];
    }

    method Attach(task: Task, works: bool) returns (sess: Option<Sess>)
      modifies this
      ensures closed == old(closed)
      ensures to == if works then old(to)[old(next) := task] else old(to)
      ensures sess == if works then Some(old(next)) else None
      ensures next == if works then old(next) + 1 else old(next)
    {
      if works {
        to := to[next := task];
        next := next + 1;
        return Some(next - 1);
      }
      return None;
    }

    method CloseSession(sess: Sess)
      modifies this`closed
      ensures closed == old(closed) + {sess}
    {
      closed := closed + {sess};
    }
  }

  datatype Listing = ListFailed | Listed(want: seq<Task>)

  /** What the environment does during one poll: sessions already over, attach results, cancellation. */
  datatype Round = Round(done: set<Sess>, listing: Listing, attaches: nat -> bool, cancelled: nat -> bool)

  ghost predicate ListedId(want: seq<Task>, id: string) {
    exists i :: 0 <= i < |want| && want[i].id == id
  }

  class Follower {
    const sessions: SessionSet
    const dialer: Dialer

    constructor (sessions: SessionSet, dialer: Dialer)
      ensures this.sessions == sessions && this.dialer == dialer
    {
      this.sessions, this.dialer := sessions, dialer;
    }

    /** The set is well-formed, knows only sessions that were opened, and has each under the task it was opened to. */
    ghost predicate Valid()
      reads this, sessions, sessions.backing, dialer
    {
      && sessions.Valid()
      && Conserved(sessions.Now())
      && (forall x :: x in sessions.handed ==> x < dialer.next)
      && (forall x :: x in dialer.to ==> x < dialer.next)
      && (forall e :: e in sessions.Entries() && e.sess in dialer.to ==> dialer.to[e.sess] == e.task)
    }

    /** Every session opened since `from` was handed to the set or closed here. */
    ghost predicate NoneLeaked(from: Sess)
      reads this, sessions, dialer
    {
      Accounted(from, dialer.next, sessions.handed, dialer.closed)
    }

    /** Since then sessions were only opened, handed over and closed, and none was leaked. */
    ghost predicate Grown(next: Sess, handed: set<Sess>, closed: set<Sess>)
      reads this, sessions, dialer
    {
      GrownFrom(next, handed, closed, dialer.next, sessions.handed, dialer.closed)
    }

    /** Every attached task is listed, and every listed task is attached unless attaching to it failed. */
    ghost predicate Converged(r: Round)
      reads this, sessions, sessions.backing
      requires sessions.Valid()
    {
      r.listing.Listed? ==>
        && (forall e :: e in sessions.Entries() ==> ListedId(r.listing.want, e.task.id))
        && AttachedOrFailed(sessions.Entries(), r.listing.want, |r.listing.want|, r.attaches)
    }

    /** An entry this round made: a session opened since, to a listed task, and under that very task. */
    ghost predicate Fresh(r: Round, from: Sess, e: Attached)
      reads this, dialer
    {
      && e.sess >= from && e.sess in dialer.to && dialer.to[e.sess] == e.task
      && r.listing.Listed? && Among(r.listing.want, |r.listing.want|, e.task)
    }

    /** One poll. stop means the run is shutting down. */
    method PollRound(r: Round) returns (stop: bool)
      requires Valid()
      modifies sessions, sessions.backing, dialer
      ensures Valid() && (sessions.backing == old(sessions.backing) || fresh(sessions.backing))
      ensures Grown(old(dialer.next), old(sessions.handed), old(dialer.closed))
      ensures r.listing.ListFailed? ==>
                !stop && sessions.Now() == Step(old(sessions.Now()), Op.Reap(r.done)) && dialer.next == old(dialer.next)
      ensures !stop ==> Converged(r)
      ensures r.listing.Listed? && !stop ==>
                forall e :: e in old(sessions.Entries()) && e.sess !in r.done && ListedId(r.listing.want, e.task.id) ==>
                              e in sessions.Entries()
      ensures forall e :: e in old(sessions.Entries()) && e.sess in r.done ==> e !in sessions.Entries()
      ensures forall e :: e in sessions.Entries() ==> e in old(sessions.Entries()) || Fresh(r, old(dialer.next), e)
      ensures forall e :: e in sessions.Entries() ==> sessions.Entries()[0].task.startedAt <= e.task.startedAt
      ensures stop ==> Cancelled(r)
    {
      ghost var before, from := sessions.Entries(), dialer.next;
      KnownSessions();
      ReapEnded(r.done);
      ghost var alive := sessions.Entries();
      if r.listing.ListFailed? {
        EndedAreGone(before, alive, alive, r.done, from);
        OldestIsFirst(alive);
        return false;
      }
      stop := Sync(r);
      EndedAreGone(before, alive, sessions.Entries(), r.done, from);
      OldestIsFirst(sessions.Entries());
    }

    /** The attached sessions are among those the dialer opened. */
    lemma KnownSessions()
      requires Valid()
      ensures forall e :: e in sessions.Entries() ==> e.sess < dialer.next
    {
      var es := sessions.Entries();
      forall e | e in es
        ensures e.sess < dialer.next
      {
        var i :| 0 <= i < |es| && es[i] == e;
        assert es[i].sess in SessionsOf(es);
        assert e.sess in sessions.handed;
      }
    }

    /** Attach to what is listed, then drop what is not. */
    method Sync(r: Round) returns (stop: bool)
      requires Valid() && r.listing.Listed?
      modifies sessions, sessions.backing, dialer
      ensures Valid() && (sessions.backing == old(sessions.backing) || fresh(sessions.backing))
      ensures Grown(old(dialer.next), old(sessions.handed), old(dialer.closed))
      ensures forall e :: e in sessions.Entries() ==> e in old(sessions.Entries()) || Fresh(r, old(dialer.next), e)
      ensures !stop ==> Converged(r)
      ensures !stop ==> forall e :: e in old(sessions.Entries()) && ListedId(r.listing.want, e.task.id) ==>
                                      e in sessions.Entries()
      ensures stop ==> Cancelled(r)
    {
      var live;
      stop, live := AttachMissing(r.listing.want, r);
      if !stop {
        RetainLive(live);
        assert forall id :: id in live <==> ListedId(r.listing.want, id);
        assert forall i :: 0 <= i < |r.listing.want| ==> r.listing.want[i].id in live;
      }
    }

    method ReapEnded(done: set<Sess>)
      requires Valid()
      modifies sessions`len, sessions`closed, sessions.backing
      ensures Valid() && sessions.Now() == Step(old(sessions.Now()), Op.Reap(done))
      ensures forall e :: e in sessions.Entries() <==> e in old(sessions.Entries()) && e.sess !in done
    {
      DropConserves(sessions.Now(), DropOf(Op.Reap(done)));
      FilterMembers(sessions.Entries(), Not(DropOf(Op.Reap(done))));
      var dead := sessions.Reap(done);
    }

    method RetainLive(live: set<string>)
      requires Valid()
      modifies sessions`len, sessions`closed, sessions.backing
      ensures Valid() && sessions.Now() == Step(old(sessions.Now()), Op.Retain(live))
      ensures forall e :: e in sessions.Entries() <==> e in old(sessions.Entries()) && e.task.id in live
      ensures forall id :: id in live && HasTask(old(sessions.Entries()), id) ==> HasTask(sessions.Entries(), id)
    {
      ghost var attached := sessions.Entries();
      DropConserves(sessions.Now(), DropOf(Op.Retain(live)));
      FilterMembers(attached, Not(DropOf(Op.Retain(live))));
      var dropped := sessions.Retain(live);
      RetainKeepsListed(attached, sessions.Entries(), live);
    }

    /** The loop over the listed tasks: attach to each one the set does not hold. */
    method AttachMissing(want: seq<Task>, r: Round) returns (stop: bool, live: set<string>)
      requires Valid()
      modifies sessions, sessions.backing, dialer
      ensures Valid() && Grown(old(dialer.next), old(sessions.handed), old(dialer.closed))
      ensures sessions.backing == old(sessions.backing) || fresh(sessions.backing)
      ensures Extends(old(sessions.Entries()), sessions.Entries(), old(dialer.next), dialer.to, want, |want|)
      ensures !stop ==> live == ListedIds(want, |want|)
      ensures !stop ==> AttachedOrFailed(sessions.Entries(), want, |want|, r.attaches)
      ensures stop ==> exists k :: 0 <= k < |want| && r.cancelled(k)
    {
      live := {};
      ghost var first := Snap();
      for i := 0 to |want|
        invariant Valid() && (sessions.backing == old(sessions.backing) || fresh(sessions.backing))
        invariant Since(first, Snap(), want, i, r.attaches)
        invariant live == ListedIds(want, i)
      {
        live := live + {want[i].id};
        ghost var before := Snap();
        var over := AttachOne(want[i], r.attaches(i), r.cancelled(i));
        SinceFurther(first, before, Snap(), want, i, r.attaches, over);
        if over {
          return true, live;
        }
      }
      return false, live;
    }

    /** What the round has to account for, at one instant. */
    ghost function Snap(): (r: Snapshot)
      reads this, sessions, sessions.backing, dialer
      requires sessions.Valid()
    {
      Snapshot(sessions.Entries(), dialer.next, sessions.handed, dialer.closed, dialer.to)
    }

    /** One listed task: nothing to do, or an attach that fails, is handed over, or comes too late. */
    method AttachOne(task: Task, works: bool, cancelled: bool) returns (stop: bool)
      requires Valid()
      modifies sessions, sessions.backing, dialer
      ensures Valid() && Grown(old(dialer.next), old(sessions.handed), old(dialer.closed))
      ensures sessions.backing == old(sessions.backing) || fresh(sessions.backing)
      ensures AddsAtMost(old(sessions.Entries()), sessions.Entries(), Attached(task, old(dialer.next)))
      ensures Opened(old(dialer.to), dialer.to, old(dialer.next), task)
      ensures Attached(task, old(dialer.next)) in sessions.Entries() ==> old(dialer.next) in dialer.to
      ensures forall id :: HasTask(old(sessions.Entries()), id) ==> HasTask(sessions.Entries(), id)
      ensures !stop ==> HasTask(sessions.Entries(), task.id) || !works
      ensures stop ==> cancelled
    {
      KnownSessions();
      var has := sessions.Has(task.id);
      if has {
        return false;
      }
      var sess := dialer.Attach(task, works);
      if sess.None? {
        return false;
      }
      if cancelled {
        dialer.CloseSession(sess.value);
        return true;
      }
      ghost var before, x := sessions.Entries(), Attached(task, sess.value);
      AddConserves(sessions.Now(), task, sess.value);
      InsertMembers(before, x);
      var primary := sessions.Add(task, sess.value);
      MembersKeepTasks(before, sessions.Entries(), x);
      return false;
    }

    /**
     Polls until the run ends. Nothing Attach returned is left neither attached nor
     closed; a run that was not cut short has polled every round, and the set is what
     the last one makes of it.
     */
    method Run(rounds: seq<Round>) returns (polled: nat)
      requires Valid()
      modifies sessions, sessions.backing, dialer
      ensures Valid() && NoneLeaked(old(dialer.next))
      ensures forall x :: old(dialer.next) <= x < dialer.next ==>
                            x in SessionsOf(sessions.Entries()) || x in sessions.closed || x in dialer.closed
      ensures polled <= |rounds| && (polled < |rounds| ==> Cancelled(rounds[polled]))
      ensures polled == |rounds| > 0 ==> Converged(rounds[polled - 1])
    {
      for i := 0 to |rounds|
        invariant Valid() && (sessions.backing == old(sessions.backing) || fresh(sessions.backing))
        invariant Grown(old(dialer.next), old(sessions.handed), old(dialer.closed))
        invariant i > 0 ==> Converged(rounds[i - 1])
      {
        var stop := PollRound(rounds[i]);
        if stop {
          return i;
        }
      }
      return |rounds|;
    }
  }

  /** The run began to shut down while this round was attaching. */
  ghost predicate Cancelled(r: Round) {
    r.listing.Listed? && exists i :: 0 <= i < |r.listing.want| && r.cancelled(i)
  }

  ghost predicate Accounted(from: Sess, next: Sess, handed: set<Sess>, closed: set<Sess>) {
    forall x :: from <= x < next ==> x in handed || x in closed
  }

  ghost predicate GrownFrom(
    next: Sess, handed: set<Sess>, closed: set<Sess>, next': Sess, handed': set<Sess>, closed': set<Sess>)
  {
    next <= next' && handed <= handed' && closed <= closed' && Accounted(next, next', handed', closed')
  }

  lemma GrownFurther(
    a: Sess, ha: set<Sess>, ca: set<Sess>, b: Sess, hb: set<Sess>, cb: set<Sess>, c: Sess, hc: set<Sess>, cc: set<Sess>)
    requires GrownFrom(a, ha, ca, b, hb, cb) && GrownFrom(b, hb, cb, c, hc, cc)
    ensures GrownFrom(a, ha, ca, c, hc, cc)
  {
  }

  /** The ids of the first n listed tasks. */
  function ListedIds(want: seq<Task>, n: nat): (r: set<string>)
    requires n <= |want|
  {
    set k | 0 <= k < n :: want[k].id
  }

  /** One of the first n listed tasks is this one. */
  ghost predicate Among(want: seq<Task>, n: nat, task: Task) {
    n <= |want| && exists k :: 0 <= k < n && want[k] == task
  }

  /** Nothing went, and what came is a session opened since to one of the first n listed tasks, under that task. */
  ghost predicate Extends(
    before: seq<Attached>, after: seq<Attached>, from: Sess, to: map<Sess, Task>, want: seq<Task>, n: nat)
  {
    && (forall e :: e in before ==> e in after)
    && (forall e :: e in after ==>
          e in before || (e.sess >= from && e.sess in to && to[e.sess] == e.task && Among(want, n, e.task)))
  }

  /** Nothing went, and nothing but x came. */
  ghost predicate AddsAtMost(before: seq<Attached>, after: seq<Attached>, x: Attached) {
    (forall e :: e in before ==> e in after) && (forall e :: e in after ==> e in before || e == x)
  }

  /** At most one session was opened, the next one, to this task. */
  ghost predicate Opened(to: map<Sess, Task>, to': map<Sess, Task>, next: Sess, task: Task) {
    to' == to || to' == to[next := task]
  }

  lemma ExtendsFurther(
    a: seq<Attached>, b: seq<Attached>, c: seq<Attached>, from: Sess, next: Sess,
    to: map<Sess, Task>, to': map<Sess, Task>, want: seq<Task>, i: nat)
    requires i < |want| && Extends(a, b, from, to, want, i) && from <= next && next !in to
    requires AddsAtMost(b, c, Attached(want[i], next)) && Opened(to, to', next, want[i])
    requires Attached(want[i], next) in c ==> next in to'
    ensures Extends(a, c, from, to', want, i + 1)
  {
    assert Among(want, i + 1, want[i]);
    forall e | e in b && e !in a
      ensures Among(want, i + 1, e.task)
    {
      var k :| 0 <= k < i && want[k] == e.task;
    }
  }

  lemma ExtendsWhole(
    a: seq<Attached>, b: seq<Attached>, from: Sess, to: map<Sess, Task>, want: seq<Task>, n: nat)
    requires Extends(a, b, from, to, want, n) && n <= |want|
    ensures Extends(a, b, from, to, want, |want|)
  {
    forall e | e in b && e !in a
      ensures Among(want, |want|, e.task)
    {
      var k :| 0 <= k < n && want[k] == e.task;
    }
  }

  lemma OldestIsFirst(es: seq<Attached>)
    requires OldestFirst(es)
    ensures forall e :: e in es ==> es[0].task.startedAt <= e.task.startedAt
  {
  }

  datatype Snapshot = Snapshot(
    entries: seq<Attached>, next: Sess, handed: set<Sess>, closed: set<Sess>, to: map<Sess, Task>)

  /** Between two instants only the first n listed tasks were looked after. */
  ghost predicate Since(a: Snapshot, b: Snapshot, want: seq<Task>, n: nat, attaches: nat -> bool) {
    && GrownFrom(a.next, a.handed, a.closed, b.next, b.handed, b.closed)
    && Extends(a.entries, b.entries, a.next, b.to, want, n)
    && AttachedOrFailed(b.entries, want, n, attaches)
  }

  lemma SinceFurther(
    a: Snapshot, b: Snapshot, c: Snapshot, want: seq<Task>, i: nat, attaches: nat -> bool, over: bool)
    requires i < |want| && Since(a, b, want, i, attaches) && b.next !in b.to
    requires GrownFrom(b.next, b.handed, b.closed, c.next, c.handed, c.closed)
    requires AddsAtMost(b.entries, c.entries, Attached(want[i], b.next)) && Opened(b.to, c.to, b.next, want[i])
    requires Attached(want[i], b.next) in c.entries ==> b.next in c.to
    requires !over ==> HasTask(c.entries, want[i].id) || !attaches(i)
    ensures GrownFrom(a.next, a.handed, a.closed, c.next, c.handed, c.closed)
    ensures Extends(a.entries, c.entries, a.next, c.to, want, |want|)
    ensures !over ==> Since(a, c, want, i + 1, attaches)
  {
    GrownFurther(a.next, a.handed, a.closed, b.next, b.handed, b.closed, c.next, c.handed, c.closed);
    ExtendsFurther(a.entries, b.entries, c.entries, a.next, b.next, b.to, c.to, want, i);
    ExtendsWhole(a.entries, c.entries, a.next, c.to, want, i + 1);
    if !over {
      OneMoreAttached(b.entries, c.entries, want, i, attaches);
    }
  }

  /** Each of the first n listed tasks is attached, or attaching to it failed. */
  ghost predicate AttachedOrFailed(es: seq<Attached>, want: seq<Task>, n: nat, attaches: nat -> bool) {
    n <= |want| && forall k :: 0 <= k < n ==> HasTask(es, want[k].id) || !attaches(k)
  }

  lemma OneMoreAttached(
    before: seq<Attached>, after: seq<Attached>, want: seq<Task>, i: nat, attaches: nat -> bool)
    requires i < |want| && AttachedOrFailed(before, want, i, attaches) && forall e :: e in before ==> e in after
    requires HasTask(after, want[i].id) || !attaches(i)
    ensures AttachedOrFailed(after, want, i + 1, attaches)
  {
    forall k | 0 <= k < i && HasTask(before, want[k].id)
      ensures HasTask(after, want[k].id)
    {
      var j :| 0 <= j < |before| && before[j].task.id == want[k].id;
      assert before[j] in after;
    }
  }

  /** What was over before the poll is gone after it: it was reaped, and nothing opened later is the same session. */
  lemma EndedAreGone(
    before: seq<Attached>, alive: seq<Attached>, after: seq<Attached>, done: set<Sess>, from: Sess)
    requires forall e :: e in before ==> e.sess < from
    requires forall e :: e in alive <==> e in before && e.sess !in done
    requires forall e :: e in after ==> e in alive || e.sess >= from
    ensures forall e :: e in before && e.sess in done ==> e !in after
    ensures forall e :: e in after ==> e in before || e.sess >= from
  {
  }

  /** Inserting keeps every task attached and attaches the new one. */
  lemma MembersKeepTasks(before: seq<Attached>, after: seq<Attached>, x: Attached)
    requires forall e :: e in after <==> e in before || e == x
    ensures forall id :: HasTask(before, id) ==> HasTask(after, id)
    ensures HasTask(after, x.task.id)
  {
    forall id | HasTask(before, id)
      ensures HasTask(after, id)
    {
      var i :| 0 <= i < |before| && before[i].task.id == id;
      assert before[i] in after;
    }
    assert x in after;
  }

  lemma RetainKeepsListed(before: seq<Attached>, after: seq<Attached>, live: set<string>)
    requires forall e :: e in after <==> e in before && e.task.id in live
    ensures forall id :: id in live && HasTask(before, id) ==> HasTask(after, id)
  {
    forall id | id in live && HasTask(before, id)
      ensures HasTask(after, id)
    {
      var i :| 0 <= i < |before| && before[i].task.id == id;
      assert before[i] in after;
    }
  }
}
