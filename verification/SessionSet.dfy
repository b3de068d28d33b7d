/**
 One session per attached task, oldest task first (internal/cli/sessionset.go).
 The entries live in a slice that is appended to, sorted and compacted in
 place: here an array and the length in use.
 */
module SessionSets {
  import opened Optional

  datatype Task = Task(id: string, startedAt: int)

  /** A session, by identity; 0 is the nil pointer. */
  type Sess = nat

  datatype Attached = Attached(task: Task, sess: Sess)

  /** `attached{}` */
  const ZERO := Attached(Task("", 0), 0)

  // ----------------------------------------------------------- specification

  function Filter(es: seq<Attached>, p: Attached -> bool): (r: seq<Attached>) {
    if es == [] then []
    else Filter(es[..|es| - 1], p) + if p(es[|es| - 1]) then [es[|es| - 1]] else []
  }

  function Not(p: Attached -> bool): (r: Attached -> bool) {
    (e: Attached) => !p(e)
  }

  /** Puts x after every entry that is not younger: one step of a stable insertion sort. */
  function InsertByStart(es: seq<Attached>, x: Attached): (r: seq<Attached>) {
    if es == [] || es[|es| - 1].task.startedAt <= x.task.startedAt then es + [x]
    else InsertByStart(es[..|es| - 1], x) + [es[|es| - 1]]
  }

  function StableSort(es: seq<Attached>): (r: seq<Attached>) {
    if es == [] then [] else InsertByStart(StableSort(es[..|es| - 1]), es[|es| - 1])
  }

  ghost predicate OldestFirst(es: seq<Attached>) {
    forall i, j :: 0 <= i < j < |es| ==> es[i].task.startedAt <= es[j].task.startedAt
  }

  predicate HasTask(es: seq<Attached>, id: string) {
    exists i :: 0 <= i < |es| && es[i].task.id == id
  }

  /** entries, the sessions this set has closed, and every session it was ever handed. */
  datatype State = State(entries: seq<Attached>, closed: set<Sess>, handed: set<Sess>)

  function SessionsOf(es: seq<Attached>): (r: set<Sess>) {
    set i | 0 <= i < |es| :: es[i].sess
  }

  function AddSpec(s: State, task: Task, sess: Sess): (r: State) {
    if HasTask(s.entries, task.id) then s.(closed := s.closed + {sess}, handed := s.handed + {sess})
    else s.(entries := InsertByStart(s.entries, Attached(task, sess)), handed := s.handed + {sess})
  }

  function DropSpec(s: State, drop: Attached -> bool): (r: State) {
    s.(entries := Filter(s.entries, Not(drop)), closed := s.closed + SessionsOf(Filter(s.entries, drop)))
  }

  datatype Op =
    | Add(task: Task, sess: Sess)
    | Remove(id: string)
    | Retain(live: set<string>)
    | Reap(done: set<Sess>)
    | Close

  function DropOf(op: Op): (r: Attached -> bool) {
    match op
    case Remove(id) => (e: Attached) => e.task.id == id
    case Retain(live) => (e: Attached) => e.task.id !in live
    case Reap(done) => (e: Attached) => e.sess in done
    case _ => (e: Attached) => true
  }

  /** A session is handed over once; an Add that repeats one cannot happen. */
  function Step(s: State, op: Op): (r: State) {
    match op
    case Add(task, sess) => if sess in s.handed then s else AddSpec(s, task, sess)
    case _ => DropSpec(s, DropOf(op))
  }

  function Run(ops: seq<Op>): (r: State) {
    if ops == [] then State([], {}, {}) else Step(Run(ops[..|ops| - 1]), ops[|ops| - 1])
  }

  // ---------------------------------------------------------------- the set

  class SessionSet {
    var backing: array<Attached>
    var len: nat
    ghost var closed: set<Sess>
    ghost var handed: set<Sess>

    ghost predicate Valid()
      reads this
    {
      len <= backing.Length
    }

    ghost function Entries(): (r: seq<Attached>)
      reads this, backing
      requires Valid()
    {
      backing[..len]
    }

    ghost function Now(): (r: State)
      reads this, backing
      requires Valid()
    {
      State(Entries(), closed, handed)
    }

    constructor ()
      ensures Valid() && fresh(backing) && Now() == State([], {}, {})
    {
      backing := new Attached[0](_ => ZERO);
      len, closed, handed := 0, {}, {};
    }

    /** Go's append: in place while there is room, into a larger array otherwise. */
    method Append(x: Attached)
      requires Valid()
      modifies this`backing, this`len, backing
      ensures Valid() && (backing == old(backing) || fresh(backing))
      ensures Entries() == old(Entries()) + [x]
    {
      if len == backing.Length {
        var room := backing.Length;
        var bigger := new Attached[2 * room + 1](_ => ZERO);
        forall i | 0 <= i < room {
          bigger[i] := backing[i];
        }
        assert bigger[..len] == backing[..len];
        backing := bigger;
      }
      backing[len] := x;
      len := len + 1;
    }

    /** Moves entry i down past every younger one before it. */
    method SinkEntry(i: nat)
      requires Valid() && i < len
      modifies backing
      ensures backing[..i + 1] == InsertByStart(old(backing[..i]), old(backing[i]))
      ensures forall k :: i < k < backing.Length ==> backing[k] == old(backing[k])
    {
      ghost var sorted, x := backing[..i], backing[i];
      var j := i;
      while j > 0 && backing[j].task.startedAt < backing[j - 1].task.startedAt
        invariant 0 <= j <= i
        invariant forall k :: 0 <= k < j ==> backing[k] == sorted[k]
        invariant backing[j] == x
        invariant forall k :: j < k <= i ==> backing[k] == sorted[k - 1]
        invariant forall k :: j <= k < i ==> x.task.startedAt < sorted[k].task.startedAt
        invariant forall k :: i < k < backing.Length ==> backing[k] == old(backing[k])
      {
        backing[j], backing[j - 1] := backing[j - 1], backing[j];
        j := j - 1;
      }
      InsertPosition(sorted, x, j);
      assert backing[..i + 1] == sorted[..j] + [x] + sorted[j..];
    }

    /** The stable sort, as an insertion sort in place. */
    method SortLocked()
      requires Valid()
      modifies backing
      ensures Entries() == StableSort(old(Entries()))
      ensures forall i :: len <= i < backing.Length ==> backing[i] == old(backing[i])
    {
      ghost var was := Entries();
      for i := 0 to len
        invariant backing[..i] == StableSort(was[..i])
        invariant forall k :: i <= k < backing.Length ==> backing[k] == old(backing[k])
      {
        SortSnoc(was[..i], was[i]);
        assert was[..i + 1] == was[..i] + [was[i]];
        SinkEntry(i);
      }
      assert was[..len] == was;
    }

    method Add(task: Task, sess: Sess) returns (primary: bool)
      requires Valid() && OldestFirst(Entries())
      modifies this, backing
      ensures Valid() && (backing == old(backing) || fresh(backing))
      ensures Now() == AddSpec(old(Now()), task, sess)
      ensures primary <==> !HasTask(old(Entries()), task.id) && Entries() != [] && Entries()[0].task.id == task.id
    {
      handed := handed + {sess};
      for i := 0 to len
        invariant forall k :: 0 <= k < i ==> Entries()[k].task.id != task.id
      {
        if backing[i].task.id == task.id {
          assert Entries()[i].task.id == task.id;
          closed := closed + {sess};
          return false;
        }
      }
      ghost var was := Entries();
      Append(Attached(task, sess));
      SortLocked();
      SortAppended(was, Attached(task, sess));
      primary := backing[0].task.id == task.id;
    }

    /** Decides and compacts in one critical section; the vacated tail is cleared. */
    method DropLocked(drop: Attached -> bool) returns (removed: seq<Attached>, wentAway: string, promoted: string)
      requires Valid()
      modifies this`len, backing
      ensures Valid()
      ensures Entries() == Filter(old(Entries()), Not(drop))
      ensures removed == Filter(old(Entries()), drop)
      ensures forall i :: len <= i < old(len) ==> backing[i] == ZERO
      ensures forall i :: old(len) <= i < backing.Length ==> backing[i] == old(backing[i])
      ensures Entries() == [] || Entries()[0].task.id == old(Entries())[0].task.id ==> wentAway == promoted == ""
      ensures Entries() != [] && Entries()[0].task.id != old(Entries())[0].task.id ==>
                wentAway == old(Entries())[0].task.id && promoted == Entries()[0].task.id
    {
      var n := len;
      var was := "";
      if n > 0 {
        was := backing[0].task.id;
      }
      var kept;
      removed, kept := Compact(drop);
      ClearTail(kept);
      len := kept;
      wentAway, promoted := "", "";
      if len > 0 && backing[0].task.id != was {
        wentAway, promoted := was, backing[0].task.id;
      }
    }

    /** Slides the entries to keep to the front, in order. */
    method Compact(drop: Attached -> bool) returns (removed: seq<Attached>, kept: nat)
      requires Valid()
      modifies backing
      ensures kept <= len && backing[..kept] == Filter(old(Entries()), Not(drop))
      ensures removed == Filter(old(Entries()), drop)
      ensures forall k :: len <= k < backing.Length ==> backing[k] == old(backing[k])
    {
      ghost var es := Entries();
      removed := [];
      kept := 0;
      for i := 0 to len
        invariant 0 <= kept <= i && Split(es, i, drop, backing[..kept], removed)
        invariant forall k :: i <= k < backing.Length ==> backing[k] == old(backing[k])
      {
        var e := backing[i];
        assert e == es[i];
        SplitOneMore(es, i, drop, backing[..kept], removed);
        if drop(e) {
          removed := removed + [e];
        } else {
          MoveDown(kept, i);
          kept := kept + 1;
        }
      }
      SplitAll(es, drop, backing[..kept], removed);
    }

    method MoveDown(to: nat, from: nat)
      requires Valid() && to <= from < len
      modifies backing
      ensures backing[..to + 1] == old(backing[..to]) + [old(backing[from])]
      ensures forall k :: from < k < backing.Length ==> backing[k] == old(backing[k])
    {
      backing[to] := backing[from];
    }

    /** Clears what the filter leaves behind, so no dropped session stays reachable. */
    method ClearTail(kept: nat)
      requires Valid() && kept <= len
      modifies backing
      ensures forall k :: kept <= k < len ==> backing[k] == ZERO
      ensures forall k :: 0 <= k < backing.Length && !(kept <= k < len) ==> backing[k] == old(backing[k])
      ensures backing[..kept] == old(backing[..kept])
    {
      for i := kept to len
        invariant forall k :: kept <= k < i ==> backing[k] == ZERO
        invariant forall k :: 0 <= k < backing.Length && !(kept <= k < i) ==> backing[k] == old(backing[k])
      {
        backing[i] := ZERO;
      }
    }

    ghost method CloseAll(es: seq<Attached>)
      modifies this`closed
      ensures closed == old(closed) + SessionsOf(es)
    {
      closed := closed + SessionsOf(es);
    }

    method Remove(id: string) returns (existed: bool)
      requires Valid()
      modifies this`len, this`closed, backing
      ensures Valid() && Now() == Step(old(Now()), Op.Remove(id))
      ensures existed <==> HasTask(old(Entries()), id)
    {
      RemovesSomething(Entries(), id);
      var removed, wentAway, to := DropLocked(DropOf(Op.Remove(id)));
      CloseAll(removed);
      existed := |removed| != 0;
    }

    method Retain(live: set<string>) returns (dropped: seq<string>)
      requires Valid()
      modifies this`len, this`closed, backing
      ensures Valid() && Now() == Step(old(Now()), Op.Retain(live))
      ensures dropped == Ids(Filter(old(Entries()), DropOf(Op.Retain(live))))
    {
      var removed, wentAway, to := DropLocked(DropOf(Op.Retain(live)));
      CloseAll(removed);
      dropped := CollectIds(removed);
    }

    method Reap(done: set<Sess>) returns (dead: seq<string>)
      requires Valid()
      modifies this`len, this`closed, backing
      ensures Valid() && Now() == Step(old(Now()), Op.Reap(done))
      ensures dead == Ids(Filter(old(Entries()), DropOf(Op.Reap(done))))
    {
      var removed, wentAway, to := DropLocked(DropOf(Op.Reap(done)));
      CloseAll(removed);
      dead := CollectIds(removed);
    }

    method Close()
      requires Valid()
      modifies this
      ensures Valid() && fresh(backing) && Now() == Step(old(Now()), Op.Close)
    {
      FilterAll(Entries(), DropOf(Op.Close));
      CloseAll(Entries());
      backing, len := new Attached[0](_ => ZERO), 0;
    }

    method Has(id: string) returns (has: bool)
      requires Valid()
      ensures has <==> HasTask(Entries(), id)
    {
      for i := 0 to len
        invariant forall k :: 0 <= k < i ==> Entries()[k].task.id != id
      {
        if backing[i].task.id == id {
          assert Entries()[i].task.id == id;
          return true;
        }
      }
      return false;
    }

    /** The oldest attached session that is still alive. */
    method Primary(done: set<Sess>) returns (p: Option<Sess>)
      requires Valid()
      ensures p.None? <==> forall i :: 0 <= i < len ==> Entries()[i].sess in done
      ensures p.Some? ==> exists i :: 0 <= i < len && Entries()[i].sess == p.value && p.value !in done &&
                                      forall k :: 0 <= k < i ==> Entries()[k].sess in done
    {
      for i := 0 to len
        invariant forall k :: 0 <= k < i ==> Entries()[k].sess in done
      {
        if backing[i].sess !in done {
          assert Entries()[i].sess !in done;
          return Some(backing[i].sess);
        }
      }
      return None;
    }
  }

  function Ids(es: seq<Attached>): (r: seq<string>) {
    seq(|es|, i requires 0 <= i < |es| => es[i].task.id)
  }

  method CollectIds(es: seq<Attached>) returns (ids: seq<string>)
    ensures ids == Ids(es)
  {
    ids := [];
    for i := 0 to |es|
      invariant ids == Ids(es[..i])
    {
      ids := ids + [es[i].task.id];
    }
  }

  // ----------------------------------------------------- sorting and filtering

  lemma {:induction false} InsertPosition(es: seq<Attached>, x: Attached, j: nat)
    requires j <= |es|
    requires j > 0 ==> es[j - 1].task.startedAt <= x.task.startedAt
    requires forall k :: j <= k < |es| ==> x.task.startedAt < es[k].task.startedAt
    ensures InsertByStart(es, x) == es[..j] + [x] + es[j..]
  {
    if j < |es| {
      var n := |es| - 1;
      InsertPosition(es[..n], x, j);
      assert es[j..] == es[j..n] + [es[n]];
      assert es[..n][..j] == es[..j] && es[..n][j..] == es[j..n];
    }
  }

  lemma SortSnoc(es: seq<Attached>, x: Attached)
    ensures StableSort(es + [x]) == InsertByStart(StableSort(es), x)
  {
    assert (es + [x])[..|es|] == es;
  }

  lemma InsertLast(es: seq<Attached>, x: Attached)
    requires OldestFirst(es + [x])
    ensures InsertByStart(es, x) == es + [x] && OldestFirst(es)
  {
    var all := es + [x];
    assert forall i :: 0 <= i < |es| ==> es[i] == all[i];
    assert all[|es|] == x;
  }

  lemma {:induction false} SortOfSorted(es: seq<Attached>)
    requires OldestFirst(es)
    ensures StableSort(es) == es
  {
    if es != [] {
      var front, x := es[..|es| - 1], es[|es| - 1];
      assert es == front + [x];
      InsertLast(front, x);
      SortOfSorted(front);
      SortSnoc(front, x);
    }
  }

  lemma SortAppended(es: seq<Attached>, x: Attached)
    requires OldestFirst(es)
    ensures StableSort(es + [x]) == InsertByStart(es, x)
  {
    SortSnoc(es, x);
    SortOfSorted(es);
  }

  lemma {:induction false} InsertMembers(es: seq<Attached>, x: Attached)
    ensures multiset(InsertByStart(es, x)) == multiset(es) + multiset{x}
    ensures forall e :: e in InsertByStart(es, x) <==> e in es || e == x
  {
    if es != [] && es[|es| - 1].task.startedAt > x.task.startedAt {
      var front, last := es[..|es| - 1], es[|es| - 1];
      assert es == front + [last];
      InsertMembers(front, x);
      assert InsertByStart(es, x) == InsertByStart(front, x) + [last];
    }
  }

  lemma OrderedSnoc(es: seq<Attached>, x: Attached)
    requires OldestFirst(es) && forall e :: e in es ==> e.task.startedAt <= x.task.startedAt
    ensures OldestFirst(es + [x])
  {
    assert forall i :: 0 <= i < |es| ==> es[i] in es;
  }

  lemma {:induction false} InsertKeepsOrder(es: seq<Attached>, x: Attached)
    requires OldestFirst(es)
    ensures OldestFirst(InsertByStart(es, x))
  {
    if es == [] || es[|es| - 1].task.startedAt <= x.task.startedAt {
      OrderedSnoc(es, x);
    } else {
      var n := |es| - 1;
      assert forall i :: 0 <= i < n ==> es[..n][i] == es[i];
      InsertKeepsOrder(es[..n], x);
      InsertMembers(es[..n], x);
      OrderedSnoc(InsertByStart(es[..n], x), es[n]);
    }
  }

  function StartedAt(t: int): (p: Attached -> bool) {
    (e: Attached) => e.task.startedAt == t
  }

  /** The sort is a sort: ordered, a permutation, and equal start times keep their order. */
  lemma {:induction false} StableSortSorts(es: seq<Attached>, t: int)
    ensures OldestFirst(StableSort(es))
    ensures multiset(StableSort(es)) == multiset(es)
    ensures Filter(StableSort(es), StartedAt(t)) == Filter(es, StartedAt(t))
  {
    if es != [] {
      var n := |es| - 1;
      assert es == es[..n] + [es[n]];
      StableSortSorts(es[..n], t);
      InsertKeepsOrder(StableSort(es[..n]), es[n]);
      InsertMembers(StableSort(es[..n]), es[n]);
      InsertIsStable(StableSort(es[..n]), es[n], t);
    }
  }

  lemma {:induction false} InsertIsStable(es: seq<Attached>, x: Attached, t: int)
    requires OldestFirst(es)
    ensures Filter(InsertByStart(es, x), StartedAt(t)) ==
            Filter(es, StartedAt(t)) + if x.task.startedAt == t then [x] else []
  {
    var p := StartedAt(t);
    if es == [] || es[|es| - 1].task.startedAt <= x.task.startedAt {
      FilterSnoc(es, x, p);
    } else {
      var front, last := es[..|es| - 1], es[|es| - 1];
      assert es == front + [last];
      InsertIsStable(front, x, t);
      FilterSnoc(front, last, p);
      FilterSnoc(InsertByStart(front, x), last, p);
      TailOrder(Filter(front, p), x, last, t);
    }
  }

  /** last is younger than x, so they cannot both have started at t. */
  lemma TailOrder(f: seq<Attached>, x: Attached, last: Attached, t: int)
    requires x.task.startedAt < last.task.startedAt
    ensures f + (if x.task.startedAt == t then [x] else []) + (if StartedAt(t)(last) then [last] else []) ==
            f + (if StartedAt(t)(last) then [last] else []) + (if x.task.startedAt == t then [x] else [])
  {
  }

  lemma FilterSnoc(es: seq<Attached>, x: Attached, p: Attached -> bool)
    ensures Filter(es + [x], p) == Filter(es, p) + if p(x) then [x] else []
  {
    assert (es + [x])[..|es|] == es;
  }

  lemma FilterStep(es: seq<Attached>, i: nat, p: Attached -> bool)
    requires i < |es|
    ensures Filter(es[..i + 1], p) == if p(es[i]) then Filter(es[..i], p) + [es[i]] else Filter(es[..i], p)
  {
    FilterSnoc(es[..i], es[i], p);
    assert es[..i + 1] == es[..i] + [es[i]];
  }

  /** The first i entries, taken apart. */
  ghost predicate Split(
    es: seq<Attached>, i: nat, drop: Attached -> bool, kept: seq<Attached>, removed: seq<Attached>)
  {
    i <= |es| && kept == Filter(es[..i], Not(drop)) && removed == Filter(es[..i], drop)
  }

  lemma SplitOneMore(es: seq<Attached>, i: nat, drop: Attached -> bool, kept: seq<Attached>, removed: seq<Attached>)
    requires i < |es| && Split(es, i, drop, kept, removed)
    ensures if drop(es[i]) then Split(es, i + 1, drop, kept, removed + [es[i]])
            else Split(es, i + 1, drop, kept + [es[i]], removed)
  {
    FilterStep(es, i, drop);
    FilterStep(es, i, Not(drop));
  }

  lemma SplitAll(es: seq<Attached>, drop: Attached -> bool, kept: seq<Attached>, removed: seq<Attached>)
    requires Split(es, |es|, drop, kept, removed)
    ensures kept == Filter(es, Not(drop)) && removed == Filter(es, drop)
  {
    assert es[..|es|] == es;
  }

  lemma {:induction false} FilterMembers(es: seq<Attached>, p: Attached -> bool)
    ensures forall e :: e in Filter(es, p) <==> e in es && p(e)
  {
    if es != [] {
      FilterMembers(es[..|es| - 1], p);
      assert es == es[..|es| - 1] + [es[|es| - 1]];
    }
  }

  lemma RemovesSomething(es: seq<Attached>, id: string)
    ensures Filter(es, DropOf(Op.Remove(id))) != [] <==> HasTask(es, id)
  {
    var f := Filter(es, DropOf(Op.Remove(id)));
    FilterMembers(es, DropOf(Op.Remove(id)));
    if f != [] {
      assert f[0] in f;
    }
    assert forall i :: 0 <= i < |es| && es[i].task.id == id ==> es[i] in f;
  }

  lemma {:induction false} FilterAll(es: seq<Attached>, p: Attached -> bool)
    requires forall e :: p(e)
    ensures Filter(es, p) == es && Filter(es, Not(p)) == []
  {
    if es != [] {
      FilterAll(es[..|es| - 1], p);
      assert es == es[..|es| - 1] + [es[|es| - 1]];
    }
  }

  lemma {:induction false} FilterNone(es: seq<Attached>, p: Attached -> bool)
    requires forall k :: 0 <= k < |es| ==> !p(es[k])
    ensures Filter(es, p) == []
  {
    if es != [] {
      FilterNone(es[..|es| - 1], p);
    }
  }

  /** The last entry may follow any of the others. */
  lemma LastFollows(es: seq<Attached>, f: seq<Attached>)
    requires es != [] && forall e :: e in f ==> e in es[..|es| - 1]
    ensures OldestFirst(es) && OldestFirst(f) ==> OldestFirst(f + [es[|es| - 1]])
    ensures Distinct(es) && Distinct(f) ==> Distinct(f + [es[|es| - 1]])
  {
    var n := |es| - 1;
    var g := f + [es[n]];
    forall i | 0 <= i < |f|
      ensures OldestFirst(es) ==> g[i].task.startedAt <= es[n].task.startedAt
      ensures Distinct(es) ==> g[i].task.id != es[n].task.id && g[i].sess != es[n].sess
    {
      assert f[i] in f;
      var k :| 0 <= k < n && es[..n][k] == f[i];
      assert es[k] == f[i];
    }
  }

  /** Filtering keeps order, so anything true of every ordered pair stays true. */
  lemma {:induction false} FilterKeepsPairs(es: seq<Attached>, p: Attached -> bool)
    ensures OldestFirst(es) ==> OldestFirst(Filter(es, p))
    ensures Distinct(es) ==> Distinct(Filter(es, p))
  {
    if es != [] {
      var front := es[..|es| - 1];
      FilterKeepsPairs(front, p);
      FilterMembers(front, p);
      LastFollows(es, Filter(front, p));
    }
  }

  // ------------------------------------------------------------ conservation

  ghost predicate Distinct(es: seq<Attached>) {
    forall i, j :: 0 <= i < j < |es| ==> es[i].task.id != es[j].task.id && es[i].sess != es[j].sess
  }

  /**
   Oldest first, one entry per task and per session, and every session ever
   handed over is either in exactly one entry or closed, never both.
   */
  ghost predicate Conserved(s: State) {
    && OldestFirst(s.entries)
    && Distinct(s.entries)
    && SessionsOf(s.entries) !! s.closed
    && SessionsOf(s.entries) + s.closed == s.handed
  }

  lemma SessionsOfMembers(es: seq<Attached>)
    ensures forall x :: x in SessionsOf(es) <==> exists e :: e in es && e.sess == x
  {
    forall x | x in SessionsOf(es)
      ensures exists e :: e in es && e.sess == x
    {
      var i :| 0 <= i < |es| && es[i].sess == x;
      assert es[i] in es;
    }
  }

  lemma AddConserves(s: State, task: Task, sess: Sess)
    requires Conserved(s) && sess !in s.handed
    ensures Conserved(AddSpec(s, task, sess))
  {
    if !HasTask(s.entries, task.id) {
      var x := Attached(task, sess);
      var es := InsertByStart(s.entries, x);
      InsertKeepsOrder(s.entries, x);
      InsertMembers(s.entries, x);
      SessionsOfMembers(s.entries);
      SessionsOfMembers(es);
      InsertDistinct(s.entries, x);
    }
  }

  lemma DistinctSnoc(es: seq<Attached>, x: Attached)
    requires Distinct(es) && forall e :: e in es ==> e.task.id != x.task.id && e.sess != x.sess
    ensures Distinct(es + [x])
  {
    assert forall i :: 0 <= i < |es| ==> es[i] in es;
  }

  lemma {:induction false} InsertDistinct(es: seq<Attached>, x: Attached)
    requires Distinct(es) && forall e :: e in es ==> e.task.id != x.task.id && e.sess != x.sess
    ensures Distinct(InsertByStart(es, x))
  {
    if es == [] || es[|es| - 1].task.startedAt <= x.task.startedAt {
      DistinctSnoc(es, x);
    } else {
      var n := |es| - 1;
      assert forall i :: 0 <= i < n ==> es[..n][i] == es[i];
      InsertDistinct(es[..n], x);
      InsertMembers(es[..n], x);
      assert es[n] in es;
      DistinctSnoc(InsertByStart(es[..n], x), es[n]);
    }
  }

  lemma DropConserves(s: State, drop: Attached -> bool)
    requires Conserved(s)
    ensures Conserved(DropSpec(s, drop))
  {
    var kept, removed := Filter(s.entries, Not(drop)), Filter(s.entries, drop);
    FilterKeepsPairs(s.entries, Not(drop));
    FilterMembers(s.entries, Not(drop));
    FilterMembers(s.entries, drop);
    SessionsOfMembers(s.entries);
    SessionsOfMembers(kept);
    SessionsOfMembers(removed);
  }

  /** Over every sequence of operations no session is lost, duplicated or left open. */
  lemma {:induction false} SessionsConserved(ops: seq<Op>)
    ensures Conserved(Run(ops))
  {
    if ops != [] {
      var s, op := Run(ops[..|ops| - 1]), ops[|ops| - 1];
      SessionsConserved(ops[..|ops| - 1]);
      if op.Add? {
        if op.sess !in s.handed {
          AddConserves(s, op.task, op.sess);
        }
      } else {
        DropConserves(s, DropOf(op));
      }
    }
  }

  /** After Close nothing is held and everything ever handed over has been closed. */
  lemma CloseClosesEverything(ops: seq<Op>)
    ensures Run(ops + [Op.Close]).entries == [] && Run(ops + [Op.Close]).closed == Run(ops).handed
  {
    assert (ops + [Op.Close])[..|ops|] == ops;
    SessionsConserved(ops);
    FilterAll(Run(ops).entries, DropOf(Op.Close));
  }

  /** A task attached later moves the primary only if it started strictly before every other. */
  lemma {:induction false} PrimaryMovesOnlyForOlder(es: seq<Attached>, x: Attached)
    requires OldestFirst(es)
    ensures InsertByStart(es, x) != []
    ensures InsertByStart(es, x)[0] == if es == [] || x.task.startedAt < es[0].task.startedAt then x else es[0]
  {
    if es != [] && es[|es| - 1].task.startedAt > x.task.startedAt {
      PrimaryMovesOnlyForOlder(es[..|es| - 1], x);
    }
  }

  /** A primary that is not dropped stays; otherwise the oldest survivor is promoted. */
  lemma {:induction false} PromotesOldestSurvivor(es: seq<Attached>, drop: Attached -> bool, i: nat)
    requires i < |es| && !drop(es[i])
    requires forall k :: 0 <= k < i ==> drop(es[k])
    ensures Filter(es, Not(drop)) != [] && Filter(es, Not(drop))[0] == es[i]
  {
    var n := |es| - 1;
    if i < n {
      PromotesOldestSurvivor(es[..n], drop, i);
    } else {
      FilterNone(es[..n], Not(drop));
    }
  }

  /** What is proved of Run is true of the set: any operations drive it to that state. */
  method Drive(ops: seq<Op>) returns (sessions: SessionSet)
    ensures sessions.Valid() && sessions.Now() == Run(ops)
  {
    sessions := new SessionSet();
    var given: set<Sess> := {};
    for i := 0 to |ops|
      invariant fresh(sessions) && fresh(sessions.backing) && sessions.Valid()
      invariant sessions.Now() == Run(ops[..i]) && sessions.handed == given
    {
      assert ops[..i + 1][..i] == ops[..i];
      SessionsConserved(ops[..i]);
      match ops[i] {
        case Add(task, sess) =>
          if sess !in given {
            var _ := sessions.Add(task, sess);
            given := given + {sess};
          }
        case Remove(id) => var _ := sessions.Remove(id);
        case Retain(live) => var _ := sessions.Retain(live);
        case Reap(done) => var _ := sessions.Reap(done);
        case Close => sessions.Close();
      }
    }
    assert ops[..|ops|] == ops;
  }
}
