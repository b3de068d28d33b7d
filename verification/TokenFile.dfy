/**
 The personal configuration file and its steal token (internal/config/personal.go):
 any number of `tetherd` processes create, read, backfill and rotate it at the
 same time. One step is one system call; the steps of all processes interleave.
 */
module TokenFile {
  import opened Optional

  type Pid = nat

  /** A token; 0 is the empty string. */
  type Token = nat

  /** Everything in the file but the token. */
  datatype Fields = Fields(user: string, aws: string)

  datatype Personal = Personal(fields: Fields, token: Token)

  /** An empty file decodes as an empty configuration. */
  const EMPTY := Personal(Fields("", ""), 0)

  datatype File = Missing | Malformed | Doc(p: Personal)

  datatype Job = EnsurePersonal | RotateToken

  /** rotating tells RotateToken's locked section from ensureToken's, which is otherwise the same. */
  datatype Pc =
    | Decode(tries: nat)
    | Link(p: Personal)
    | ReadBack
    | OpenFile(rotating: bool)
    | Lock(rotating: bool)
    | ReRead(rotating: bool)
    | Truncate(rotating: bool, p: Personal)
    | WriteBody(rotating: bool, p: Personal)
    | Unlock(rotating: bool, p: Personal)
    | Returned(p: Personal)
    | Failed

  /** since: how many of the contents the file ever held were gone when the call began. */
  datatype Proc = Proc(job: Job, user: string, pc: Pc, since: int)

  /**
   held: everything with a token the file has held, in order. fields: what the file
   says apart from its token, once it exists.
   */
  datatype State = State(
    file: File,
    lock: Option<Pid>,
    procs: map<Pid, Proc>,
    held: seq<Personal>,
    fields: Option<Fields>)

  const ATTEMPTS := 5

  function OnDisk(f: File): (r: Token) {
    if f.Doc? then f.p.token else 0
  }

  function Start(file: File): (r: State) {
    State(
      file, None, map[], if OnDisk(file) != 0 then [file.p] else [],
      if file.Doc? then Some(file.p.fields) else None)
  }

  /** mint: the token a step draws if it needs one. fails: the system call reports an error. */
  datatype Event = Begin(pid: Pid, job: Job, user: string) | Go(pid: Pid, mint: Token, fails: bool)

  function Move(s: State, pid: Pid, pc: Pc): (r: State)
    requires pid in s.procs
  {
    s.(procs := s.procs[pid := s.procs[pid].(pc := pc)])
  }

  /** What EnsurePersonal's caller does with its result: return it, or go on to rotate. */
  function Ensured(job: Job, p: Personal): (r: Pc) {
    if job == EnsurePersonal then Returned(p) else OpenFile(true)
  }

  function Put(s: State, p: Personal): (r: State) {
    s.(file := Doc(p), held := if p.token != 0 then s.held + [p] else s.held)
  }

  /**
   A failed call, or the process being killed, ends the attempt and releases the
   lock. After a truncation it leaves the file empty, and its fields are gone.
   */
  function Abort(s: State, pid: Pid): (r: State)
    requires pid in s.procs
  {
    Move(s.(lock := if s.lock == Some(pid) then None else s.lock,
            fields := if s.procs[pid].pc.WriteBody? then Some(EMPTY.fields) else s.fields), pid, Failed)
  }

  function GoStep(s: State, pid: Pid, mint: Token): (r: State)
    requires pid in s.procs && mint != 0
  {
    var k := s.procs[pid];
    match k.pc
    case Decode(tries) =>
      if s.file.Missing? then Move(s, pid, Link(Personal(Fields(k.user, ""), mint)))
      else if s.file.Doc? && s.file.p.token != 0 then Move(s, pid, Ensured(k.job, s.file.p))
      else if tries + 1 < ATTEMPTS then Move(s, pid, Decode(tries + 1))
      else if s.file.Malformed? then Abort(s, pid)
      else Move(s, pid, OpenFile(false))
    case Link(p) =>
      if s.file.Missing? then Move(Put(s.(fields := Some(p.fields)), p), pid, Ensured(k.job, p))
      else Move(s, pid, ReadBack)
    case ReadBack =>
      if s.file.Doc? && s.file.p.token != 0 then Move(s, pid, Ensured(k.job, s.file.p)) else Abort(s, pid)
    case OpenFile(rotating) =>
      if s.file.Missing? then Abort(s, pid) else Move(s, pid, Lock(rotating))
    case Lock(rotating) =>
      if s.lock.None? then Move(s.(lock := Some(pid)), pid, ReRead(rotating)) else s
    case ReRead(rotating) =>
      if !s.file.Doc? then Abort(s, pid)
      else if !rotating && s.file.p.token != 0 then Move(s, pid, Unlock(rotating, s.file.p))
      else Move(s, pid, Truncate(rotating, s.file.p.(token := mint)))
    case Truncate(rotating, p) => Move(s.(file := Doc(EMPTY)), pid, WriteBody(rotating, p))
    case WriteBody(rotating, p) => Move(Put(s, p), pid, Unlock(rotating, p))
    case Unlock(rotating, p) =>
      Move(s.(lock := None), pid, if rotating then Returned(p) else Ensured(k.job, p))
    case _ => s
  }

  predicate MayFail(pc: Pc) {
    !pc.Returned? && !pc.Failed?
  }

  function Step(s: State, e: Event): (r: State) {
    match e
    case Begin(pid, job, user) =>
      if pid in s.procs then s
      else s.(procs := s.procs[pid := Proc(job, user, Decode(0), Current(s))])
    case Go(pid, mint, fails) =>
      if pid !in s.procs || mint == 0 then s
      else if fails then if MayFail(s.procs[pid].pc) then Abort(s, pid) else s
      else GoStep(s, pid, mint)
  }

  function Run(file: File, events: seq<Event>): (r: State) {
    if events == [] then Start(file) else Step(Run(file, events[..|events| - 1]), events[|events| - 1])
  }

  // -------------------------------------------------------------- invariants

  predicate InLock(pc: Pc) {
    pc.ReRead? || pc.Truncate? || pc.WriteBody? || pc.Unlock?
  }

  /** Index of the first content that is, or may still become, current. */
  function Current(s: State): (r: int) {
    if OnDisk(s.file) != 0 then |s.held| - 1 else |s.held|
  }

  ghost predicate HeldSince(s: State, p: Personal, since: int) {
    exists i :: 0 <= i < |s.held| && since <= i && s.held[i] == p
  }

  /** A process about to hand out p: the file held exactly that during the call. */
  ghost predicate Backed(s: State, p: Personal, since: int) {
    p.token != 0 && HeldSince(s, p, since)
  }

  ghost predicate ProcInv(s: State, pid: Pid, k: Proc) {
    && 0 <= k.since <= Current(s)
    && (InLock(k.pc) <==> s.lock == Some(pid))
    && (InLock(k.pc) && !k.pc.ReRead? ==> s.file.Doc?)
    && (k.pc.Link? ==> k.pc.p.token != 0)
    && (k.pc.WriteBody? ==> s.file == Doc(EMPTY))
    && (k.pc.Truncate? || k.pc.WriteBody? ==> k.pc.p.token != 0 && s.fields == Some(k.pc.p.fields))
    && (k.pc.Unlock? || k.pc.Returned? ==> Backed(s, k.pc.p, k.since))
  }

  /** The file says what it always said, except while the lock holder is between truncating and writing. */
  ghost predicate FileInv(s: State) {
    && (OnDisk(s.file) != 0 ==> s.held != [] && s.held[|s.held| - 1] == s.file.p)
    && (s.fields.Some? <==> s.file.Doc?)
    && (s.lock.Some? ==> s.lock.value in s.procs)
    && (s.file.Doc? ==>
          || s.fields == Some(s.file.p.fields)
          || (s.lock.Some? && s.lock.value in s.procs && s.procs[s.lock.value].pc.WriteBody? && s.file.p == EMPTY))
  }

  ghost predicate Inv(s: State) {
    FileInv(s) && forall pid :: pid in s.procs ==> ProcInv(s, pid, s.procs[pid])
  }

  /** What another process's step may change around a process without breaking its half of the invariant. */
  lemma OthersKeep(s: State, s': State, pid: Pid)
    requires Inv(s) && pid in s.procs && s'.procs.Keys == s.procs.Keys
    requires forall q :: q in s.procs && q != pid ==> s'.procs[q] == s.procs[q]
    requires s.held <= s'.held && Current(s) <= Current(s')
    requires s.file.Doc? && s.lock.Some? && s.lock != Some(pid) ==> s'.file == s.file
    requires s.file.Doc? ==> s'.file.Doc? && (s'.fields == s.fields || s.lock == Some(pid))
    requires s'.lock == s.lock || (s.lock == Some(pid) && s'.lock == None) || (s.lock == None && s'.lock == Some(pid))
    ensures forall q :: q in s.procs && q != pid ==> ProcInv(s', q, s'.procs[q])
  {
    forall q | q in s.procs && q != pid
      ensures ProcInv(s', q, s'.procs[q])
    {
      assert ProcInv(s, q, s.procs[q]);
      var pc := s.procs[q].pc;
      if pc.Unlock? || pc.Returned? {
        StillHeld(s, s', pc.p, s.procs[q].since);
      }
    }
  }

  lemma StillHeld(s: State, s': State, p: Personal, since: int)
    requires HeldSince(s, p, since) && s.held <= s'.held
    ensures HeldSince(s', p, since)
  {
    var i :| 0 <= i < |s.held| && since <= i && s.held[i] == p;
    assert s'.held[i] == p;
  }

  lemma ReadingKeeps(s: State, pid: Pid, mint: Token)
    requires Inv(s) && pid in s.procs && mint != 0
    requires s.procs[pid].pc.Decode? || s.procs[pid].pc.ReadBack?
    ensures Inv(GoStep(s, pid, mint))
  {
    var s', k := GoStep(s, pid, mint), s.procs[pid];
    assert ProcInv(s, pid, k);
    ReadIsBacked(s, s', k.since);
    OthersKeep(s, s', pid);
  }

  lemma OpeningKeeps(s: State, pid: Pid, mint: Token)
    requires Inv(s) && pid in s.procs && mint != 0
    requires s.procs[pid].pc.OpenFile? || s.procs[pid].pc.Lock?
    ensures Inv(GoStep(s, pid, mint))
  {
    assert ProcInv(s, pid, s.procs[pid]);
    OthersKeep(s, GoStep(s, pid, mint), pid);
  }

  lemma LockedKeeps(s: State, pid: Pid, mint: Token)
    requires Inv(s) && pid in s.procs && mint != 0
    requires var pc := s.procs[pid].pc; pc.ReRead? || pc.Truncate? || pc.Unlock?
    ensures Inv(GoStep(s, pid, mint))
  {
    var s', k := GoStep(s, pid, mint), s.procs[pid];
    assert ProcInv(s, pid, k);
    ReadIsBacked(s, s', k.since);
    OthersKeep(s, s', pid);
  }

  lemma WritingKeeps(s: State, pid: Pid, mint: Token)
    requires Inv(s) && pid in s.procs && mint != 0
    requires var pc := s.procs[pid].pc; pc.Link? || pc.WriteBody?
    ensures Inv(GoStep(s, pid, mint))
  {
    var s', k := GoStep(s, pid, mint), s.procs[pid];
    assert ProcInv(s, pid, k);
    PutIsBacked(s, s', k.pc.p, k.since);
    OthersKeep(s, s', pid);
  }

  lemma AbortKeeps(s: State, pid: Pid)
    requires Inv(s) && pid in s.procs && MayFail(s.procs[pid].pc)
    ensures Inv(Abort(s, pid))
  {
    assert ProcInv(s, pid, s.procs[pid]);
    OthersKeep(s, Abort(s, pid), pid);
  }

  lemma BeginKeeps(s: State, e: Event)
    requires Inv(s) && e.Begin?
    ensures Inv(Step(s, e))
  {
    var s' := Step(s, e);
    if e.pid !in s.procs {
      forall q | q in s'.procs
        ensures ProcInv(s', q, s'.procs[q])
      {
        if q != e.pid {
          assert ProcInv(s, q, s.procs[q]);
          if s.procs[q].pc.Unlock? || s.procs[q].pc.Returned? {
            StillHeld(s, s', s.procs[q].pc.p, s.procs[q].since);
          }
        }
      }
    }
  }

  lemma StepKeeps(s: State, e: Event)
    requires Inv(s)
    ensures Inv(Step(s, e))
  {
    match e {
      case Begin(_, _, _) => BeginKeeps(s, e);
      case Go(pid, mint, fails) =>
        if pid in s.procs && mint != 0 {
          var pc := s.procs[pid].pc;
          if fails {
            if MayFail(pc) {
              AbortKeeps(s, pid);
            }
          } else if pc.Link? || pc.WriteBody? {
            WritingKeeps(s, pid, mint);
          } else if pc.ReRead? || pc.Truncate? || pc.Unlock? {
            LockedKeeps(s, pid, mint);
          } else if pc.OpenFile? || pc.Lock? {
            OpeningKeeps(s, pid, mint);
          } else if !pc.Returned? && !pc.Failed? {
            ReadingKeeps(s, pid, mint);
          }
        }
    }
  }

  lemma {:induction false} RunKeeps(file: File, events: seq<Event>)
    ensures Inv(Run(file, events))
  {
    if events != [] {
      RunKeeps(file, events[..|events| - 1]);
      StepKeeps(Run(file, events[..|events| - 1]), events[|events| - 1]);
    }
  }

  /** A token read off the disk is the latest the file was given, with what stood beside it. */
  lemma ReadIsBacked(s: State, s': State, since: int)
    requires FileInv(s) && since <= Current(s) && s'.held == s.held
    ensures OnDisk(s.file) != 0 ==> HeldSince(s', s.file.p, since)
  {
  }

  lemma PutIsBacked(s: State, s': State, p: Personal, since: int)
    requires since <= Current(s)
    ensures s'.held == s.held + [p] ==> HeldSince(s', p, since)
  {
    if s'.held == s.held + [p] {
      assert s'.held[|s.held|] == p;
    }
  }

  // ---------------------------------------------------------------- theorems

  /**
   In every interleaving of creations, backfills and rotations, whatever fails and
   whoever is killed, what a call returned - the token and every other field - was
   on disk, as one, at some instant of that call.
   */
  lemma ReturnedTokenWasOnDisk(file: File, events: seq<Event>, pid: Pid)
    ensures var s := Run(file, events);
            pid in s.procs && s.procs[pid].pc.Returned? ==>
              s.procs[pid].pc.p.token != 0 && HeldSince(s, s.procs[pid].pc.p, s.procs[pid].since)
  {
    RunKeeps(file, events);
  }

  /** Once no one holds the lock, the file on disk has the fields on record. */
  lemma FileSettles(file: File, events: seq<Event>)
    ensures var s := Run(file, events);
            s.lock == None && s.file.Doc? ==> s.fields == Some(s.file.p.fields)
  {
    RunKeeps(file, events);
  }

  /** A process fails, or is killed, between truncating a file that said something and writing it again. */
  predicate LosesFields(s: State, e: Event) {
    && e.Go? && e.fails && e.mint != 0 && e.pid in s.procs && s.procs[e.pid].pc.WriteBody?
    && s.procs[e.pid].pc.p.fields != EMPTY.fields
  }

  /** Exactly one kind of step changes the file's other fields. */
  lemma FieldsLostExactlyWhen(s: State, e: Event)
    requires Inv(s) && s.file.Doc?
    ensures Step(s, e).file.Doc?
    ensures Step(s, e).fields == s.fields <==> !LosesFields(s, e)
    ensures LosesFields(s, e) ==> Step(s, e).file == Doc(EMPTY) && Step(s, e).lock == None
  {
    if e.Go? && e.pid in s.procs {
      assert ProcInv(s, e.pid, s.procs[e.pid]);
    }
  }

  predicate LostAt(file: File, events: seq<Event>, later: seq<Event>, k: nat)
    requires k < |later|
  {
    LosesFields(Run(file, events + later[..k]), later[k])
  }

  ghost predicate LostNowhere(file: File, events: seq<Event>, later: seq<Event>) {
    forall k :: 0 <= k < |later| ==> !LostAt(file, events, later, k)
  }

  lemma LostNowhereBefore(file: File, events: seq<Event>, later: seq<Event>)
    requires later != [] && LostNowhere(file, events, later)
    ensures LostNowhere(file, events, later[..|later| - 1])
  {
    var n := |later| - 1;
    forall k | 0 <= k < n
      ensures !LostAt(file, events, later[..n], k)
    {
      assert !LostAt(file, events, later, k);
      assert later[..n][..k] == later[..k];
    }
  }

  lemma RunSnoc(file: File, events: seq<Event>, later: seq<Event>)
    requires later != []
    ensures Run(file, events + later) == Step(Run(file, events + later[..|later| - 1]), later[|later| - 1])
  {
    assert (events + later)[..|events + later| - 1] == events + later[..|later| - 1];
  }

  lemma {:induction false} RecordedFieldsKept(file: File, events: seq<Event>, later: seq<Event>)
    requires Run(file, events).file.Doc? && LostNowhere(file, events, later)
    ensures Run(file, events + later).file.Doc? && Run(file, events + later).fields == Run(file, events).fields
  {
    if later == [] {
      assert events + later == events;
    } else {
      var before, e := later[..|later| - 1], later[|later| - 1];
      LostNowhereBefore(file, events, later);
      assert !LostAt(file, events, later, |later| - 1);
      RecordedFieldsKept(file, events, before);
      RunKeeps(file, events + before);
      FieldsLostExactlyWhen(Run(file, events + before), e);
      RunSnoc(file, events, later);
    }
  }

  /**
   Between any two instants at which nobody holds the lock, whatever was created,
   backfilled and rotated in between, every field on disk but the token is the same,
   unless a write was lost after its truncation.
   */
  lemma FieldsArePreserved(file: File, events: seq<Event>, later: seq<Event>)
    requires var s := Run(file, events); s.file.Doc? && s.lock == None
    requires Run(file, events + later).lock == None
    ensures Run(file, events + later).file.Doc?
    ensures LostNowhere(file, events, later) ==>
              Run(file, events + later).file.p.fields == Run(file, events).file.p.fields
  {
    FileStays(file, events, later);
    if LostNowhere(file, events, later) {
      RecordedFieldsKept(file, events, later);
      FileSettles(file, events);
      FileSettles(file, events + later);
    }
  }

  const NAMED := Personal(Fields("ann", "profile: dev"), 5)

  /** A rotation whose process is killed between the truncation and the write. */
  const LOSING: seq<Event> := [
    Begin(1, RotateToken, "ann"),
    Go(1, 6, false), Go(1, 6, false), Go(1, 6, false), Go(1, 6, false), Go(1, 6, false),
    Go(1, 6, true)
  ]

  function LosingPc(k: nat): (r: Pc) {
    match k
    case 1 => Decode(0)
    case 2 => OpenFile(true)
    case 3 => Lock(true)
    case 4 => ReRead(true)
    case 5 => Truncate(true, NAMED.(token := 6))
    case 6 => WriteBody(true, NAMED.(token := 6))
    case _ => Failed
  }

  ghost predicate LosingAt(s: State, k: nat) {
    && s.file == Doc(if k < 6 then NAMED else EMPTY)
    && (if k == 0 then s.procs == map[]
        else 1 in s.procs && s.procs[1].job == RotateToken && s.procs[1].pc == LosingPc(k))
    && s.lock == if 4 <= k <= 6 then Some(1) else None
  }

  lemma LosingStep(s: State, k: nat)
    requires k < |LOSING| && LosingAt(s, k)
    ensures LosingAt(Step(s, LOSING[k]), k + 1)
  {
  }

  lemma RunPrefix(file: File, events: seq<Event>, k: nat)
    requires k < |events|
    ensures Run(file, events[..k + 1]) == Step(Run(file, events[..k]), events[k])
  {
    assert events[..k + 1][..k] == events[..k];
  }

  lemma {:induction false} LosingRun(k: nat)
    requires k <= |LOSING|
    ensures LosingAt(Run(Doc(NAMED), LOSING[..k]), k)
  {
    if k > 0 {
      LosingRun(k - 1);
      RunPrefix(Doc(NAMED), LOSING, k - 1);
      LosingStep(Run(Doc(NAMED), LOSING[..k - 1]), k - 1);
    }
  }

  /** That does happen: the name and everything else in the file are gone, with nobody holding the lock. */
  lemma FieldsCanBeLost()
    ensures var s := Run(Doc(NAMED), LOSING); s.file == Doc(EMPTY) && s.lock == None
  {
    LosingRun(|LOSING|);
    assert LOSING[..|LOSING|] == LOSING;
  }

  /** A file that is there and well-formed stays so. */
  lemma {:induction false} FileStays(file: File, events: seq<Event>, later: seq<Event>)
    requires Run(file, events).file.Doc?
    ensures Run(file, events + later).file.Doc?
  {
    if later == [] {
      assert events + later == events;
    } else {
      var n := |later| - 1;
      FileStays(file, events, later[..n]);
      RunSnoc(file, events, later);
      RunKeeps(file, events + later[..n]);
      FieldsLostExactlyWhen(Run(file, events + later[..n]), later[n]);
    }
  }

  predicate NoRotation(events: seq<Event>) {
    forall i :: 0 <= i < |events| && events[i].Begin? ==> events[i].job == EnsurePersonal
  }

  /** A process that only ensures a token exists, and writes one only while there is none. */
  ghost predicate EnsuresOnly(k: Proc, held: seq<Personal>) {
    && k.job == EnsurePersonal
    && (k.pc.OpenFile? || k.pc.Lock? || InLock(k.pc) ==> !k.pc.rotating)
    && (k.pc.Truncate? || k.pc.WriteBody? ==> held == [])
  }

  /** Without rotation the file is given a token once and nothing takes it away again. */
  ghost predicate OneToken(s: State) {
    && (s.held == [] || (|s.held| == 1 && s.file == Doc(s.held[0]) && OnDisk(s.file) != 0))
    && forall pid :: pid in s.procs ==> EnsuresOnly(s.procs[pid], s.held)
  }

  lemma {:induction false} WithoutRotation(file: File, events: seq<Event>)
    requires NoRotation(events)
    ensures OneToken(Run(file, events))
  {
    if events != [] {
      var before, e := events[..|events| - 1], events[|events| - 1];
      WithoutRotation(file, before);
      RunKeeps(file, before);
      assert e.Begin? ==> e.job == EnsurePersonal;
      StepKeepsOneToken(Run(file, before), e);
    }
  }

  lemma StepKeepsOneToken(s: State, e: Event)
    requires Inv(s) && OneToken(s) && (e.Begin? ==> e.job == EnsurePersonal)
    ensures OneToken(Step(s, e))
  {
    if e.Go? && e.pid in s.procs && e.mint != 0 && !e.fails {
      assert ProcInv(s, e.pid, s.procs[e.pid]);
      if s.procs[e.pid].pc.Link? || s.procs[e.pid].pc.WriteBody? {
        WriteKeepsOneToken(s, e.pid, e.mint);
      } else {
        ReadKeepsOneToken(s, e.pid, e.mint);
      }
    }
  }

  lemma ReadKeepsOneToken(s: State, pid: Pid, mint: Token)
    requires Inv(s) && OneToken(s) && pid in s.procs && mint != 0
    requires !s.procs[pid].pc.Link? && !s.procs[pid].pc.WriteBody?
    ensures OneToken(GoStep(s, pid, mint))
  {
    var pc := s.procs[pid].pc;
    assert ProcInv(s, pid, s.procs[pid]);
    if InLock(pc) {
      LockedKeepsOneToken(s, pid, mint);
    }
  }

  lemma LockedKeepsOneToken(s: State, pid: Pid, mint: Token)
    requires Inv(s) && OneToken(s) && pid in s.procs && mint != 0
    requires var pc := s.procs[pid].pc; pc.ReRead? || pc.Truncate? || pc.Unlock?
    ensures OneToken(GoStep(s, pid, mint))
  {
    assert ProcInv(s, pid, s.procs[pid]);
  }

  lemma WriteKeepsOneToken(s: State, pid: Pid, mint: Token)
    requires Inv(s) && OneToken(s) && pid in s.procs && mint != 0
    requires s.procs[pid].pc.Link? || s.procs[pid].pc.WriteBody?
    ensures OneToken(GoStep(s, pid, mint))
  {
    assert ProcInv(s, pid, s.procs[pid]);
    forall q | q in s.procs && (s.procs[q].pc.Truncate? || s.procs[q].pc.WriteBody?)
      ensures s.lock == Some(q) && s.file.Doc?
    {
      assert ProcInv(s, q, s.procs[q]);
    }
  }

  /** Without rotation, every call that returns returns the same contents, and they are the ones on disk. */
  lemma EveryoneAgrees(file: File, events: seq<Event>, p: Pid, q: Pid)
    requires NoRotation(events)
    ensures var s := Run(file, events);
            p in s.procs && s.procs[p].pc.Returned? ==>
              s.file == Doc(s.procs[p].pc.p) && OnDisk(s.file) != 0
    ensures var s := Run(file, events);
            p in s.procs && q in s.procs && s.procs[p].pc.Returned? && s.procs[q].pc.Returned? ==>
              s.procs[p].pc.p == s.procs[q].pc.p
  {
    var s := Run(file, events);
    RunKeeps(file, events);
    WithoutRotation(file, events);
    if p in s.procs && s.procs[p].pc.Returned? {
      ReturnsTheOne(s, p);
    }
    if q in s.procs && s.procs[q].pc.Returned? {
      ReturnsTheOne(s, q);
    }
  }

  lemma ReturnsTheOne(s: State, pid: Pid)
    requires Inv(s) && OneToken(s) && pid in s.procs && s.procs[pid].pc.Returned?
    ensures s.file == Doc(s.procs[pid].pc.p) && OnDisk(s.file) != 0
  {
    assert ProcInv(s, pid, s.procs[pid]);
  }

  // ----------------------------------------------- where contents come from

  /** The process drew this token at some step of the run. */
  ghost predicate Drew(events: seq<Event>, pid: Pid, token: Token) {
    exists k :: 0 <= k < |events| && events[k] == Go(pid, token, false)
  }

  /** What a process is about to write, or has written and returns from a rotation, it drew itself. */
  ghost predicate OwnToken(events: seq<Event>, pid: Pid, k: Proc) {
    && (k.pc.Link? ==> Drew(events, pid, k.pc.p.token) && k.pc.p.fields == Fields(k.user, ""))
    && (k.pc.Truncate? || k.pc.WriteBody? ==> Drew(events, pid, k.pc.p.token))
    && (k.pc.Unlock? && k.pc.rotating ==> Drew(events, pid, k.pc.p.token))
    && (k.pc.Returned? && k.job == RotateToken ==> Drew(events, pid, k.pc.p.token))
  }

  lemma DrewBefore(events: seq<Event>, e: Event, pid: Pid, token: Token)
    ensures Drew(events, pid, token) ==> Drew(events + [e], pid, token)
    ensures e == Go(pid, token, false) ==> Drew(events + [e], pid, token)
  {
    var all := events + [e];
    if Drew(events, pid, token) {
      var k :| 0 <= k < |events| && events[k] == Go(pid, token, false);
      assert all[k] == Go(pid, token, false);
    }
    assert all[|events|] == e;
  }

  /** What a process sets out to write it draws at this very step. */
  lemma DrawnNow(s: State, pid: Pid, mint: Token)
    requires pid in s.procs && mint != 0
    ensures var now := GoStep(s, pid, mint).procs[pid].pc;
            && (now.Link? ==> now.p == Personal(Fields(s.procs[pid].user, ""), mint))
            && (now.Truncate? ==> now.p.token == mint)
  {
  }

  /** From then on it is carried along. */
  lemma CarriedAlong(s: State, pid: Pid, mint: Token)
    requires pid in s.procs && mint != 0
    ensures var was, now := s.procs[pid].pc, GoStep(s, pid, mint).procs[pid].pc;
            && (now.WriteBody? ==> was.Truncate? && now.p == was.p)
            && (now.Unlock? && now.rotating ==> was.WriteBody? && now.p == was.p)
            && (now.Returned? && s.procs[pid].job == RotateToken ==>
                  (was.Unlock? && was.rotating && now.p == was.p) || now == was)
  {
  }

  lemma GoKeepsOwn(s: State, events: seq<Event>, pid: Pid, mint: Token)
    requires pid in s.procs && mint != 0 && OwnToken(events, pid, s.procs[pid])
    ensures OwnToken(events + [Go(pid, mint, false)], pid, GoStep(s, pid, mint).procs[pid])
  {
    var was, e := s.procs[pid].pc, Go(pid, mint, false);
    DrawnNow(s, pid, mint);
    CarriedAlong(s, pid, mint);
    DrewBefore(events, e, pid, mint);
    if was.Truncate? || was.WriteBody? || was.Unlock? || was.Returned? {
      DrewBefore(events, e, pid, was.p.token);
    }
  }

  lemma StepKeepsOwn(s: State, events: seq<Event>, e: Event, pid: Pid)
    requires pid in s.procs ==> OwnToken(events, pid, s.procs[pid])
    requires pid in Step(s, e).procs
    ensures OwnToken(events + [e], pid, Step(s, e).procs[pid])
  {
    if pid in s.procs {
      if e.Go? && e.pid == pid && e.mint != 0 && !e.fails {
        GoKeepsOwn(s, events, pid, e.mint);
      } else {
        OthersStay(s, e, pid);
        var was := s.procs[pid].pc;
        if was.Link? || was.Truncate? || was.WriteBody? || was.Unlock? || was.Returned? {
          DrewBefore(events, e, pid, was.p.token);
        }
      }
    }
  }

  lemma OthersStay(s: State, e: Event, pid: Pid)
    requires pid in s.procs && !(e.Go? && e.pid == pid && e.mint != 0 && !e.fails)
    ensures Step(s, e).procs[pid] == s.procs[pid] || Step(s, e).procs[pid].pc.Failed?
  {
  }

  lemma {:induction false} RunKeepsOwn(file: File, events: seq<Event>, pid: Pid)
    requires pid in Run(file, events).procs
    ensures OwnToken(events, pid, Run(file, events).procs[pid])
  {
    if events != [] {
      var before, e := events[..|events| - 1], events[|events| - 1];
      assert events == before + [e];
      if pid in Run(file, before).procs {
        RunKeepsOwn(file, before, pid);
      }
      StepKeepsOwn(Run(file, before), before, e, pid);
    }
  }

  /** In every run a rotation that returns returns a token it drew itself, never the one it found. */
  lemma RotationReturnsItsOwn(file: File, events: seq<Event>, pid: Pid)
    requires pid in Run(file, events).procs
    ensures var k := Run(file, events).procs[pid];
            k.job == RotateToken && k.pc.Returned? ==> Drew(events, pid, k.pc.p.token)
  {
    RunKeepsOwn(file, events, pid);
  }

  /** A new file as one of the callers would make it: their own name, a token they drew, and nothing else. */
  ghost predicate MadeByACaller(s: State, events: seq<Event>, p: Personal) {
    exists pid :: pid in s.procs && p.fields == Fields(s.procs[pid].user, "") && Drew(events, pid, p.token)
  }

  lemma MadeBefore(s: State, events: seq<Event>, e: Event, p: Personal)
    requires MadeByACaller(s, events, p)
    ensures MadeByACaller(Step(s, e), events + [e], p)
  {
    var pid :| pid in s.procs && p.fields == Fields(s.procs[pid].user, "") && Drew(events, pid, p.token);
    DrewBefore(events, e, pid, p.token);
    UsersStay(s, e, pid);
  }

  lemma UsersStay(s: State, e: Event, pid: Pid)
    requires pid in s.procs
    ensures pid in Step(s, e).procs && Step(s, e).procs[pid].user == s.procs[pid].user
  {
  }

  /** Where there was no file, the first contents are made by a caller, and until then there is no file. */
  ghost predicate CreatedInv(s: State, events: seq<Event>) {
    if s.held == [] then s.file.Missing? else s.file.Doc? && MadeByACaller(s, events, s.held[0])
  }

  lemma StepKeepsCreated(s: State, events: seq<Event>, e: Event)
    requires Inv(s) && CreatedInv(s, events)
    requires forall pid :: pid in s.procs ==> OwnToken(events, pid, s.procs[pid])
    ensures CreatedInv(Step(s, e), events + [e])
  {
    var s' := Step(s, e);
    HeldGrows(s, e);
    if s.held != [] {
      MadeBefore(s, events, e, s.held[0]);
    } else if s'.held != [] {
      var pid := e.pid;
      assert ProcInv(s, pid, s.procs[pid]) && s.procs[pid].pc.Link?;
      DrewBefore(events, e, pid, s.procs[pid].pc.p.token);
      UsersStay(s, e, pid);
      assert MadeByACaller(s', events + [e], s'.held[0]);
    }
  }

  /** The file's history only grows, and while there is no file only a link can start it. */
  lemma HeldGrows(s: State, e: Event)
    requires Inv(s)
    ensures s.held <= Step(s, e).held
    ensures s.file.Doc? ==> Step(s, e).file.Doc?
    ensures s.file.Missing? && Step(s, e).held == s.held ==> Step(s, e).file.Missing?
    ensures s.file.Missing? && Step(s, e).held != s.held ==>
              && Step(s, e).file.Doc? && e.Go? && e.pid in s.procs && s.procs[e.pid].pc.Link?
              && Step(s, e).held == s.held + [s.procs[e.pid].pc.p]
  {
    if e.Go? && e.pid in s.procs {
      assert ProcInv(s, e.pid, s.procs[e.pid]);
    }
  }

  /** The file a first run creates carries the name of the caller who created it and a token they drew. */
  lemma {:induction false} FirstFileIsACallers(events: seq<Event>)
    ensures CreatedInv(Run(Missing, events), events)
  {
    if events != [] {
      var before, e := events[..|events| - 1], events[|events| - 1];
      assert events == before + [e];
      FirstFileIsACallers(before);
      RunKeeps(Missing, before);
      forall pid | pid in Run(Missing, before).procs
        ensures OwnToken(before, pid, Run(Missing, before).procs[pid])
      {
        RunKeepsOwn(Missing, before, pid);
      }
      StepKeepsCreated(Run(Missing, before), before, e);
    }
  }

  /** A file that cannot be decoded is never touched, and nobody gets anything from it. */
  lemma {:induction false} MalformedIsLeftAlone(events: seq<Event>)
    ensures var s := Run(Malformed, events);
            && s.file == Malformed && s.held == []
            && forall pid :: pid in s.procs ==> !s.procs[pid].pc.Returned?
  {
    if events != [] {
      var before, e := events[..|events| - 1], events[|events| - 1];
      MalformedIsLeftAlone(before);
      RunKeeps(Malformed, before);
      MalformedStep(Run(Malformed, before), e);
    }
    RunKeeps(Malformed, events);
    var s := Run(Malformed, events);
    forall pid | pid in s.procs
      ensures !s.procs[pid].pc.Returned?
    {
      assert ProcInv(s, pid, s.procs[pid]);
    }
  }

  lemma MalformedStep(s: State, e: Event)
    requires Inv(s) && s.file == Malformed && s.held == []
    ensures Step(s, e).file == Malformed && Step(s, e).held == []
  {
    if e.Go? && e.pid in s.procs {
      assert ProcInv(s, e.pid, s.procs[e.pid]);
    }
  }

  // ------------------------------------------------------ one process by itself

  function Steps(n: nat, mint: Token): (r: seq<Event>) {
    seq(n, _ => Go(1, mint, false))
  }

  function Alone(job: Job, user: string, n: nat, mint: Token): (r: seq<Event>) {
    [Begin(1, job, user)] + Steps(n, mint)
  }

  /** Where the process is after n steps, on a file without a token; p is what it writes. */
  function BackfillPc(n: nat, p: Personal): (r: Pc) {
    match n
    case 0 => Decode(0)
    case 1 => Decode(1)
    case 2 => Decode(2)
    case 3 => Decode(3)
    case 4 => Decode(4)
    case 5 => OpenFile(false)
    case 6 => Lock(false)
    case 7 => ReRead(false)
    case 8 => Truncate(false, p)
    case 9 => WriteBody(false, p)
    case 10 => Unlock(false, p)
    case _ => Returned(p)
  }

  function RotatePc(n: nat, p: Personal): (r: Pc) {
    match n
    case 0 => Decode(0)
    case 1 => OpenFile(true)
    case 2 => Lock(true)
    case 3 => ReRead(true)
    case 4 => Truncate(true, p)
    case 5 => WriteBody(true, p)
    case 6 => Unlock(true, p)
    case _ => Returned(p)
  }

  /** A rotation gets to each place four steps sooner than a backfill, which waits for a token to appear. */
  ghost predicate AloneAt(s: State, job: Job, n: nat, was: Personal, p: Personal) {
    var late := if job == RotateToken then n + 4 else n;
    && 1 in s.procs && s.procs[1].job == job
    && s.procs[1].pc == (if job == RotateToken then RotatePc(n, p) else BackfillPc(n, p))
    && s.file == Doc(if late < 9 then was else if late == 9 then EMPTY else p)
    && s.lock == if 7 <= late <= 10 then Some(1) else None
  }

  lemma AloneStep(s: State, job: Job, n: nat, was: Personal, mint: Token)
    requires mint != 0 && (job == RotateToken <==> was.token != 0)
    requires n < (if job == RotateToken then 7 else 11) && AloneAt(s, job, n, was, was.(token := mint))
    ensures AloneAt(Step(s, Go(1, mint, false)), job, n + 1, was, was.(token := mint))
  {
  }

  lemma AloneSnoc(job: Job, user: string, n: nat, mint: Token)
    requires n > 0
    ensures var all := Alone(job, user, n, mint);
            all[..|all| - 1] == Alone(job, user, n - 1, mint) && all[|all| - 1] == Go(1, mint, false)
  {
  }

  lemma AloneStarts(file: File, job: Job, user: string, mint: Token)
    ensures var s := Run(file, Alone(job, user, 0, mint));
            && s.file == file && s.lock == None && s.procs.Keys == {1}
            && s.procs[1].job == job && s.procs[1].user == user && s.procs[1].pc == Decode(0)
  {
    var all := Alone(job, user, 0, mint);
    assert |all| == 1 && all[..0] == [] && all[0] == Begin(1, job, user);
    assert Run(file, all) == Step(Run(file, all[..0]), all[0]);
    assert Run(file, []) == Start(file);
  }

  lemma {:induction false} AloneRun(job: Job, user: string, n: nat, was: Personal, mint: Token)
    requires mint != 0 && (job == RotateToken <==> was.token != 0)
    requires n <= if job == RotateToken then 7 else 11
    ensures AloneAt(Run(Doc(was), Alone(job, user, n, mint)), job, n, was, was.(token := mint))
  {
    if n == 0 {
      AloneStarts(Doc(was), job, user, mint);
    } else {
      AloneRun(job, user, n - 1, was, mint);
      AloneSnoc(job, user, n, mint);
      AloneStep(Run(Doc(was), Alone(job, user, n - 1, mint)), job, n - 1, was, mint);
    }
  }

  /** By itself, a run on a file without a token puts one in it, returns it, and changes nothing else. */
  lemma BackfillAlone(user: string, was: Personal, mint: Token)
    requires mint != 0 && was.token == 0
    ensures var s := Run(Doc(was), Alone(EnsurePersonal, user, 11, mint));
            && s.file == Doc(Personal(was.fields, mint)) && s.lock == None
            && 1 in s.procs && s.procs[1].pc == Returned(Personal(was.fields, mint))
  {
    AloneRun(EnsurePersonal, user, 11, was, mint);
  }

  /** By itself, a rotation replaces the token, returns the new one, and changes nothing else. */
  lemma RotationAlone(user: string, was: Personal, mint: Token)
    requires mint != 0 && was.token != 0
    ensures var s := Run(Doc(was), Alone(RotateToken, user, 7, mint));
            && s.file == Doc(Personal(was.fields, mint)) && s.lock == None
            && 1 in s.procs && s.procs[1].pc == Returned(Personal(was.fields, mint))
  {
    AloneRun(RotateToken, user, 7, was, mint);
  }

  /** By itself, a run on a file that has a token returns what is there and leaves it. */
  lemma TokenIsReturned(user: string, was: Personal, mint: Token)
    requires mint != 0 && was.token != 0
    ensures var s := Run(Doc(was), Alone(EnsurePersonal, user, 1, mint));
            s.file == Doc(was) && 1 in s.procs && s.procs[1].pc == Returned(was)
  {
    AloneSnoc(EnsurePersonal, user, 1, mint);
    AloneStarts(Doc(was), EnsurePersonal, user, mint);
  }

  /** By itself, a first run creates the file with its own name and the token it drew, and returns that. */
  lemma FirstRunCreates(user: string, mint: Token)
    requires mint != 0
    ensures var s := Run(Missing, Alone(EnsurePersonal, user, 2, mint));
            && s.file == Doc(Personal(Fields(user, ""), mint))
            && 1 in s.procs && s.procs[1].pc == Returned(Personal(Fields(user, ""), mint))
  {
    AloneSnoc(EnsurePersonal, user, 2, mint);
    AloneSnoc(EnsurePersonal, user, 1, mint);
    AloneStarts(Missing, EnsurePersonal, user, mint);
    var s1 := Run(Missing, Alone(EnsurePersonal, user, 1, mint));
    assert s1 == Step(Run(Missing, Alone(EnsurePersonal, user, 0, mint)), Go(1, mint, false));
  }
}
