/**
 The root helper's machine-wide session (internal/helper/server.go): any
 number of connections, one session, and platform calls that may fail.
 */
module HelperSession {
  import opened Optional

  type ConnId = nat

  /** The per-connection flags. */
  datatype Conn = Conn(applied: bool, resolverSet: bool, routeSet: bool)

  /** Whose rules, resolver files and routes are on the machine. */
  datatype Machine = Machine(pf: Option<ConnId>, resolver: set<ConnId>, route: set<ConnId>)

  datatype Op = OpPfApply | OpPfClear | OpResolverSet | OpResolverClear | OpRouteSet | OpRouteClear | OpNatLook

  /** One call that changes the machine: who asked, whether it worked, and whether the caller's route was up. */
  datatype Call = Call(op: Op, conn: ConnId, ok: bool, routeUp: bool)

  /** Which platform operations fail while one request is served; each is called at most once. */
  datatype Faults = Faults(fails: set<Op>)

  /** cidrs: whether each one parses; hosts likewise; domains: how many. */
  datatype Request =
    | Version
    | PfApply(pf: Option<PfArgs>)
    | PfClear
    | ResolverSet(domains: Option<nat>)
    | ResolverClear
    | RouteSet(hosts: seq<bool>)
    | RouteClear
    | NatLook(parses: bool)
    | UnknownOp

  datatype PfArgs = PfArgs(cidrs: seq<bool>, redirectPort: int)

  datatype Response =
    | Done
    | Busy(holder: ConnId)
    | AlreadyApplied
    | NoSession
    | Platform
    | Forbidden
    | BadOp

  datatype State = State(
    active: Option<ConnId>,
    conns: map<ConnId, Conn>,
    machine: Machine,
    calls: seq<Call>,
    seen: set<ConnId>)

  const INITIAL := State(None, map[], Machine(None, {}, {}), [], {})
  const MAX_HOSTS := 8

  predicate PfArgsOk(pf: Option<PfArgs>) {
    pf.Some? && (forall i :: 0 <= i < |pf.value.cidrs| ==> pf.value.cidrs[i]) && 0 < pf.value.redirectPort <= 65535
  }

  predicate HostsOk(hosts: seq<bool>) {
    0 < |hosts| <= MAX_HOSTS && forall i :: 0 <= i < |hosts| ==> hosts[i]
  }

  predicate DomainsOk(domains: Option<nat>) {
    domains.Some? && domains.value > 0
  }

  // ----------------------------------------------------------- specification

  function Effect(m: Machine, op: Op, c: ConnId): (r: Machine) {
    match op
    case OpPfApply => m.(pf := Some(c))
    case OpPfClear => m.(pf := None)
    case OpResolverSet => m.(resolver := m.resolver + {c})
    case OpResolverClear => m.(resolver := {})
    case OpRouteSet => m.(route := m.route + {c})
    case OpRouteClear => m.(route := {})
    case OpNatLook => m
  }

  /** A platform call: logged, and effective unless it fails. */
  function Issue(s: State, c: ConnId, op: Op, f: Faults): (r: State) {
    var ok := op !in f.fails;
    s.(machine := if ok then Effect(s.machine, op, c) else s.machine,
       calls := s.calls + [Call(op, c, ok, c in s.machine.route)])
  }

  /** Removes one thing the connection holds, if it holds it. */
  function TakeDown(s: State, c: ConnId, held: bool, op: Op, f: Faults): (r: State) {
    if held then Issue(s, c, op, f) else s
  }

  predicate HeldByOther(s: State, c: ConnId) {
    s.active.Some? && s.active != Some(c)
  }

  function PfApplySpec(s: State, c: ConnId, pf: Option<PfArgs>, f: Faults): (r: (State, Response))
    requires c in s.conns
  {
    if !PfArgsOk(pf) then (s, Platform)
    else if HeldByOther(s, c) then (s, Busy(s.active.value))
    else if s.conns[c].applied then (s, AlreadyApplied)
    else
      var s1 := Issue(s, c, OpPfApply, f);
      if OpPfApply in f.fails then (s1, Platform)
      else (s1.(active := Some(c), conns := s.conns[c := s.conns[c].(applied := true)]), Done)
  }

  /** Whether something pf.clear tried to remove before the rules is still there. */
  predicate Stuck(k: Conn, f: Faults) {
    (k.resolverSet && OpResolverClear in f.fails) || (k.routeSet && OpRouteClear in f.fails)
  }

  function PfClearSpec(s: State, c: ConnId, f: Faults): (r: (State, Response))
    requires c in s.conns
  {
    if s.active != Some(c) then (s, NoSession)
    else
      var k := s.conns[c];
      var s1 := TakeDown(s, c, k.resolverSet, OpResolverClear, f);
      var s2 := TakeDown(s1, c, k.routeSet, OpRouteClear, f);
      var s3 := Issue(s2, c, OpPfClear, f);
      var left := Conn(k.applied && OpPfClear in f.fails,
                       k.resolverSet && OpResolverClear in f.fails,
                       k.routeSet && OpRouteClear in f.fails);
      var s4 := s3.(conns := s.conns[c := left]);
      if OpPfClear in f.fails then (s4, Platform)
      else if Stuck(k, f) then (s4, Done)
      else (s4.(active := None), Done)
  }

  function RouteSetSpec(s: State, c: ConnId, hosts: seq<bool>, f: Faults): (r: (State, Response))
    requires c in s.conns
  {
    if !HostsOk(hosts) then (s, Platform)
    else if HeldByOther(s, c) then (s, Busy(s.active.value))
    else
      var s1 := Issue(s, c, OpRouteSet, f);
      if OpRouteSet in f.fails then (s1, Platform)
      else (s1.(active := Some(c), conns := s.conns[c := s.conns[c].(routeSet := true)]), Done)
  }

  function RouteClearSpec(s: State, c: ConnId, f: Faults): (r: (State, Response))
    requires c in s.conns
  {
    var k := s.conns[c];
    if !k.routeSet then (s, Done)
    else
      var s1 := Issue(s, c, OpRouteClear, f);
      if OpRouteClear in f.fails then (s1, Platform)
      else (s1.(active := if k.applied then s.active else None, conns := s.conns[c := k.(routeSet := false)]), Done)
  }

  function ResolverSetSpec(s: State, c: ConnId, domains: Option<nat>, f: Faults): (r: (State, Response))
    requires c in s.conns
  {
    if !DomainsOk(domains) then (s, Platform)
    else if s.active != Some(c) || !s.conns[c].applied then (s, NoSession)
    else
      var s1 := Issue(s, c, OpResolverSet, f);
      if OpResolverSet in f.fails then (s1, Platform)
      else (s1.(conns := s.conns[c := s.conns[c].(resolverSet := true)]), Done)
  }

  function ResolverClearSpec(s: State, c: ConnId, f: Faults): (r: (State, Response))
    requires c in s.conns
  {
    if s.active != Some(c) then (s, NoSession)
    else
      var s1 := Issue(s, c, OpResolverClear, f);
      if OpResolverClear in f.fails then (s1, Platform)
      else (s1.(conns := s.conns[c := s.conns[c].(resolverSet := false)]), Done)
  }

  function HandleSpec(s: State, c: ConnId, allowed: bool, req: Request, f: Faults): (r: (State, Response))
    requires c in s.conns
  {
    if req.Version? then (s, Done)
    else if !allowed then (s, Forbidden)
    else
      match req
      case PfApply(pf) => PfApplySpec(s, c, pf, f)
      case PfClear => PfClearSpec(s, c, f)
      case ResolverSet(domains) => ResolverSetSpec(s, c, domains, f)
      case ResolverClear => ResolverClearSpec(s, c, f)
      case RouteSet(hosts) => RouteSetSpec(s, c, hosts, f)
      case RouteClear => RouteClearSpec(s, c, f)
      case NatLook(parses) => (s, if parses && OpNatLook !in f.fails then Done else Platform)
      case _ => (s, BadOp)
  }

  /** The disconnect cleanup; the connection is gone afterwards, whatever failed. */
  function CleanupSpec(s: State, c: ConnId, f: Faults): (r: State)
    requires c in s.conns
  {
    var gone := s.(conns := s.conns - {c});
    if s.active != Some(c) then gone
    else
      var k := s.conns[c];
      var s1 := TakeDown(gone, c, k.resolverSet, OpResolverClear, f);
      var s2 := TakeDown(s1, c, k.routeSet, OpRouteClear, f);
      TakeDown(s2, c, k.applied, OpPfClear, f).(active := None)
  }

  datatype Event =
    | Connect(c: ConnId)
    | Serve(c: ConnId, allowed: bool, req: Request, f: Faults)
    | Disconnect(c: ConnId, f: Faults)

  /** An event that cannot happen (a reused id, an absent connection) changes nothing. */
  function Step(s: State, e: Event): (r: State) {
    match e
    case Connect(c) =>
      if c in s.seen then s else s.(conns := s.conns[c := Conn(false, false, false)], seen := s.seen + {c})
    case Serve(c, allowed, req, f) =>
      if c in s.conns then HandleSpec(s, c, allowed, req, f).0 else s
    case Disconnect(c, f) =>
      if c in s.conns then CleanupSpec(s, c, f) else s
  }

  function Run(events: seq<Event>): (r: State) {
    if events == [] then INITIAL else Step(Run(events[..|events| - 1]), events[|events| - 1])
  }

  // ---------------------------------------------------------- the server

  /** The platform: it performs a call or fails, and remembers what happened. */
  class PlatformCalls {
    ghost var machine: Machine
    ghost var calls: seq<Call>

    constructor ()
      ensures machine == Machine(None, {}, {}) && calls == []
    {
      machine, calls := Machine(None, {}, {}), [];
    }

    method Do(op: Op, c: ConnId, f: Faults) returns (ok: bool)
      modifies this
      ensures ok == (op !in f.fails)
      ensures machine == if ok then Effect(old(machine), op, c) else old(machine)
      ensures calls == old(calls) + [Call(op, c, ok, c in old(machine).route)]
    {
      ok := op !in f.fails;
      calls := calls + [Call(op, c, ok, c in machine.route)];
      if ok {
        machine := Effect(machine, op, c);
      }
    }

    method Look(f: Faults) returns (ok: bool)
      ensures ok == (OpNatLook !in f.fails)
    {
      return OpNatLook !in f.fails;
    }
  }

  class Server {
    const platform: PlatformCalls
    var active: Option<ConnId>
    var conns: map<ConnId, Conn>
    ghost var seen: set<ConnId>

    ghost function Now(): (r: State)
      reads this, platform
    {
      State(active, conns, platform.machine, platform.calls, seen)
    }

    constructor (p: PlatformCalls)
      requires p.machine == Machine(None, {}, {}) && p.calls == []
      ensures platform == p && Now() == INITIAL
    {
      platform, active, conns, seen := p, None, map[], {};
    }

    method Open(c: ConnId)
      requires c !in seen
      modifies this
      ensures Now() == Step(old(Now()), Connect(c))
    {
      conns := conns[c := Conn(false, false, false)];
      seen := seen + {c};
    }

    method DoPfApply(c: ConnId, pf: Option<PfArgs>, f: Faults) returns (r: Response)
      requires c in conns
      modifies this, platform
      ensures (Now(), r) == PfApplySpec(old(Now()), c, pf, f)
    {
      if pf.None? {
        return Platform;
      }
      for i := 0 to |pf.value.cidrs|
        invariant forall j :: 0 <= j < i ==> pf.value.cidrs[j]
        invariant Now() == old(Now())
      {
        if !pf.value.cidrs[i] {
          return Platform;
        }
      }
      if pf.value.redirectPort <= 0 || pf.value.redirectPort > 65535 {
        return Platform;
      }
      if active != None && active != Some(c) {
        return Busy(active.value);
      }
      if conns[c].applied {
        return AlreadyApplied;
      }
      var ok := platform.Do(OpPfApply, c, f);
      if !ok {
        return Platform;
      }
      conns := conns[c := conns[c].(applied := true)];
      active := Some(c);
      return Done;
    }

    method DoPfClear(c: ConnId, f: Faults) returns (r: Response)
      requires c in conns
      modifies this, platform
      ensures (Now(), r) == PfClearSpec(old(Now()), c, f)
    {
      if active != Some(c) {
        return NoSession;
      }
      ghost var k, s0 := conns[c], Now();
      var resolverStuck := RemoveResolver(c, f);
      var routeStuck := RemoveRoute(c, f);
      var ok := platform.Do(OpPfClear, c, f);
      ghost var left := Conn(k.applied && OpPfClear in f.fails, resolverStuck, routeStuck);
      if !ok {
        assert conns == s0.conns[c := left];
        return Platform;
      }
      conns := conns[c := conns[c].(applied := false)];
      assert conns == s0.conns[c := left];
      if resolverStuck || routeStuck {
        return Done;
      }
      active := None;
      return Done;
    }

    /** pf.clear's first part: the resolver files, if this connection wrote any. */
    method RemoveResolver(c: ConnId, f: Faults) returns (stuck: bool)
      requires c in conns
      modifies this`conns, platform
      ensures stuck == (old(conns[c]).resolverSet && OpResolverClear in f.fails)
      ensures conns == old(conns)[c := old(conns[c]).(resolverSet := stuck)]
      ensures Now() == TakeDown(old(Now()), c, old(conns[c]).resolverSet, OpResolverClear, f).(conns := conns)
    {
      stuck := false;
      if conns[c].resolverSet {
        var ok := platform.Do(OpResolverClear, c, f);
        if !ok {
          stuck := true;
        } else {
          conns := conns[c := conns[c].(resolverSet := false)];
        }
      }
    }

    /** pf.clear's second part: the route, if this connection pinned one. */
    method RemoveRoute(c: ConnId, f: Faults) returns (stuck: bool)
      requires c in conns
      modifies this`conns, platform
      ensures stuck == (old(conns[c]).routeSet && OpRouteClear in f.fails)
      ensures conns == old(conns)[c := old(conns[c]).(routeSet := stuck)]
      ensures Now() == TakeDown(old(Now()), c, old(conns[c]).routeSet, OpRouteClear, f).(conns := conns)
    {
      stuck := false;
      if conns[c].routeSet {
        var ok := platform.Do(OpRouteClear, c, f);
        if !ok {
          stuck := true;
        } else {
          conns := conns[c := conns[c].(routeSet := false)];
        }
      }
    }

    method DoRouteSet(c: ConnId, hosts: seq<bool>, f: Faults) returns (r: Response)
      requires c in conns
      modifies this, platform
      ensures (Now(), r) == RouteSetSpec(old(Now()), c, hosts, f)
    {
      if |hosts| == 0 || |hosts| > MAX_HOSTS {
        return Platform;
      }
      for i := 0 to |hosts|
        invariant forall j :: 0 <= j < i ==> hosts[j]
        invariant Now() == old(Now())
      {
        if !hosts[i] {
          return Platform;
        }
      }
      if active != None && active != Some(c) {
        return Busy(active.value);
      }
      var ok := platform.Do(OpRouteSet, c, f);
      if !ok {
        return Platform;
      }
      conns := conns[c := conns[c].(routeSet := true)];
      active := Some(c);
      return Done;
    }

    method DoRouteClear(c: ConnId, f: Faults) returns (r: Response)
      requires c in conns
      modifies this, platform
      ensures (Now(), r) == RouteClearSpec(old(Now()), c, f)
    {
      if !conns[c].routeSet {
        return Done;
      }
      var ok := platform.Do(OpRouteClear, c, f);
      if !ok {
        return Platform;
      }
      conns := conns[c := conns[c].(routeSet := false)];
      if !conns[c].applied {
        active := None;
      }
      return Done;
    }

    method DoResolverSet(c: ConnId, domains: Option<nat>, f: Faults) returns (r: Response)
      requires c in conns
      modifies this, platform
      ensures (Now(), r) == ResolverSetSpec(old(Now()), c, domains, f)
    {
      if domains.None? || domains.value == 0 {
        return Platform;
      }
      if active != Some(c) || !conns[c].applied {
        return NoSession;
      }
      var ok := platform.Do(OpResolverSet, c, f);
      if !ok {
        return Platform;
      }
      conns := conns[c := conns[c].(resolverSet := true)];
      return Done;
    }

    method DoResolverClear(c: ConnId, f: Faults) returns (r: Response)
      requires c in conns
      modifies this, platform
      ensures (Now(), r) == ResolverClearSpec(old(Now()), c, f)
    {
      if active != Some(c) {
        return NoSession;
      }
      var ok := platform.Do(OpResolverClear, c, f);
      if !ok {
        return Platform;
      }
      conns := conns[c := conns[c].(resolverSet := false)];
      return Done;
    }

    /** A lookup: any connection may ask, and nothing on the machine changes. */
    method DoNatLook(parses: bool, f: Faults) returns (r: Response)
      ensures r == if parses && OpNatLook !in f.fails then Done else Platform
    {
      if !parses {
        return Platform;
      }
      var found := platform.Look(f);
      return if found then Done else Platform;
    }

    method Handle(c: ConnId, allowed: bool, req: Request, f: Faults) returns (r: Response)
      requires c in conns
      modifies this, platform
      ensures (Now(), r) == HandleSpec(old(Now()), c, allowed, req, f)
    {
      if req.Version? {
        return Done;
      }
      if !allowed {
        return Forbidden;
      }
      match req {
        case PfApply(pf) => r := DoPfApply(c, pf, f);
        case PfClear => r := DoPfClear(c, f);
        case ResolverSet(domains) => r := DoResolverSet(c, domains, f);
        case ResolverClear => r := DoResolverClear(c, f);
        case RouteSet(hosts) => r := DoRouteSet(c, hosts, f);
        case RouteClear => r := DoRouteClear(c, f);
        case NatLook(parses) => r := DoNatLook(parses, f);
        case UnknownOp => r := BadOp;
      }
    }

    method Cleanup(c: ConnId, f: Faults)
      requires c in conns
      modifies this, platform
      ensures Now() == CleanupSpec(old(Now()), c, f)
    {
      var k := conns[c];
      conns := conns - {c};
      if active != Some(c) {
        return;
      }
      if k.resolverSet {
        var _ := platform.Do(OpResolverClear, c, f);
      }
      if k.routeSet {
        var _ := platform.Do(OpRouteClear, c, f);
      }
      if k.applied {
        var _ := platform.Do(OpPfClear, c, f);
      }
      active := None;
    }

    /** One event, whatever it is; a connection that is not there asks for nothing. */
    method Take(e: Event)
      requires e.Connect? ==> e.c !in seen
      modifies this, platform
      ensures Now() == Step(old(Now()), e)
    {
      match e {
        case Connect(c) => Open(c);
        case Serve(c, allowed, req, f) =>
          if c in conns {
            var _ := Handle(c, allowed, req, f);
          }
        case Disconnect(c, f) =>
          if c in conns {
            Cleanup(c, f);
          }
      }
    }
  }

  /** What is proved of Run is true of the server: any events drive it to that state. */
  method Drive(events: seq<Event>) returns (server: Server)
    ensures server.Now() == Run(events)
  {
    var platform := new PlatformCalls();
    server := new Server(platform);
    var ids: set<ConnId> := {};
    for i := 0 to |events|
      invariant fresh(server) && fresh(server.platform)
      invariant server.Now() == Run(events[..i]) && server.seen == ids
    {
      assert events[..i + 1][..i] == events[..i];
      if !events[i].Connect? || events[i].c !in ids {
        server.Take(events[i]);
      }
      ids := ids + if events[i].Connect? then {events[i].c} else {};
    }
    assert events[..|events|] == events;
  }

  // -------------------------------------------------------- what a run keeps

  /**
   Rules and routes belong to the active connection alone, and the flags of
   every live connection say what it has on the machine.
   */
  ghost predicate Inv(s: State) {
    && (s.active.Some? ==> s.active.value in s.conns)
    && s.conns.Keys <= s.seen
    && (s.machine.pf.Some? ==> s.machine.pf.value in s.seen)
    && s.machine.resolver <= s.seen
    && s.machine.route <= s.seen
    && forall c :: c in s.conns ==>
         && (s.conns[c].applied || s.conns[c].routeSet ==> s.active == Some(c))
         && (s.conns[c].applied <==> s.machine.pf == Some(c))
         && (s.conns[c].routeSet <==> c in s.machine.route)
         && (c in s.machine.resolver ==> s.conns[c].resolverSet)
  }

  ghost predicate ResolverOnlyActive(s: State) {
    forall c :: c in s.conns && s.conns[c].resolverSet ==> s.active == Some(c)
  }

  ghost predicate ResolverNeedsRules(s: State) {
    forall c :: c in s.conns && s.conns[c].resolverSet ==> s.conns[c].applied
  }

  ghost predicate ResolverHeld(s: State) {
    forall c :: c in s.machine.resolver ==> s.active == Some(c)
  }

  /** The rules go last: no pf.clear is issued over a pinned route unless removing it was just tried and failed. */
  ghost predicate RouteBeforePf(calls: seq<Call>) {
    forall j :: 0 <= j < |calls| && calls[j].op == OpPfClear && calls[j].routeUp ==>
                  0 < j && calls[j - 1] == Call(OpRouteClear, calls[j].conn, false, true)
  }

  /** What one step keeps, given which platform calls failed during it. */
  ghost predicate Kept(s: State, s': State, f: Faults) {
    && Inv(s')
    && (RouteBeforePf(s.calls) ==> RouteBeforePf(s'.calls))
    && (OpResolverClear !in f.fails && ResolverNeedsRules(s) ==> ResolverNeedsRules(s'))
    && (OpResolverClear !in f.fails && ResolverNeedsRules(s) && ResolverHeld(s) ==> ResolverHeld(s'))
  }

  lemma PfApplyKeeps(s: State, c: ConnId, pf: Option<PfArgs>, f: Faults)
    requires Inv(s) && c in s.conns
    ensures Kept(s, PfApplySpec(s, c, pf, f).0, f)
    ensures ResolverOnlyActive(s) ==> ResolverOnlyActive(PfApplySpec(s, c, pf, f).0)
  {
  }

  /** The calls that take one connection's state off the machine, in order. */
  function Asked(held: bool, op: Op, c: ConnId, f: Faults, routeUp: bool): (r: seq<Call>) {
    if held then [Call(op, c, op !in f.fails, routeUp)] else []
  }

  lemma TeardownShape(s: State, c: ConnId, k: Conn, rules: bool, f: Faults)
    requires k.routeSet <==> c in s.machine.route
    ensures var s1 := TakeDown(s, c, k.resolverSet, OpResolverClear, f);
            var s2 := TakeDown(s1, c, k.routeSet, OpRouteClear, f);
            var s3 := TakeDown(s2, c, rules, OpPfClear, f);
            && s3.conns == s.conns && s3.active == s.active && s3.seen == s.seen
            && s3.machine.pf == (if rules && OpPfClear !in f.fails then None else s.machine.pf)
            && s3.machine.resolver == (if k.resolverSet && OpResolverClear !in f.fails then {} else s.machine.resolver)
            && s3.machine.route == (if k.routeSet && OpRouteClear !in f.fails then {} else s.machine.route)
            && s3.calls == s.calls + (Asked(k.resolverSet, OpResolverClear, c, f, k.routeSet)
                                      + (Asked(k.routeSet, OpRouteClear, c, f, true)
                                         + Asked(rules, OpPfClear, c, f, k.routeSet && OpRouteClear in f.fails)))
  {
  }

  lemma TeardownOrder(calls: seq<Call>, c: ConnId, k: Conn, rules: bool, f: Faults)
    requires RouteBeforePf(calls)
    ensures RouteBeforePf(calls + (Asked(k.resolverSet, OpResolverClear, c, f, k.routeSet)
                                   + (Asked(k.routeSet, OpRouteClear, c, f, true)
                                      + Asked(rules, OpPfClear, c, f, k.routeSet && OpRouteClear in f.fails))))
  {
    var first := Asked(k.resolverSet, OpResolverClear, c, f, k.routeSet);
    var second := Asked(k.routeSet, OpRouteClear, c, f, true);
    var third := Asked(rules, OpPfClear, c, f, k.routeSet && OpRouteClear in f.fails);
    AppendKeepsOrder(calls, first);
    AppendKeepsOrder(calls + first, second);
    AppendKeepsOrder(calls + first + second, third);
    assert calls + (first + (second + third)) == calls + first + second + third;
  }

  lemma AppendKeepsOrder(calls: seq<Call>, more: seq<Call>)
    requires RouteBeforePf(calls) && |more| <= 1
    requires more != [] && more[0].op == OpPfClear && more[0].routeUp ==>
               calls != [] && calls[|calls| - 1] == Call(OpRouteClear, more[0].conn, false, true)
    ensures RouteBeforePf(calls + more)
  {
  }

  lemma PfClearShape(s: State, c: ConnId, f: Faults)
    requires Inv(s) && c in s.conns && s.active == Some(c)
    ensures var s', k := PfClearSpec(s, c, f).0, s.conns[c];
            && s'.conns == s.conns[c := s'.conns[c]] && s'.seen == s.seen
            && (s'.conns[c].applied <==> s'.machine.pf == Some(c))
            && (s'.conns[c].routeSet <==> c in s'.machine.route)
            && (s'.conns[c].resolverSet <==> k.resolverSet && OpResolverClear in f.fails)
            && (s'.active == None || s'.active == Some(c))
            && (s'.active == None ==> s'.conns[c] == Conn(false, false, false))
            && (s'.machine.pf == None || s'.machine.pf == s.machine.pf)
            && s'.machine.route <= s.machine.route
            && (s'.machine.resolver == {} ||
                (s'.machine.resolver == s.machine.resolver && (k.resolverSet ==> OpResolverClear in f.fails)))
            && s'.calls == s.calls + (Asked(k.resolverSet, OpResolverClear, c, f, k.routeSet)
                                      + (Asked(k.routeSet, OpRouteClear, c, f, true)
                                         + Asked(true, OpPfClear, c, f, k.routeSet && OpRouteClear in f.fails)))
  {
    TeardownShape(s, c, s.conns[c], true, f);
  }

  lemma PfClearKeepsInv(s: State, c: ConnId, f: Faults)
    requires Inv(s) && c in s.conns && s.active == Some(c)
    ensures Inv(PfClearSpec(s, c, f).0)
    ensures ResolverOnlyActive(s) ==> ResolverOnlyActive(PfClearSpec(s, c, f).0)
  {
    PfClearShape(s, c, f);
  }

  lemma PfClearKeepsResolver(s: State, c: ConnId, f: Faults)
    requires Inv(s) && c in s.conns && s.active == Some(c) && OpResolverClear !in f.fails && ResolverNeedsRules(s)
    ensures ResolverNeedsRules(PfClearSpec(s, c, f).0)
    ensures ResolverHeld(s) ==> ResolverHeld(PfClearSpec(s, c, f).0)
  {
    PfClearShape(s, c, f);
  }

  lemma PfClearKeeps(s: State, c: ConnId, f: Faults)
    requires Inv(s) && c in s.conns
    ensures Kept(s, PfClearSpec(s, c, f).0, f)
    ensures ResolverOnlyActive(s) ==> ResolverOnlyActive(PfClearSpec(s, c, f).0)
  {
    if s.active == Some(c) {
      PfClearKeepsInv(s, c, f);
      PfClearShape(s, c, f);
      if RouteBeforePf(s.calls) {
        TeardownOrder(s.calls, c, s.conns[c], true, f);
      }
      if OpResolverClear !in f.fails && ResolverNeedsRules(s) {
        PfClearKeepsResolver(s, c, f);
      }
    }
  }

  lemma RouteSetKeeps(s: State, c: ConnId, hosts: seq<bool>, f: Faults)
    requires Inv(s) && c in s.conns
    ensures Kept(s, RouteSetSpec(s, c, hosts, f).0, f)
    ensures ResolverOnlyActive(s) ==> ResolverOnlyActive(RouteSetSpec(s, c, hosts, f).0)
  {
  }

  lemma RouteClearKeeps(s: State, c: ConnId, f: Faults)
    requires Inv(s) && c in s.conns
    ensures Kept(s, RouteClearSpec(s, c, f).0, f)
  {
  }

  lemma ResolverSetKeeps(s: State, c: ConnId, domains: Option<nat>, f: Faults)
    requires Inv(s) && c in s.conns
    ensures Kept(s, ResolverSetSpec(s, c, domains, f).0, f)
    ensures ResolverOnlyActive(s) ==> ResolverOnlyActive(ResolverSetSpec(s, c, domains, f).0)
  {
  }

  lemma ResolverClearKeeps(s: State, c: ConnId, f: Faults)
    requires Inv(s) && c in s.conns
    ensures Kept(s, ResolverClearSpec(s, c, f).0, f)
    ensures ResolverOnlyActive(s) ==> ResolverOnlyActive(ResolverClearSpec(s, c, f).0)
  {
  }

  lemma CleanupKeeps(s: State, c: ConnId, f: Faults)
    requires Inv(s) && c in s.conns
    ensures Kept(s, CleanupSpec(s, c, f), f)
    ensures ResolverOnlyActive(s) ==> ResolverOnlyActive(CleanupSpec(s, c, f))
  {
    if s.active == Some(c) {
      TeardownShape(s.(conns := s.conns - {c}), c, s.conns[c], s.conns[c].applied, f);
      if RouteBeforePf(s.calls) {
        TeardownOrder(s.calls, c, s.conns[c], s.conns[c].applied, f);
      }
    }
  }

  lemma StepKeeps(s: State, e: Event)
    requires Inv(s)
    ensures Kept(s, Step(s, e), if e.Connect? then Faults({}) else e.f)
    ensures ResolverOnlyActive(s) && !LetsResolverGo(s, e) ==> ResolverOnlyActive(Step(s, e))
  {
    match e {
      case Connect(c) =>
      case Serve(c, allowed, req, f) =>
        if c in s.conns && allowed {
          match req {
            case PfApply(pf) => PfApplyKeeps(s, c, pf, f);
            case PfClear => PfClearKeeps(s, c, f);
            case ResolverSet(domains) => ResolverSetKeeps(s, c, domains, f);
            case ResolverClear => ResolverClearKeeps(s, c, f);
            case RouteSet(hosts) => RouteSetKeeps(s, c, hosts, f);
            case RouteClear => RouteClearKeeps(s, c, f);
            case _ =>
          }
        }
      case Disconnect(c, f) =>
        if c in s.conns {
          CleanupKeeps(s, c, f);
        }
    }
  }

  lemma {:induction false} RunKeepsInv(events: seq<Event>)
    ensures Inv(Run(events))
  {
    if events != [] {
      RunKeepsInv(events[..|events| - 1]);
      StepKeeps(Run(events[..|events| - 1]), events[|events| - 1]);
    }
  }

  predicate Holds(s: State, c: ConnId) {
    c in s.conns && (s.conns[c].applied || s.conns[c].routeSet)
  }

  /** In every run, rules and routes are held by at most one connection, the active one. */
  lemma SessionExclusive(events: seq<Event>, c: ConnId, d: ConnId)
    ensures var s := Run(events);
            Holds(s, c) ==> s.active == Some(c)
    ensures var s := Run(events);
            Holds(s, c) && Holds(s, d) ==> c == d
    ensures var s := Run(events);
            c in s.conns && (s.machine.pf == Some(c) || c in s.machine.route) ==> s.active == Some(c)
  {
    RunKeepsInv(events);
  }

  /** While another connection holds the session, nothing this one asks for changes anything. */
  lemma LockedOut(events: seq<Event>, c: ConnId, allowed: bool, req: Request, f: Faults)
    ensures var s := Run(events);
            c in s.conns && HeldByOther(s, c) ==> Step(s, Serve(c, allowed, req, f)) == s
  {
    RunKeepsInv(events);
  }

  // ----------------------------------------------------- what an answer means

  /** The last call made on the way from s to s', and how it went. */
  ghost predicate LastCall(s: State, s': State, op: Op, c: ConnId, ok: bool) {
    && |s.calls| < |s'.calls| && s'.calls[..|s.calls|] == s.calls
    && var last := s'.calls[|s'.calls| - 1];
       last.op == op && last.conn == c && last.ok == ok
  }

  ghost predicate Untouched(s: State, s': State) {
    s'.active == s.active && s'.conns == s.conns && s'.machine == s.machine
  }

  predicate Free(s: State, c: ConnId) {
    s.active == None || s.active == Some(c)
  }

  /** What the source asks of pf.apply's arguments. */
  predicate GoodRules(pf: Option<PfArgs>) {
    && pf.Some? && 1 <= pf.value.redirectPort <= 65535
    && forall i :: 0 <= i < |pf.value.cidrs| ==> pf.value.cidrs[i]
  }

  predicate GoodHosts(hosts: seq<bool>) {
    1 <= |hosts| <= 8 && forall i :: 0 <= i < |hosts| ==> hosts[i]
  }

  /** Done: the rules are on the machine, through a call just made for this connection. Otherwise nothing changed. */
  lemma PfApplyAnswer(events: seq<Event>, c: ConnId, pf: Option<PfArgs>, f: Faults)
    requires c in Run(events).conns
    ensures var s := Run(events); var (s', r) := HandleSpec(s, c, true, PfApply(pf), f);
            && (r == Done <==> && LastCall(s, s', OpPfApply, c, true)
                               && s'.active == Some(c) && s'.machine.pf == Some(c)
                               && c in s'.conns && s'.conns[c].applied && !s.conns[c].applied)
            && (r != Done ==> Untouched(s, s'))
            && (r == Done <==> GoodRules(pf) && Free(s, c) && !s.conns[c].applied && OpPfApply !in f.fails)
            && (forall h :: r == Busy(h) <==> GoodRules(pf) && s.active == Some(h) && h != c)
            && (r == AlreadyApplied <==> GoodRules(pf) && s.conns[c].applied)
            && (r == Platform <==>
                !GoodRules(pf) || (Free(s, c) && !s.conns[c].applied && LastCall(s, s', OpPfApply, c, false)))
  {
    RunKeepsInv(events);
  }

  /** Done: the route is there, through a call just made for this connection. */
  lemma RouteSetAnswer(events: seq<Event>, c: ConnId, hosts: seq<bool>, f: Faults)
    requires c in Run(events).conns
    ensures var s := Run(events); var (s', r) := HandleSpec(s, c, true, RouteSet(hosts), f);
            && (r == Done <==> && LastCall(s, s', OpRouteSet, c, true) && s'.active == Some(c) && c in s'.machine.route
                               && c in s'.conns && s'.conns[c].routeSet)
            && (r != Done ==> Untouched(s, s'))
            && (r == Done <==> GoodHosts(hosts) && Free(s, c) && OpRouteSet !in f.fails)
            && (forall h :: r == Busy(h) <==> GoodHosts(hosts) && s.active == Some(h) && h != c)
            && (r == Platform <==> !GoodHosts(hosts) || (Free(s, c) && LastCall(s, s', OpRouteSet, c, false)))
  {
    RunKeepsInv(events);
  }

  /** Done: the files are there, through a call just made; only for the connection whose rules are applied. */
  lemma ResolverSetAnswer(events: seq<Event>, c: ConnId, domains: Option<nat>, f: Faults)
    requires c in Run(events).conns
    ensures var s := Run(events); var (s', r) := HandleSpec(s, c, true, ResolverSet(domains), f);
            var good := domains.Some? && domains.value > 0;
            && (r == Done <==> && LastCall(s, s', OpResolverSet, c, true) && c in s'.machine.resolver
                               && c in s'.conns && s'.conns[c].resolverSet)
            && (r != Done ==> Untouched(s, s'))
            && (r == Done <==> good && s.conns[c].applied && OpResolverSet !in f.fails)
            && (r == NoSession <==> good && !s.conns[c].applied)
            && (r == Platform <==> !good || (s.conns[c].applied && LastCall(s, s', OpResolverSet, c, false)))
  {
    RunKeepsInv(events);
  }

  /** Done: the rules are off, through a call just made. */
  lemma PfClearAnswer(events: seq<Event>, c: ConnId, f: Faults)
    requires c in Run(events).conns
    ensures var s := Run(events); var (s', r) := HandleSpec(s, c, true, PfClear, f);
            && (r == NoSession <==> s.active != Some(c)) && (r == NoSession ==> s' == s)
            && (r == Done <==> LastCall(s, s', OpPfClear, c, true))
            && (r == Done ==> s'.machine.pf == None && c in s'.conns && !s'.conns[c].applied)
            && (r == Platform <==> LastCall(s, s', OpPfClear, c, false))
            && (r == Platform ==> s'.machine.pf == s.machine.pf && s'.active == Some(c))
            && (r == Done || r == Platform || r == NoSession)
  {
    RunKeepsInv(events);
    var s := Run(events);
    if s.active == Some(c) {
      TeardownShape(s, c, s.conns[c], true, f);
      LastAsked(s, PfClearSpec(s, c, f).0, c, s.conns[c], f);
    }
  }

  lemma LastAsked(s: State, s': State, c: ConnId, k: Conn, f: Faults)
    requires s'.calls == s.calls + (Asked(k.resolverSet, OpResolverClear, c, f, k.routeSet)
                                    + (Asked(k.routeSet, OpRouteClear, c, f, true)
                                       + Asked(true, OpPfClear, c, f, k.routeSet && OpRouteClear in f.fails)))
    ensures LastCall(s, s', OpPfClear, c, OpPfClear !in f.fails)
    ensures !LastCall(s, s', OpPfClear, c, OpPfClear in f.fails)
  {
  }

  /** Done: this connection has no route, and none was touched if it had none. */
  lemma RouteClearAnswer(events: seq<Event>, c: ConnId, f: Faults)
    requires c in Run(events).conns
    ensures var s := Run(events); var (s', r) := HandleSpec(s, c, true, RouteClear, f);
            && c in s'.conns
            && (r == Done <==> c !in s'.machine.route) && (r == Done <==> !s'.conns[c].routeSet)
            && (r == Done <==> c !in s.machine.route || OpRouteClear !in f.fails)
            && (r == Platform <==> LastCall(s, s', OpRouteClear, c, false))
            && (c !in s.machine.route || r == Platform ==> Untouched(s, s'))
            && (c !in s.machine.route ==> s'.calls == s.calls)
            && (r == Done || r == Platform)
  {
    RunKeepsInv(events);
  }

  /** Done: no resolver files are left, through a call just made. */
  lemma ResolverClearAnswer(events: seq<Event>, c: ConnId, f: Faults)
    requires c in Run(events).conns
    ensures var s := Run(events); var (s', r) := HandleSpec(s, c, true, ResolverClear, f);
            && (r == NoSession <==> s.active != Some(c)) && (r == NoSession ==> s' == s)
            && (r == Done <==> LastCall(s, s', OpResolverClear, c, true))
            && (r == Done ==> s'.machine.resolver == {} && c in s'.conns && !s'.conns[c].resolverSet)
            && (r == Platform <==> LastCall(s, s', OpResolverClear, c, false)) && (r == Platform ==> Untouched(s, s'))
            && (r == Done || r == Platform || r == NoSession)
  {
    RunKeepsInv(events);
  }

  /** The answers that change nothing: the version, a refusal, a lookup and an unknown request. */
  lemma OtherAnswers(events: seq<Event>, c: ConnId, allowed: bool, req: Request, f: Faults)
    requires c in Run(events).conns
    ensures var s := Run(events); var (s', r) := HandleSpec(s, c, allowed, req, f);
            && (req.Version? ==> r == Done)
            && (r == Forbidden <==> !allowed && !req.Version?)
            && (r == BadOp <==> allowed && req.UnknownOp?)
            && (allowed && req.NatLook? ==> r == if req.parses && OpNatLook !in f.fails then Done else Platform)
            && (req.Version? || !allowed || req.UnknownOp? || req.NatLook? ==> s' == s)
  {
  }

  /** route.clear on a connection that lost its rules to a pf.clear that left resolver files. */
  predicate LetsResolverGo(s: State, e: Event) {
    && e.Serve? && e.allowed && e.req.RouteClear? && OpRouteClear !in e.f.fails
    && e.c in s.conns && s.conns[e.c].routeSet && !s.conns[e.c].applied && s.conns[e.c].resolverSet
  }

  /** Exactly one kind of step lets go of a connection that still has resolver files. */
  lemma ResolverKeptExceptOnce(s: State, e: Event)
    requires Inv(s) && ResolverOnlyActive(s)
    ensures ResolverOnlyActive(Step(s, e)) <==> !LetsResolverGo(s, e)
  {
    StepKeeps(s, e);
    if LetsResolverGo(s, e) {
      var s' := Step(s, e);
      assert e.c in s'.conns && s'.conns[e.c].resolverSet && s'.active == None;
    }
  }

  const NONE_FAIL := Faults({})

  /** One connection's life: rules, resolver files, a pf.clear that cannot remove them, a route, and away. */
  const LEAVING_FILES: seq<Event> := [
    Connect(1),
    Serve(1, true, PfApply(Some(PfArgs([], 9000))), NONE_FAIL),
    Serve(1, true, ResolverSet(Some(1)), NONE_FAIL),
    Serve(1, true, PfClear, Faults({OpResolverClear})),
    Serve(1, true, RouteSet([true]), NONE_FAIL),
    Serve(1, true, RouteClear, NONE_FAIL),
    Disconnect(1, NONE_FAIL)
  ]

  /** What those steps leave behind, one by one: the holder, the connection's flags, the resolver files. */
  ghost predicate LeavingAt(s: State, k: nat) {
    match k
    case 0 => s == INITIAL
    case 1 => At(s, None, Conn(false, false, false), {})
    case 2 => At(s, Some(1), Conn(true, false, false), {})
    case 3 => At(s, Some(1), Conn(true, true, false), {1})
    case 4 => At(s, Some(1), Conn(false, true, false), {1})
    case 5 => At(s, Some(1), Conn(false, true, true), {1})
    case 6 => At(s, None, Conn(false, true, false), {1})
    case _ => s.conns == map[] && s.active == None && s.machine.resolver == {1}
  }

  predicate At(s: State, active: Option<ConnId>, k: Conn, resolver: set<ConnId>) {
    s.active == active && s.conns == map[1 := k] && s.machine.resolver == resolver
  }

  lemma LeavingStep(s: State, k: nat)
    requires k < |LEAVING_FILES| && LeavingAt(s, k)
    ensures LeavingAt(Step(s, LEAVING_FILES[k]), k + 1)
  {
  }

  lemma {:induction false} LeavingRun(k: nat)
    requires k <= |LEAVING_FILES|
    ensures LeavingAt(Run(LEAVING_FILES[..k]), k)
  {
    if k > 0 {
      LeavingRun(k - 1);
      RunPrefix(LEAVING_FILES, k - 1);
      LeavingStep(Run(LEAVING_FILES[..k - 1]), k - 1);
    }
  }

  /** The exception is reachable, and then a disconnect at which nothing fails leaves the files behind. */
  lemma ResolverCanBeLeftBehind()
    ensures var s := Run(LEAVING_FILES);
            s.conns == map[] && s.active == None && s.machine.resolver == {1}
  {
    LeavingRun(|LEAVING_FILES|);
    assert LEAVING_FILES[..|LEAVING_FILES|] == LEAVING_FILES;
  }

  lemma RunPrefix(events: seq<Event>, k: nat)
    requires k < |events|
    ensures Run(events[..k + 1]) == Step(Run(events[..k]), events[k])
  {
    assert events[..k + 1][..k] == events[..k];
  }

  predicate ResolverClearWorks(e: Event) {
    (e.Serve? || e.Disconnect?) ==> OpResolverClear !in e.f.fails
  }

  /** With resolver removal that always works, resolver files too belong to the active connection alone. */
  lemma {:induction false} ResolverExclusiveWithoutFailures(events: seq<Event>)
    requires forall i :: 0 <= i < |events| ==> ResolverClearWorks(events[i])
    ensures ResolverNeedsRules(Run(events)) && ResolverOnlyActive(Run(events)) && ResolverHeld(Run(events))
  {
    if events != [] {
      var before, e := events[..|events| - 1], events[|events| - 1];
      ResolverExclusiveWithoutFailures(before);
      RunKeepsInv(before);
      assert ResolverClearWorks(e);
      StepKeeps(Run(before), e);
    }
  }

  // ---------------------------------------------------------------- handover

  ghost predicate NothingOf(m: Machine, c: ConnId) {
    m.pf != Some(c) && c !in m.resolver && c !in m.route
  }

  /**
   pf.clear frees the session exactly when every removal it attempted worked,
   and then nothing of that session is left; otherwise it keeps it.
   */
  lemma PfClearHandover(events: seq<Event>, c: ConnId, f: Faults)
    requires c in Run(events).conns && Run(events).active == Some(c)
    ensures var s, s' := Run(events), PfClearSpec(Run(events), c, f).0;
            && (s'.active == None <==> !Stuck(s.conns[c], f) && OpPfClear !in f.fails)
            && (s'.active == None ==> NothingOf(s'.machine, c) && s'.conns[c] == Conn(false, false, false))
            && (s'.active != None ==> s'.active == Some(c))
            && (!NothingOf(s'.machine, c) ==> s'.active == Some(c))
  {
    RunKeepsInv(events);
  }

  /**
   What a disconnect leaves of any live connection: rules and route if they could
   not be removed; resolver files if they could not be removed or if the session
   had been let go while they were there. Without failures that last case is the
   only one.
   */
  lemma DisconnectHandover(events: seq<Event>, c: ConnId, f: Faults)
    requires c in Run(events).conns
    ensures var s, s' := Run(events), CleanupSpec(Run(events), c, f);
            && c !in s'.conns && s'.active == (if s.active == Some(c) then None else s.active)
            && (s'.machine.pf == Some(c) <==> s.machine.pf == Some(c) && OpPfClear in f.fails)
            && (c in s'.machine.route <==> c in s.machine.route && OpRouteClear in f.fails)
            && (c in s'.machine.resolver <==>
                c in s.machine.resolver && (s.active != Some(c) || OpResolverClear in f.fails))
            && (f.fails == {} ==>
                  (NothingOf(s'.machine, c) <==> s.active == Some(c) || c !in s.machine.resolver))
  {
    RunKeepsInv(events);
  }

  ghost predicate NeverLetsGo(events: seq<Event>) {
    forall k :: 0 <= k < |events| ==> !LetsResolverGo(Run(events[..k]), events[k])
  }

  /** In a run without that one step, resolver files are the active connection's, and the flags say exactly whose. */
  lemma {:induction false} ResolverExactWithoutIt(events: seq<Event>)
    requires NeverLetsGo(events)
    ensures ResolverOnlyActive(Run(events)) && FlagsExact(Run(events))
  {
    if events != [] {
      var n := |events| - 1;
      var before := events[..n];
      assert forall k :: 0 <= k < n ==> before[..k] == events[..k] && before[k] == events[k];
      ResolverExactWithoutIt(before);
      RunKeepsInv(before);
      assert !LetsResolverGo(Run(before), events[n]);
      ResolverKeptExceptOnce(Run(before), events[n]);
      FlagsStayExactIff(Run(before), events[n]);
    }
  }

  /** So in such a run a disconnect at which nothing fails leaves nothing at all. */
  lemma CleanDisconnect(events: seq<Event>, c: ConnId)
    requires NeverLetsGo(events) && c in Run(events).conns
    ensures NothingOf(CleanupSpec(Run(events), c, NONE_FAIL).machine, c)
  {
    ResolverExactWithoutIt(events);
    DisconnectHandover(events, c, NONE_FAIL);
  }

  /** The resolver flag of every live connection says whether files of its own are there. */
  ghost predicate FlagsExact(s: State) {
    forall c :: c in s.conns ==> (s.conns[c].resolverSet <==> c in s.machine.resolver)
  }

  /** The step removes all resolver files, on behalf of the active connection. */
  predicate RemovesResolvers(s: State, e: Event) {
    && !e.Connect? && e.c in s.conns && s.active == Some(e.c) && OpResolverClear !in e.f.fails
    && match e {
         case Serve(c, allowed, req, _) =>
           allowed && (req.ResolverClear? || (req.PfClear? && s.conns[c].resolverSet))
         case Disconnect(c, _) => s.conns[c].resolverSet
         case _ => false
       }
  }

  /** Some other connection, let go earlier, still counts files of its own among them. */
  predicate OthersHaveFiles(s: State, e: Event) {
    !e.Connect? && exists d :: d in s.conns && d != e.c && s.conns[d].resolverSet
  }

  predicate SetsResolvers(s: State, e: Event) {
    && e.Serve? && e.allowed && e.req.ResolverSet? && DomainsOk(e.req.domains) && OpResolverSet !in e.f.fails
    && e.c in s.conns && s.active == Some(e.c) && s.conns[e.c].applied
  }

  /** Everything a step does about resolver files and flags. */
  ghost predicate ResolverFootprint(s: State, e: Event, s': State) {
    && s'.machine.resolver == (if RemovesResolvers(s, e) then {}
                               else if SetsResolvers(s, e) then s.machine.resolver + {e.c}
                               else s.machine.resolver)
    && (forall d :: d != e.c ==>
          (d in s'.conns <==> d in s.conns) && (d in s.conns ==> s'.conns[d] == s.conns[d]))
    && (e.c in s'.conns && e.c in s.conns ==>
          s'.conns[e.c].resolverSet == (SetsResolvers(s, e) || (s.conns[e.c].resolverSet && !RemovesResolvers(s, e))))
    && (e.c in s'.conns && e.c !in s.conns ==> !s'.conns[e.c].resolverSet && e.c !in s.seen)
  }

  lemma PfClearFootprint(s: State, e: Event)
    requires Inv(s) && e.Serve? && e.req.PfClear?
    ensures ResolverFootprint(s, e, Step(s, e))
  {
    if e.c in s.conns && e.allowed && s.active == Some(e.c) {
      TeardownShape(s, e.c, s.conns[e.c], true, e.f);
    }
  }

  lemma DisconnectFootprint(s: State, e: Event)
    requires Inv(s) && e.Disconnect?
    ensures ResolverFootprint(s, e, Step(s, e))
  {
    if e.c in s.conns && s.active == Some(e.c) {
      TeardownShape(s.(conns := s.conns - {e.c}), e.c, s.conns[e.c], s.conns[e.c].applied, e.f);
    }
  }

  lemma StepFootprint(s: State, e: Event)
    requires Inv(s)
    ensures ResolverFootprint(s, e, Step(s, e))
  {
    if e.Disconnect? {
      DisconnectFootprint(s, e);
    } else if e.Serve? && e.req.PfClear? {
      PfClearFootprint(s, e);
    }
  }

  /** A flag goes stale exactly when one connection's removal takes another one's files away. */
  lemma FlagsStayExactIff(s: State, e: Event)
    requires Inv(s) && FlagsExact(s)
    ensures FlagsExact(Step(s, e)) <==> !(RemovesResolvers(s, e) && OthersHaveFiles(s, e))
  {
    StepFootprint(s, e);
    if RemovesResolvers(s, e) && OthersHaveFiles(s, e) {
      var d :| d in s.conns && d != e.c && s.conns[d].resolverSet;
      assert d in Step(s, e).conns && Step(s, e).conns[d].resolverSet;
    }
  }

  /** In every run, the route comes down before the rules it depends on. */
  lemma {:induction false} RouteComesDownFirst(events: seq<Event>)
    ensures RouteBeforePf(Run(events).calls)
  {
    if events != [] {
      var s, e := Run(events[..|events| - 1]), events[|events| - 1];
      RouteComesDownFirst(events[..|events| - 1]);
      RunKeepsInv(events[..|events| - 1]);
      StepKeeps(s, e);
    }
  }
}
