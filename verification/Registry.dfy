/**
 The agent's steal routing table: who is attached (internal/agent/registry.go,
 internal/agent/agent.go) and which session a request belongs to
 (internal/agent/steal.go).
 */
module Registry {
  import opened Optional

  /** One control connection, and the way back to the CLI behind it. */
  type HandlerId = nat

  datatype Incoming = Incoming(enabled: bool, header: string, tokenHeader: string)

  datatype Hello = Hello(user: string, token: string, incoming: Incoming)

  /** open is None for a session that cannot be reached. */
  datatype Session = Session(user: string, incoming: Incoming, token: string, open: Option<HandlerId>)

  /** A handler names the session it registered, or the user it only reads for, never both. */
  datatype Handler = Handler(user: string, readOnlyUser: string)

  datatype State = State(sessions: map<string, Session>, handlers: map<HandlerId, Handler>, seen: set<HandlerId>)

  datatype Answer = Welcome | BadHello | DuplicateUser(from: Option<HandlerId>)

  predicate StealSession(h: Hello) {
    h.incoming.enabled
  }

  // -------------------------------------------------------- attach and detach

  function RegisterSpec(sessions: map<string, Session>, h: HandlerId, hello: Hello):
    (r: (map<string, Session>, Answer))
  {
    if !StealSession(hello) then (sessions, Welcome)
    else if hello.user in sessions then (sessions, DuplicateUser(sessions[hello.user].open))
    else (sessions[hello.user := Session(hello.user, hello.incoming, hello.token, Some(h))], Welcome)
  }

  /** A hello that is turned down leaves no handler behind: Closed is owed only after a welcome. */
  function HelloSpec(st: State, h: HandlerId, hello: Hello): (r: (State, Answer)) {
    var met := st.(seen := st.seen + {h});
    if hello.user == "" then (met, BadHello)
    else
      var (sessions, answer) := RegisterSpec(st.sessions, h, hello);
      if answer != Welcome then (met, answer)
      else
        var k := if StealSession(hello) then Handler(hello.user, "") else Handler("", hello.user);
        (met.(sessions := sessions, handlers := st.handlers[h := k]), Welcome)
  }

  function ClosedSpec(st: State, h: HandlerId): (r: State)
    requires h in st.handlers
  {
    var user := st.handlers[h].user;
    st.(sessions := if user != "" then st.sessions - {user} else st.sessions, handlers := st.handlers - {h})
  }

  class Agent {
    var sessions: map<string, Session>
    var handlers: map<HandlerId, Handler>
    ghost var seen: set<HandlerId>

    ghost function Now(): (r: State)
      reads this
    {
      State(sessions, handlers, seen)
    }

    constructor ()
      ensures Now() == State(map[], map[], {})
    {
      sessions, handlers, seen := map[], map[], {};
    }

    method Register(h: HandlerId, hello: Hello) returns (r: Answer)
      modifies this`sessions
      ensures (sessions, r) == RegisterSpec(old(sessions), h, hello)
    {
      if !StealSession(hello) {
        return Welcome;
      }
      if hello.user in sessions {
        return DuplicateUser(sessions[hello.user].open);
      }
      sessions := sessions[hello.user := Session(hello.user, hello.incoming, hello.token, Some(h))];
      return Welcome;
    }

    method Unregister(user: string)
      modifies this`sessions
      ensures sessions == old(sessions) - {user}
    {
      sessions := sessions - {user};
    }

    method Hello(h: HandlerId, hello: Hello) returns (r: Answer)
      modifies this
      ensures (Now(), r) == HelloSpec(old(Now()), h, hello)
    {
      seen := seen + {h};
      if hello.user == "" {
        return BadHello;
      }
      var e := Register(h, hello);
      if e != Welcome {
        return e;
      }
      if StealSession(hello) {
        handlers := handlers[h := Handler(hello.user, "")];
      } else {
        handlers := handlers[h := Handler("", hello.user)];
      }
      return Welcome;
    }

    method Closed(h: HandlerId)
      requires h in handlers
      modifies this
      ensures Now() == ClosedSpec(old(Now()), h)
    {
      var k := handlers[h];
      handlers := handlers - {h};
      if k.user != "" {
        Unregister(k.user);
      }
    }

    /** The map's iteration order is unspecified, so any order of its sessions may be searched. */
    method Match(header: string -> string) returns (r: Option<Session>)
      ensures r.None? <==> forall u :: u in sessions ==> !Qualifies(sessions[u], header)
      ensures r.Some? ==> Qualifies(r.value, header) && exists u :: u in sessions && sessions[u] == r.value
    {
      var all: seq<Session> := [];
      var left := sessions.Keys;
      while left != {}
        invariant left <= sessions.Keys
        invariant forall i :: 0 <= i < |all| ==> exists u :: u in sessions && sessions[u] == all[i]
        invariant forall u :: u in sessions && u !in left ==> sessions[u] in all
      {
        var u :| u in left;
        all := all + [sessions[u]];
        left := left - {u};
      }
      r := MatchSession(all, header);
    }
  }

  datatype Event = Attach(h: HandlerId, hello: Hello) | Detach(h: HandlerId)

  function Step(st: State, e: Event): (r: State) {
    match e
    case Attach(h, hello) => if h in st.seen then st else HelloSpec(st, h, hello).0
    case Detach(h) => if h in st.handlers then ClosedSpec(st, h) else st
  }

  function Run(events: seq<Event>): (r: State) {
    if events == [] then State(map[], map[], {}) else Step(Run(events[..|events| - 1]), events[|events| - 1])
  }

  /** What is proved of Run is true of the agent: any events drive it to that state. */
  method Drive(events: seq<Event>) returns (agent: Agent)
    ensures agent.Now() == Run(events)
  {
    agent := new Agent();
    var ids: set<HandlerId> := {};
    for i := 0 to |events|
      invariant fresh(agent) && agent.Now() == Run(events[..i]) && agent.seen == ids
    {
      assert events[..i + 1][..i] == events[..i];
      match events[i] {
        case Attach(h, hello) =>
          if h !in ids {
            var _ := agent.Hello(h, hello);
            ids := ids + {h};
          }
        case Detach(h) =>
          if h in agent.handlers {
            agent.Closed(h);
          }
      }
    }
    assert events[..|events|] == events;
  }

  /** Sessions and live steal handlers name each other. */
  ghost predicate Inv(st: State) {
    && st.handlers.Keys <= st.seen
    && (forall u :: u in st.sessions ==>
          && u != "" && st.sessions[u].user == u && st.sessions[u].incoming.enabled
          && st.sessions[u].open.Some?
          && st.sessions[u].open.value in st.handlers
          && st.handlers[st.sessions[u].open.value].user == u)
    && (forall h :: h in st.handlers && st.handlers[h].user != "" ==>
          st.handlers[h].user in st.sessions && st.sessions[st.handlers[h].user].open == Some(h))
  }

  lemma HelloKeepsInv(st: State, h: HandlerId, hello: Hello)
    requires Inv(st) && h !in st.seen
    ensures Inv(HelloSpec(st, h, hello).0)
  {
  }

  lemma ClosedKeepsInv(st: State, h: HandlerId)
    requires Inv(st) && h in st.handlers
    ensures Inv(ClosedSpec(st, h))
  {
  }

  lemma {:induction false} RunKeepsInv(events: seq<Event>)
    ensures Inv(Run(events))
  {
    if events != [] {
      var st := Run(events[..|events| - 1]);
      RunKeepsInv(events[..|events| - 1]);
      match events[|events| - 1] {
        case Attach(h, hello) =>
          if h !in st.seen {
            HelloKeepsInv(st, h, hello);
          }
        case Detach(h) =>
          if h in st.handlers {
            ClosedKeepsInv(st, h);
          }
      }
    }
  }

  /** In every run a user has an entry exactly when one live steal handler names them, and only one ever does. */
  lemma EntryIffOneHandler(events: seq<Event>, u: string)
    requires u != ""
    ensures var st := Run(events);
            u in st.sessions <==> exists h :: h in st.handlers && st.handlers[h].user == u
    ensures var st := Run(events);
            forall h, k :: h in st.handlers && k in st.handlers && st.handlers[h].user == st.handlers[k].user == u ==>
                             h == k
  {
    RunKeepsInv(events);
  }

  /** The event is a steal session's: its hello, or its end. (Identities are not used twice.) */
  predicate OfSteal(st: State, e: Event) {
    match e
    case Attach(h, hello) => h !in st.seen && StealSession(hello)
    case Detach(h) => h in st.handlers && st.handlers[h].user != ""
  }

  /** The same run as if no read-only session had ever been there. */
  function StealsOnly(events: seq<Event>): (r: seq<Event>) {
    if events == [] then []
    else
      var before := events[..|events| - 1];
      var e := events[|events| - 1];
      StealsOnly(before) + if OfSteal(Run(before), e) then [e] else []
  }

  /** How the two runs correspond: the same sessions and the same steal handlers. */
  ghost predicate SameSteals(full: State, steals: State) {
    && steals.sessions == full.sessions
    && steals.seen <= full.seen
    && (forall h :: h in steals.handlers <==> h in full.handlers && full.handlers[h].user != "")
    && (forall h :: h in steals.handlers ==> steals.handlers[h] == full.handlers[h])
  }

  lemma HelloKeepsSame(full: State, steals: State, h: HandlerId, hello: Hello)
    requires Inv(full) && SameSteals(full, steals) && h !in full.seen
    ensures SameSteals(HelloSpec(full, h, hello).0,
                       if StealSession(hello) then HelloSpec(steals, h, hello).0 else steals)
  {
  }

  lemma StepKeepsSame(full: State, steals: State, e: Event)
    requires Inv(full) && SameSteals(full, steals)
    ensures SameSteals(Step(full, e), if OfSteal(full, e) then Step(steals, e) else steals)
  {
    match e {
      case Attach(h, hello) =>
        if h !in full.seen {
          HelloKeepsSame(full, steals, h, hello);
        }
      case Detach(h) =>
    }
  }

  lemma {:induction false} RunsCorrespond(events: seq<Event>)
    ensures SameSteals(Run(events), Run(StealsOnly(events)))
  {
    if events != [] {
      var before, e := events[..|events| - 1], events[|events| - 1];
      RunsCorrespond(before);
      RunKeepsInv(before);
      StepKeepsSame(Run(before), Run(StealsOnly(before)), e);
      var kept := StealsOnly(before) + [e];
      assert kept[..|kept| - 1] == StealsOnly(before);
      assert StealsOnly(before) + [] == StealsOnly(before);
    }
  }

  /**
   However many read-only sessions come and go, the routing table is what it would
   be without them: leaving all their events out of a run changes nothing in it.
   */
  lemma ReadOnlyChangesNothing(events: seq<Event>)
    ensures Run(StealsOnly(events)).sessions == Run(events).sessions
  {
    RunsCorrespond(events);
  }

  /** A detach removes the entry of the handler that left and no other. */
  lemma DetachRemovesOwnEntry(events: seq<Event>, h: HandlerId, u: string)
    ensures var st := Run(events);
            h in st.handlers && u in st.sessions ==>
              (u !in ClosedSpec(st, h).sessions <==> st.sessions[u].open == Some(h))
  {
    RunKeepsInv(events);
  }

  // ----------------------------------------------------------------- routing

  /** Whether a request with these headers may be sent to this session. */
  predicate Qualifies(s: Session, header: string -> string) {
    && s.incoming.enabled && s.token != "" && s.user != "" && s.open.Some?
    && header(s.incoming.header) == s.user
    && header(s.incoming.tokenHeader) == s.token
  }

  method MatchSession(ss: seq<Session>, header: string -> string) returns (r: Option<Session>)
    ensures r == FirstMatch(ss, header)
    ensures r.None? <==> forall i :: 0 <= i < |ss| ==> !Qualifies(ss[i], header)
    ensures r.Some? ==> r.value in ss && Qualifies(r.value, header)
  {
    for i := 0 to |ss|
      invariant forall k :: 0 <= k < i ==> !Qualifies(ss[k], header)
    {
      var s := ss[i];
      if !s.incoming.enabled || |s.token| == 0 || s.user == "" || s.open.None? {
        continue;
      }
      if header(s.incoming.header) != s.user {
        continue;
      }
      if header(s.incoming.tokenHeader) == s.token {
        FirstMatchIs(ss, header, i);
        return Some(s);
      }
    }
    NoMatch(ss, header);
    return None;
  }

  function FirstMatch(ss: seq<Session>, header: string -> string): (r: Option<Session>) {
    if ss == [] then None else if Qualifies(ss[0], header) then Some(ss[0]) else FirstMatch(ss[1..], header)
  }

  lemma {:induction false} FirstMatchIs(ss: seq<Session>, header: string -> string, i: nat)
    requires i < |ss| && Qualifies(ss[i], header)
    requires forall k :: 0 <= k < i ==> !Qualifies(ss[k], header)
    ensures FirstMatch(ss, header) == Some(ss[i])
  {
    if i > 0 {
      FirstMatchIs(ss[1..], header, i - 1);
    }
  }

  lemma {:induction false} NoMatch(ss: seq<Session>, header: string -> string)
    requires forall k :: 0 <= k < |ss| ==> !Qualifies(ss[k], header)
    ensures FirstMatch(ss, header) == None
  {
    if ss != [] {
      NoMatch(ss[1..], header);
    }
  }

  lemma {:induction false} MatchIsQualified(ss: seq<Session>, header: string -> string)
    ensures FirstMatch(ss, header).Some? ==>
              FirstMatch(ss, header).value in ss && Qualifies(FirstMatch(ss, header).value, header)
    ensures FirstMatch(ss, header).None? ==> forall s :: s in ss ==> !Qualifies(s, header)
  {
    if ss != [] {
      MatchIsQualified(ss[1..], header);
      assert ss == [ss[0]] + ss[1..];
    }
  }

  ghost predicate AtMostOneQualifies(ss: seq<Session>, header: string -> string) {
    forall a, b :: a in ss && b in ss && Qualifies(a, header) && Qualifies(b, header) ==> a == b
  }

  ghost predicate OrderIrrelevant(ss: seq<Session>, header: string -> string) {
    forall ts: seq<Session> :: multiset(ts) == multiset(ss) ==> FirstMatch(ts, header) == FirstMatch(ss, header)
  }

  /** The answer does not depend on the order searched exactly when at most one session qualifies. */
  lemma OrderIrrelevantIffUnique(ss: seq<Session>, header: string -> string)
    ensures OrderIrrelevant(ss, header) <==> AtMostOneQualifies(ss, header)
  {
    if AtMostOneQualifies(ss, header) {
      forall ts: seq<Session> | multiset(ts) == multiset(ss)
        ensures FirstMatch(ts, header) == FirstMatch(ss, header)
      {
        MatchIsQualified(ts, header);
        MatchIsQualified(ss, header);
        assert forall s :: s in ts <==> s in multiset(ts);
        assert forall s :: s in ss <==> s in multiset(ss);
      }
    } else {
      var a, b :| a in ss && b in ss && Qualifies(a, header) && Qualifies(b, header) && a != b;
      var ta := MoveToFront(ss, a);
      var tb := MoveToFront(ss, b);
      assert FirstMatch(ta, header) == Some(a) && FirstMatch(tb, header) == Some(b);
    }
  }

  lemma MoveToFront(ss: seq<Session>, s: Session) returns (ts: seq<Session>)
    requires s in ss
    ensures multiset(ts) == multiset(ss) && ts != [] && ts[0] == s
  {
    var i :| 0 <= i < |ss| && ss[i] == s;
    ts := [s] + ss[..i] + ss[i + 1..];
    assert ss == ss[..i] + [s] + ss[i + 1..];
  }

  ghost predicate SharedHeaderNames(sessions: map<string, Session>) {
    forall u, v :: u in sessions && v in sessions ==> sessions[u].incoming.header == sessions[v].incoming.header
  }

  ghost predicate ListsSessions(ss: seq<Session>, sessions: map<string, Session>) {
    forall s :: s in ss <==> exists u :: u in sessions && sessions[u] == s
  }

  /**
   In every run where the attached sessions share a user header, every order in
   which the table can be listed routes a request to the same session.
   */
  lemma RoutingIsDeterministic(events: seq<Event>, ss: seq<Session>, header: string -> string)
    requires SharedHeaderNames(Run(events).sessions) && ListsSessions(ss, Run(events).sessions)
    ensures OrderIrrelevant(ss, header)
  {
    RunKeepsInv(events);
    OrderIrrelevantIffUnique(ss, header);
  }

  // ----------------------------------------------- from the hello to the route

  /** Every connection that has said hello. */
  function Met(events: seq<Event>): (r: set<HandlerId>) {
    if events == [] then {}
    else
      var e := events[|events| - 1];
      Met(events[..|events| - 1]) + if e.Attach? then {e.h} else {}
  }

  predicate StealsFor(hello: Hello, user: string) {
    hello.incoming.enabled && hello.user == user
  }

  /** Someone who is attached takes requests for this user. */
  predicate Taken(live: map<HandlerId, Hello>, user: string) {
    exists h :: h in live && StealsFor(live[h], user)
  }

  /**
   The hellos that count, told without the registry: each connection's, from when it
   was welcomed until it left. A hello is welcome if it names a user and, should it
   ask for requests, nobody attached takes them for that user already.
   */
  function Live(events: seq<Event>): (r: map<HandlerId, Hello>) {
    if events == [] then map[]
    else
      var before := events[..|events| - 1];
      var live := Live(before);
      match events[|events| - 1]
      case Attach(h, hello) => if h !in Met(before) && IsWelcome(live, hello) then live[h := hello] else live
      case Detach(h) => live - {h}
  }

  predicate IsWelcome(live: map<HandlerId, Hello>, hello: Hello) {
    hello.user != "" && !(hello.incoming.enabled && Taken(live, hello.user))
  }

  /** Each live steal hello has its entry, with its own header names, token and way back, and there are no others. */
  ghost predicate Mirrors(st: State, live: map<HandlerId, Hello>) {
    && st.handlers.Keys == live.Keys
    && (forall h :: h in live ==> live[h].user != "")
    && (forall h :: h in live ==> st.handlers[h].user == if live[h].incoming.enabled then live[h].user else "")
    && (forall h :: h in live && live[h].incoming.enabled ==>
          && live[h].user in st.sessions
          && st.sessions[live[h].user] == Session(live[h].user, live[h].incoming, live[h].token, Some(h)))
    && (forall u :: u in st.sessions ==>
          && st.sessions[u].open.Some? && st.sessions[u].open.value in live
          && StealsFor(live[st.sessions[u].open.value], u))
  }

  lemma TakenIsListed(st: State, live: map<HandlerId, Hello>, user: string)
    requires Mirrors(st, live)
    ensures user in st.sessions <==> Taken(live, user)
  {
  }

  lemma StealMirrors(st: State, live: map<HandlerId, Hello>, h: HandlerId, hello: Hello)
    requires Mirrors(st, live) && h !in live && IsWelcome(live, hello) && hello.incoming.enabled
    ensures HelloSpec(st, h, hello).1 == Welcome && Mirrors(HelloSpec(st, h, hello).0, live[h := hello])
  {
    TakenIsListed(st, live, hello.user);
  }

  lemma ReadOnlyMirrors(st: State, live: map<HandlerId, Hello>, h: HandlerId, hello: Hello)
    requires Mirrors(st, live) && h !in live && IsWelcome(live, hello) && !hello.incoming.enabled
    ensures HelloSpec(st, h, hello).1 == Welcome && Mirrors(HelloSpec(st, h, hello).0, live[h := hello])
  {
  }

  lemma AttachMirrors(st: State, live: map<HandlerId, Hello>, h: HandlerId, hello: Hello)
    requires Mirrors(st, live) && h !in st.seen && st.handlers.Keys <= st.seen
    ensures Mirrors(HelloSpec(st, h, hello).0, if IsWelcome(live, hello) then live[h := hello] else live)
    ensures HelloSpec(st, h, hello).1 == Welcome <==> IsWelcome(live, hello)
  {
    TakenIsListed(st, live, hello.user);
    if IsWelcome(live, hello) {
      if hello.incoming.enabled {
        StealMirrors(st, live, h, hello);
      } else {
        ReadOnlyMirrors(st, live, h, hello);
      }
    }
  }

  lemma DetachMirrors(st: State, live: map<HandlerId, Hello>, h: HandlerId)
    requires Mirrors(st, live) && h in st.handlers
    ensures Mirrors(ClosedSpec(st, h), live - {h})
  {
  }

  lemma {:induction false} RunMirrors(events: seq<Event>)
    ensures Mirrors(Run(events), Live(events)) && Run(events).seen == Met(events)
  {
    if events != [] {
      var before := events[..|events| - 1];
      var st, live := Run(before), Live(before);
      RunMirrors(before);
      RunKeepsInv(before);
      match events[|events| - 1] {
        case Attach(h, hello) =>
          if h !in st.seen {
            AttachMirrors(st, live, h, hello);
          }
        case Detach(h) =>
          if h in st.handlers {
            DetachMirrors(st, live, h);
          } else {
            assert live - {h} == live;
          }
      }
    }
  }

  /** What a hello is answered, in every run: refused without a user, refused while the user is taken, else welcome. */
  lemma HelloAnswer(events: seq<Event>, h: HandlerId, hello: Hello)
    requires h !in Run(events).seen
    ensures var r := HelloSpec(Run(events), h, hello).1;
            && (r == BadHello <==> hello.user == "")
            && (r == Welcome <==> IsWelcome(Live(events), hello))
            && (r.DuplicateUser? <==> hello.user != "" && hello.incoming.enabled && Taken(Live(events), hello.user))
            && (r.DuplicateUser? ==> r.from.Some? && r.from.value in Live(events)
                                     && StealsFor(Live(events)[r.from.value], hello.user))
  {
    RunMirrors(events);
    RunKeepsInv(events);
    AttachMirrors(Run(events), Live(events), h, hello);
  }

  /** The request names this user and carries their token, in the headers their hello asked for. */
  predicate Claims(hello: Hello, header: string -> string) {
    && hello.incoming.enabled && hello.token != ""
    && header(hello.incoming.header) == hello.user
    && header(hello.incoming.tokenHeader) == hello.token
  }

  lemma EntryQualifiesIff(events: seq<Event>, h: HandlerId, header: string -> string)
    requires h in Live(events) && Live(events)[h].incoming.enabled
    ensures var hello := Live(events)[h];
            && hello.user in Run(events).sessions && Run(events).sessions[hello.user].open == Some(h)
            && (Qualifies(Run(events).sessions[hello.user], header) <==> Claims(hello, header))
  {
    RunMirrors(events);
  }

  /**
   From the hello to the route, in every run and every order the table is read in:
   a request goes to the laptop of a connection whose hello it meets - user and token
   in the headers that hello named - and to the application if it meets none.
   */
  lemma RequestGoesWhereItClaims(events: seq<Event>, ss: seq<Session>, header: string -> string)
    requires ListsSessions(ss, Run(events).sessions)
    ensures var m := FirstMatch(ss, header);
            && (m.Some? ==> && m.value.open.Some? && m.value.open.value in Live(events)
                            && Claims(Live(events)[m.value.open.value], header))
            && (m.None? <==> forall h :: h in Live(events) ==> !Claims(Live(events)[h], header))
  {
    RunMirrors(events);
    MatchIsQualified(ss, header);
    var live, sessions := Live(events), Run(events).sessions;
    forall h | h in live && Claims(live[h], header)
      ensures FirstMatch(ss, header).Some?
    {
      EntryQualifiesIff(events, h, header);
      assert sessions[live[h].user] in ss;
    }
    if FirstMatch(ss, header).Some? {
      var s := FirstMatch(ss, header).value;
      var u :| u in sessions && sessions[u] == s;
      EntryQualifiesIff(events, s.open.value, header);
    }
  }

  predicate SendsTo(ss: seq<Session>, header: string -> string, h: HandlerId) {
    FirstMatch(ss, header).Some? && FirstMatch(ss, header).value.open == Some(h)
  }

  /** Some order of the table sends the request to this connection. */
  ghost predicate MaySendTo(ss: seq<Session>, header: string -> string, h: HandlerId) {
    exists ts: seq<Session> :: multiset(ts) == multiset(ss) && SendsTo(ts, header, h)
  }

  lemma SameMembers(ts: seq<Session>, ss: seq<Session>)
    requires multiset(ts) == multiset(ss)
    ensures forall s :: s in ts <==> s in ss
  {
    assert forall s :: s in ts <==> s in multiset(ts);
    assert forall s :: s in ss <==> s in multiset(ss);
  }

  /** Each connection whose hello is met can be the one the request goes to, and no other can. */
  lemma SentToIffClaimed(events: seq<Event>, ss: seq<Session>, h: HandlerId, header: string -> string)
    requires ListsSessions(ss, Run(events).sessions) && h in Live(events)
    ensures MaySendTo(ss, header, h) <==> Claims(Live(events)[h], header)
  {
    if Claims(Live(events)[h], header) {
      EntryQualifiesIff(events, h, header);
      var s := Run(events).sessions[Live(events)[h].user];
      assert s in ss;
      var ts := MoveToFront(ss, s);
      assert SendsTo(ts, header, h);
    }
    if MaySendTo(ss, header, h) {
      var ts :| multiset(ts) == multiset(ss) && SendsTo(ts, header, h);
      SameMembers(ts, ss);
      RequestGoesWhereItClaims(events, ts, header);
    }
  }
}
