/**
 One request, two places it could run: the agent's proxy
 (internal/agent/proxy.go), the CLI's end of the stream
 (internal/session/client.go) and its receiver (internal/cli/steal.go), as a
 two-party protocol in which every step may fail and the steps of the two
 sides interleave freely.
 */
module Steal {

  /** What travels back on the stream: a refusal line, some other line, or an HTTP response head. */
  datatype Item =
    | Refusal(code: string)
    | OtherLine
    | Reply(status: int, noListener: bool)

  /** How the CLI on the other end treats an http stream. */
  datatype CliKind = Accepting | NoIncoming | UnknownType | NeverAnswers

  /** The request and its surroundings: head is the request line and headers, total everything written. */
  datatype Request = Request(upgrade: bool, matched: bool, tooBig: bool, head: nat, total: nat)

  datatype Outcome = AskedApp | BadGateway | Relayed(resp: Item)

  datatype AgentPc =
    | Deciding
    | Buffering
    | Opening
    | WritingHeader
    | AwaitingReply
    | ReadingReply(seen: nat)
    | Finished(outcome: Outcome)

  datatype CliPc =
    | CliIdle
    | CliReadingRequest
    | CliDialing
    | CliConnected
    | CliForwarding
    | CliAnswered
    | CliClosed

  /**
   headerSent: the whole header line has reached the CLI. written: request
   bytes the agent's writer has put on the stream. devBytes: request bytes the
   developer's process has been given. appRequests: how often the task's own
   application was asked. replies: what is on the stream and not read yet; sent:
   everything the CLI ever put on it.
   */
  datatype State = State(
    req: Request,
    kind: CliKind,
    agent: AgentPc,
    cli: CliPc,
    headerSent: bool,
    agentClosed: bool,
    written: nat,
    replies: seq<Item>,
    devBytes: nat,
    appRequests: nat,
    sent: seq<Item>)

  const MAX_INFORMATIONAL := 8
  const BAD_GATEWAY := 502
  const SWITCHING_PROTOCOLS := 101

  function Start(req: Request, kind: CliKind): (r: State) {
    State(req, kind, Deciding, CliIdle, false, false, 0, [], 0, 0, [])
  }

  datatype Event =
    | Decide
    | BufferBody(readable: bool)
    | OpenStream(works: bool)
    | WriteHeader(arrives: bool, works: bool)
    | WriteRequest(n: nat)
    | ReadItem
    | ReadFails
    | CliAccepts
    | CliHeaderTimeout
    | CliReadsRequest
    | CliRejects(status: int)
    | CliDials(works: bool)
    | CliConnectionLost(retry: bool)
    | CliForwards(n: nat)
    | DevAnswers(status: int, noListener: bool)
    | CliFails
    | CliPanics

  predicate Informational(status: int) {
    100 <= status <= 199
  }

  /** The steal attempt is over: the stream is closed and the answer chosen. */
  function Finish(s: State, o: Outcome): (r: State) {
    s.(agent := Finished(o), agentClosed := true,
       appRequests := if o == AskedApp then s.appRequests + 1 else s.appRequests)
  }

  /** A failure the laptop cannot have acted on: replayed, unless no copy of the body was kept. */
  function Unserved(s: State): (r: State) {
    Finish(s, if s.req.tooBig then BadGateway else AskedApp)
  }

  /** One response off the stream: informational ones are read past, up to a limit. */
  function TakeReply(s: State, seen: nat, item: Item): (r: State)
    requires s.replies != []
  {
    var rest := s.(replies := s.replies[1..]);
    if !item.Reply? then Finish(rest, BadGateway)
    else if Informational(item.status) then
      if item.status == SWITCHING_PROTOCOLS || seen + 1 >= MAX_INFORMATIONAL then Finish(rest, BadGateway)
      else rest.(agent := ReadingReply(seen + 1))
    else if item.status == BAD_GATEWAY && item.noListener then Unserved(rest)
    else rest.(agent := Finished(Relayed(item.(noListener := false))))
  }

  function AgentStep(s: State, e: Event): (r: State) {
    match e
    case Decide =>
      if s.agent != Deciding then s
      else if s.req.upgrade || !s.req.matched then Finish(s, AskedApp)
      else s.(agent := Buffering)
    case BufferBody(readable) =>
      if s.agent != Buffering then s else if readable then s.(agent := Opening) else Finish(s, BadGateway)
    case OpenStream(works) =>
      if s.agent != Opening then s else if works then s.(agent := WritingHeader) else Unserved(s)
    case WriteHeader(arrives, works) =>
      if s.agent != WritingHeader then s
      else
        var sent := s.(headerSent := arrives || works);
        if works then sent.(agent := AwaitingReply) else Unserved(sent)
    case WriteRequest(n) =>
      if s.headerSent && !s.agentClosed && (s.agent.AwaitingReply? || s.agent.ReadingReply? || s.agent.Finished?) &&
         s.written + n <= s.req.total
      then s.(written := s.written + n) else s
    case ReadItem =>
      if s.replies == [] then s
      else
        var item := s.replies[0];
        if s.agent.AwaitingReply? then
          match item
          case Refusal(_) => Unserved(s.(replies := s.replies[1..]))
          case OtherLine => Finish(s.(replies := s.replies[1..]), BadGateway)
          case Reply(_, _) => s.(agent := ReadingReply(0))
        else if s.agent.ReadingReply? then TakeReply(s, s.agent.seen, item)
        else s
    case ReadFails =>
      if s.agent.AwaitingReply? || s.agent.ReadingReply? then Finish(s, BadGateway) else s
    case _ => s
  }

  function Say(s: State, item: Item): (r: State) {
    s.(replies := s.replies + [item], sent := s.sent + [item])
  }

  function Answer(s: State, item: Item): (r: State) {
    Say(s, item).(cli := CliAnswered)
  }

  function CliStep(s: State, e: Event): (r: State) {
    match e
    case CliAccepts =>
      if s.cli != CliIdle || !s.headerSent then s
      else
        match s.kind {
          case Accepting => s.(cli := CliReadingRequest)
          case NoIncoming => Say(s, Refusal("no_incoming")).(cli := CliClosed)
          case UnknownType => Say(s, Refusal("bad_hello")).(cli := CliClosed)
          case NeverAnswers => s
        }
    case CliHeaderTimeout => if s.cli == CliIdle then s.(cli := CliClosed) else s
    case CliReadsRequest =>
      if s.cli == CliReadingRequest && 0 < s.req.head <= s.written then s.(cli := CliDialing) else s
    case CliRejects(status) =>
      if s.cli == CliReadingRequest then Answer(s, Reply(status, false)) else s
    case CliDials(works) =>
      if s.cli != CliDialing then s
      else if works then s.(cli := CliConnected)
      else Answer(s, Reply(BAD_GATEWAY, true))
    case CliConnectionLost(retry) =>
      if s.cli != CliConnected then s
      else if retry then s.(cli := CliDialing)
      else Answer(s, Reply(BAD_GATEWAY, false))
    case CliForwards(n) =>
      if (s.cli == CliConnected || s.cli == CliForwarding) && 0 < n && s.devBytes + n <= s.written
      then s.(devBytes := s.devBytes + n, cli := CliForwarding) else s
    case DevAnswers(status, noListener) =>
      if s.cli != CliConnected && s.cli != CliForwarding then s
      else if Informational(status) then Say(s, Reply(status, noListener)).(cli := CliForwarding)
      else Answer(s, Reply(status, false))
    case CliFails =>
      if s.cli == CliConnected || s.cli == CliForwarding then Answer(s, Reply(BAD_GATEWAY, false)) else s
    case CliPanics =>
      if s.cli == CliIdle then s else s.(cli := CliClosed)
    case _ => s
  }

  function Step(s: State, e: Event): (r: State) {
    CliStep(AgentStep(s, e), e)
  }

  function Run(req: Request, kind: CliKind, events: seq<Event>): (r: State) {
    if events == [] then Start(req, kind)
    else Step(Run(req, kind, events[..|events| - 1]), events[|events| - 1])
  }

  // -------------------------------------------------------------- invariants

  predicate Over(c: CliPc) {
    c.CliAnswered? || c.CliClosed?
  }

  predicate BeforeBytes(c: CliPc) {
    c.CliIdle? || c.CliReadingRequest? || c.CliDialing? || c.CliConnected?
  }

  predicate BeforeHeader(a: AgentPc) {
    a.Deciding? || a.Buffering? || a.Opening? || a.WritingHeader?
  }

  /** A line or response that invites the agent to replay. */
  predicate ClaimsUnserved(item: Item) {
    item.Refusal? || item == Reply(BAD_GATEWAY, true)
  }

  /** A final response without the internal header. */
  predicate Clean(item: Item) {
    item.Reply? && !item.noListener && !Informational(item.status)
  }

  /** The CLI's half: bytes reach the developer's process only after a dial, and claims are true. */
  ghost predicate CliInv(s: State) {
    BytesInv(s) && ClaimsInv(s)
  }

  ghost predicate BytesInv(s: State) {
    && s.devBytes <= s.written <= s.req.total
    && (BeforeBytes(s.cli) ==> s.devBytes == 0)
    && (s.cli.CliDialing? || s.cli.CliConnected? || s.cli.CliForwarding? ==> s.written > 0)
    && (!s.headerSent ==> s.written == 0 && (s.cli.CliIdle? || s.cli.CliClosed?))
  }

  ghost predicate ClaimsInv(s: State) {
    forall i :: 0 <= i < |s.replies| && ClaimsUnserved(s.replies[i]) ==> Over(s.cli) && s.devBytes == 0
  }

  /** The agent's half: it asks the application at most once, and only when the laptop can no longer act. */
  ghost predicate AgentInv(s: State) {
    && s.appRequests == (if s.agent == Finished(AskedApp) then 1 else 0)
    && (BeforeHeader(s.agent) ==> !s.headerSent)
    && (s.agentClosed ==> s.agent.Finished?)
    && (s.agent == Finished(AskedApp) ==>
          s.agentClosed && s.devBytes == 0 && (s.written == 0 || Over(s.cli)))
    && (s.agent == Finished(AskedApp) && s.req.matched && !s.req.upgrade ==> !s.req.tooBig)
    && (s.agent.Finished? && s.agent.outcome.Relayed? ==>
          Clean(s.agent.outcome.resp))
    && (s.agent.ReadingReply? ==> s.agent.seen < MAX_INFORMATIONAL)
  }

  /** Closing the attempt when the laptop can no longer act. */
  lemma UnservedKeeps(s: State)
    requires CliInv(s) && AgentInv(s) && !s.agent.Finished? && s.devBytes == 0 && (s.written == 0 || Over(s.cli))
    ensures CliInv(Unserved(s)) && AgentInv(Unserved(s))
  {
  }

  /** Before the header is out nothing of the request can have left. */
  lemma BeforeHeaderKeeps(s: State, e: Event)
    requires CliInv(s) && AgentInv(s) && BeforeHeader(s.agent)
    ensures CliInv(AgentStep(s, e)) && AgentInv(AgentStep(s, e))
  {
  }

  lemma ReadItemKeeps(s: State)
    requires CliInv(s) && AgentInv(s) && !BeforeHeader(s.agent)
    ensures CliInv(AgentStep(s, ReadItem)) && AgentInv(AgentStep(s, ReadItem))
  {
    if s.replies != [] {
      var rest := s.(replies := s.replies[1..]);
      assert CliInv(rest) && AgentInv(rest);
      if ClaimsUnserved(s.replies[0]) && (s.agent.AwaitingReply? || s.agent.ReadingReply?) {
        UnservedKeeps(rest);
      }
    }
  }

  lemma AgentStepKeeps(s: State, e: Event)
    requires CliInv(s) && AgentInv(s)
    ensures CliInv(AgentStep(s, e)) && AgentInv(AgentStep(s, e))
    ensures AgentStep(s, e).req == s.req
  {
    if BeforeHeader(s.agent) {
      BeforeHeaderKeeps(s, e);
    } else if e.ReadItem? {
      ReadItemKeeps(s);
    }
  }

  lemma CliStepKeepsBytes(s: State, e: Event)
    requires BytesInv(s)
    ensures BytesInv(CliStep(s, e))
  {
  }

  lemma CliStepKeepsClaims(s: State, e: Event)
    requires BytesInv(s) && ClaimsInv(s)
    ensures ClaimsInv(CliStep(s, e))
  {
  }

  lemma CliStepKeeps(s: State, e: Event)
    requires CliInv(s) && AgentInv(s)
    ensures CliInv(CliStep(s, e)) && AgentInv(CliStep(s, e))
    ensures CliStep(s, e).agent == s.agent && CliStep(s, e).req == s.req
  {
    CliStepKeepsBytes(s, e);
    CliStepKeepsClaims(s, e);
  }

  lemma {:induction false} RunKeeps(req: Request, kind: CliKind, events: seq<Event>)
    ensures var s := Run(req, kind, events);
            CliInv(s) && AgentInv(s) && s.req == req
  {
    if events != [] {
      var s, e := Run(req, kind, events[..|events| - 1]), events[|events| - 1];
      RunKeeps(req, kind, events[..|events| - 1]);
      AgentStepKeeps(s, e);
      CliStepKeeps(AgentStep(s, e), e);
    }
  }

  // ---------------------------------------------------------------- theorems

  /**
   In every interleaving, with a failure anywhere, the request never runs on
   both sides: the application is asked at most once, and only if no byte of
   the request has reached the developer's process or ever will.
   */
  lemma NeverRunsTwice(req: Request, kind: CliKind, events: seq<Event>, later: seq<Event>)
    ensures Run(req, kind, events).appRequests <= 1
    ensures Run(req, kind, events).appRequests == 1 ==> Run(req, kind, events + later).devBytes == 0
    ensures Run(req, kind, events).devBytes > 0 ==> Run(req, kind, events + later).appRequests == 0
  {
    RunKeeps(req, kind, events);
    RunKeeps(req, kind, events + later);
    OutcomeIsFinal(req, kind, events, later);
  }

  /** An answer, once given, does not change; bytes delivered are not taken back. */
  lemma {:induction false} OutcomeIsFinal(req: Request, kind: CliKind, events: seq<Event>, later: seq<Event>)
    ensures Run(req, kind, events).agent.Finished? ==>
              Run(req, kind, events + later).agent == Run(req, kind, events).agent &&
              Run(req, kind, events + later).appRequests == Run(req, kind, events).appRequests
    ensures Run(req, kind, events).devBytes <= Run(req, kind, events + later).devBytes
  {
    if later == [] {
      assert events + later == events;
    } else {
      var n := |later| - 1;
      OutcomeIsFinal(req, kind, events, later[..n]);
      assert (events + later)[..|events + later| - 1] == events + later[..n];
      var s, e := Run(req, kind, events + later[..n]), later[n];
      assert Run(req, kind, events + later) == Step(s, e);
      StepIsMonotone(s, e);
    }
  }

  lemma AgentIsMonotone(s: State, e: Event)
    ensures var s' := AgentStep(s, e); s'.devBytes == s.devBytes && s'.kind == s.kind && s'.req == s.req
    ensures s.agent.Finished? ==> AgentStep(s, e).agent == s.agent && AgentStep(s, e).appRequests == s.appRequests
  {
  }

  lemma CliIsMonotone(s: State, e: Event)
    ensures s.devBytes <= CliStep(s, e).devBytes
  {
  }

  lemma StepIsMonotone(s: State, e: Event)
    ensures s.devBytes <= Step(s, e).devBytes
    ensures Step(s, e).kind == s.kind && Step(s, e).req == s.req
    ensures s.agent.Finished? ==> Step(s, e).agent == s.agent && Step(s, e).appRequests == s.appRequests
  {
    AgentIsMonotone(s, e);
    CliIsMonotone(AgentStep(s, e), e);
    CliLeavesAgent(AgentStep(s, e), e);
  }

  /**
   The step at which the agent learns that the laptop did not serve the request:
   the stream would not open, its header could not be written, the CLI refused
   the stream, or the CLI's dial to the local port failed.
   */
  predicate TurnsDown(s: State, e: Event) {
    match e
    case OpenStream(works) => s.agent.Opening? && !works
    case WriteHeader(_, works) => s.agent.WritingHeader? && !works
    case ReadItem =>
      s.replies != [] && ((s.agent.AwaitingReply? && s.replies[0].Refusal?)
                          || (s.agent.ReadingReply? && s.replies[0] == Reply(BAD_GATEWAY, true)))
    case _ => false
  }

  lemma AsksOnlyWhenTurnedDown(s: State, e: Event)
    requires !s.agent.Finished? && s.req.matched && !s.req.upgrade
    ensures Step(s, e).agent == Finished(AskedApp) <==> !s.req.tooBig && TurnsDown(s, e)
  {
  }

  /** The step at which the agent reads something it cannot take for an answer. */
  predicate Spoils(s: State, e: Event) {
    match e
    case BufferBody(readable) => s.agent.Buffering? && !readable
    case ReadFails => s.agent.AwaitingReply? || s.agent.ReadingReply?
    case ReadItem =>
      && s.replies != []
      && var item := s.replies[0];
         || (s.agent.AwaitingReply? && item.OtherLine?)
         || (s.agent.ReadingReply? && !item.Reply?)
         || (s.agent.ReadingReply? && item.Reply? && item.status == SWITCHING_PROTOCOLS)
         || (s.agent == ReadingReply(MAX_INFORMATIONAL - 1) && item.Reply? && Informational(item.status))
    case _ => false
  }

  /** The step at which the agent reads an answer of the developer's process, or one the CLI gives in its place. */
  predicate ReadsAnswer(s: State, e: Event) {
    && e == ReadItem && s.agent.ReadingReply? && s.replies != [] && s.replies[0].Reply?
    && !Informational(s.replies[0].status) && s.replies[0] != Reply(BAD_GATEWAY, true)
  }

  /** Something a step can be; Said is the CLI putting one item on the stream. */
  datatype Mark = ByApp | ByError | ByLaptop | Downturn | Said(item: Item)

  predicate Is(s: State, e: Event, m: Mark) {
    match m
    case ByApp => || (e == Decide && s.agent.Deciding? && (s.req.upgrade || !s.req.matched))
                  || (TurnsDown(s, e) && !s.req.tooBig)
    case ByError => Spoils(s, e) || (TurnsDown(s, e) && s.req.tooBig)
    case ByLaptop => ReadsAnswer(s, e)
    case Downturn => TurnsDown(s, e)
    case Said(item) => Says(s, e, item)
  }

  /** What the CLI says, and when: about its own dial, for the developer's process, and for itself. */
  predicate Says(s: State, e: Event, item: Item) {
    match e
    case CliAccepts =>
      s.cli.CliIdle? && s.headerSent && ((s.kind.NoIncoming? && item == Refusal("no_incoming"))
                                         || (s.kind.UnknownType? && item == Refusal("bad_hello")))
    case CliRejects(status) => s.cli.CliReadingRequest? && item == Reply(status, false)
    case CliDials(works) => s.cli.CliDialing? && !works && item == Reply(BAD_GATEWAY, true)
    case CliConnectionLost(retry) => s.cli.CliConnected? && !retry && item == Reply(BAD_GATEWAY, false)
    case CliFails => (s.cli.CliConnected? || s.cli.CliForwarding?) && item == Reply(BAD_GATEWAY, false)
    case DevAnswers(status, noListener) =>
      && (s.cli.CliConnected? || s.cli.CliForwarding?) && item.Reply? && item.status == status
      && item.noListener == (noListener && Informational(status))
    case _ => false
  }

  predicate Ended(a: AgentPc, m: Mark) {
    && a.Finished?
    && match m {
         case ByApp => a.outcome.AskedApp?
         case ByError => a.outcome.BadGateway?
         case ByLaptop => a.outcome.Relayed?
         case _ => false
       }
  }

  lemma EndsIff(s: State, e: Event, m: Mark)
    requires !s.agent.Finished? && (m.ByApp? || m.ByError? || m.ByLaptop?)
    requires s.agent.ReadingReply? ==> s.agent.seen < MAX_INFORMATIONAL
    ensures Ended(Step(s, e).agent, m) <==> Is(s, e, m)
  {
    CliLeavesAgent(AgentStep(s, e), e);
    if e == ReadItem && s.replies != [] && s.agent.ReadingReply? {
      TakeReplyEnds(s, m);
    } else if BeforeHeader(s.agent) {
      BeforeHeaderEnds(s, e, m);
    } else {
      WaitingEnds(s, e, m);
    }
  }

  lemma BeforeHeaderEnds(s: State, e: Event, m: Mark)
    requires BeforeHeader(s.agent) && (m.ByApp? || m.ByError? || m.ByLaptop?)
    ensures Ended(AgentStep(s, e).agent, m) <==> Is(s, e, m)
  {
  }

  lemma WaitingEnds(s: State, e: Event, m: Mark)
    requires s.agent.AwaitingReply? || (s.agent.ReadingReply? && (e != ReadItem || s.replies == []))
    requires m.ByApp? || m.ByError? || m.ByLaptop?
    ensures Ended(AgentStep(s, e).agent, m) <==> Is(s, e, m)
  {
  }

  lemma CliLeavesAgent(s: State, e: Event)
    ensures CliStep(s, e).agent == s.agent && CliStep(s, e).appRequests == s.appRequests
    ensures CliStep(s, e).kind == s.kind && CliStep(s, e).req == s.req
  {
  }

  lemma TakeReplyEnds(s: State, m: Mark)
    requires s.agent.ReadingReply? && s.agent.seen < MAX_INFORMATIONAL && s.replies != []
    requires m.ByApp? || m.ByError? || m.ByLaptop?
    ensures Ended(TakeReply(s, s.agent.seen, s.replies[0]).agent, m) <==> Is(s, ReadItem, m)
  {
  }

  // ------------------------------------------------------- steps of a whole run

  predicate IsAt(req: Request, kind: CliKind, events: seq<Event>, m: Mark, k: nat)
    requires k < |events|
  {
    Is(Run(req, kind, events[..k]), events[k], m)
  }

  ghost predicate Happened(req: Request, kind: CliKind, events: seq<Event>, m: Mark) {
    exists k :: 0 <= k < |events| && IsAt(req, kind, events, m, k)
  }

  lemma PrefixDecides(req: Request, kind: CliKind, events: seq<Event>, m: Mark, n: nat, k: nat)
    requires k < n <= |events|
    ensures IsAt(req, kind, events[..n], m, k) == IsAt(req, kind, events, m, k)
  {
    assert events[..n][..k] == events[..k];
  }

  lemma HappenedOneMore(req: Request, kind: CliKind, events: seq<Event>, m: Mark)
    requires events != []
    ensures Happened(req, kind, events, m) <==>
            Happened(req, kind, events[..|events| - 1], m) || IsAt(req, kind, events, m, |events| - 1)
  {
    var n := |events| - 1;
    forall k | 0 <= k < n
      ensures IsAt(req, kind, events[..n], m, k) == IsAt(req, kind, events, m, k)
    {
      PrefixDecides(req, kind, events, m, n, k);
    }
  }

  /**
   Who answers, exactly: the application, if nobody is attached to the request or it
   is an upgrade or the laptop turned it down and a copy of the body was kept; an
   error, if that copy was not kept or what came back could not be read; the laptop,
   if a final response was read. The first such step decides.
   */
  lemma {:induction false} OutcomeIff(req: Request, kind: CliKind, events: seq<Event>, m: Mark)
    requires m.ByApp? || m.ByError? || m.ByLaptop?
    ensures Ended(Run(req, kind, events).agent, m) <==> Happened(req, kind, events, m)
    ensures Run(req, kind, events).agent.Finished? ==>
              exists w :: (w == ByApp || w == ByError || w == ByLaptop) && Ended(Run(req, kind, events).agent, w)
  {
    if events != [] {
      var before, e := events[..|events| - 1], events[|events| - 1];
      var s := Run(req, kind, before);
      RunKeeps(req, kind, before);
      OutcomeIff(req, kind, before, m);
      HappenedOneMore(req, kind, events, m);
      OutcomeStep(s, e, m);
    }
    var a := Run(req, kind, events).agent;
    assert a.Finished? ==> Ended(a, ByApp) || Ended(a, ByError) || Ended(a, ByLaptop);
  }

  lemma OutcomeStep(s: State, e: Event, m: Mark)
    requires AgentInv(s) && (m.ByApp? || m.ByError? || m.ByLaptop?)
    ensures Ended(Step(s, e).agent, m) <==> Ended(s.agent, m) || Is(s, e, m)
  {
    if s.agent.Finished? {
      StepIsMonotone(s, e);
    } else {
      EndsIff(s, e, m);
    }
  }

  /**
   A request meant for the laptop is served by the application exactly when the
   laptop turned it down at some step and its body did not outgrow the copy kept.
   */
  lemma {:induction false} ReplayIff(req: Request, kind: CliKind, events: seq<Event>)
    requires req.matched && !req.upgrade
    ensures Run(req, kind, events).appRequests == 1 <==> !req.tooBig && Happened(req, kind, events, Downturn)
  {
    RunKeeps(req, kind, events);
    OutcomeIff(req, kind, events, ByApp);
    forall k | 0 <= k < |events|
      ensures IsAt(req, kind, events, ByApp, k) <==> !req.tooBig && IsAt(req, kind, events, Downturn, k)
    {
      KindIsFixed(req, kind, events[..k]);
    }
  }

  // ----------------------------------------------------------- what is relayed

  /** Item k is the first final response on the stream, behind informational ones that can be read past. */
  ghost predicate FirstFinal(sent: seq<Item>, k: int) {
    && 0 <= k < |sent| && k < MAX_INFORMATIONAL && AllPassed(sent, k)
    && sent[k].Reply? && !Informational(sent[k].status)
  }

  ghost predicate AllPassed(sent: seq<Item>, n: nat) {
    n <= |sent| &&
    forall i :: 0 <= i < n ==> sent[i].Reply? && Informational(sent[i].status) && sent[i].status != SWITCHING_PROTOCOLS
  }

  function Taken(a: AgentPc): (r: nat) {
    if a.ReadingReply? then a.seen else 0
  }

  /** Until the agent has answered, what it has not read is what is left of what was sent. */
  ghost predicate StreamInv(s: State) {
    && (!s.agent.Finished? ==> AllPassed(s.sent, Taken(s.agent)) && Unread(s.replies, s.sent, Taken(s.agent)))
    && (Ended(s.agent, ByLaptop) ==> IsFirstFinal(s.agent.outcome.resp, s.sent))
  }

  ghost predicate Unread(replies: seq<Item>, sent: seq<Item>, n: nat) {
    n + |replies| == |sent| && forall i :: 0 <= i < |replies| ==> replies[i] == sent[n + i]
  }

  ghost predicate IsFirstFinal(resp: Item, sent: seq<Item>) {
    exists k :: FirstFinal(sent, k) && resp == Reply(sent[k].status, false)
  }

  lemma StartStream(req: Request, kind: CliKind)
    ensures StreamInv(Start(req, kind))
  {
  }

  lemma CliAddsOneAtMost(s: State, e: Event)
    ensures var s' := CliStep(s, e);
            || (s'.sent == s.sent && s'.replies == s.replies)
            || (|s'.sent| == |s.sent| + 1 && var item := s'.sent[|s.sent|];
                s'.sent == s.sent + [item] && s'.replies == s.replies + [item])
  {
  }

  /** The CLI only adds to the stream. */
  lemma CliStepAdds(s: State, e: Event) returns (more: seq<Item>)
    ensures CliStep(s, e).agent == s.agent
    ensures CliStep(s, e).sent == s.sent + more && CliStep(s, e).replies == s.replies + more
    ensures |more| <= 1
  {
    CliLeavesAgent(s, e);
    CliAddsOneAtMost(s, e);
    var s' := CliStep(s, e);
    more := s'.sent[|s.sent|..];
  }

  lemma AddingKeepsStream(s: State, s': State, more: seq<Item>)
    requires StreamInv(s) && s'.agent == s.agent && s'.sent == s.sent + more && s'.replies == s.replies + more
    ensures StreamInv(s')
  {
    if Ended(s.agent, ByLaptop) {
      var k :| FirstFinal(s.sent, k) && s.agent.outcome.resp == Reply(s.sent[k].status, false);
      assert FirstFinal(s'.sent, k);
    }
  }

  lemma StepKeepsStream(s: State, e: Event)
    requires StreamInv(s) && AgentInv(s)
    ensures StreamInv(Step(s, e))
  {
    AgentStepKeepsStream(s, e);
    var more := CliStepAdds(AgentStep(s, e), e);
    AddingKeepsStream(AgentStep(s, e), Step(s, e), more);
  }

  lemma TakeReplyKeepsStream(s: State)
    requires StreamInv(s) && AgentInv(s) && s.agent.ReadingReply? && s.replies != []
    ensures StreamInv(TakeReply(s, s.agent.seen, s.replies[0]))
  {
    var k := s.agent.seen;
    assert s.replies[0] == s.sent[k];
    if ReadsAnswer(s, ReadItem) {
      assert FirstFinal(s.sent, k);
    }
  }

  lemma AgentStepKeepsStream(s: State, e: Event)
    requires StreamInv(s) && AgentInv(s)
    ensures StreamInv(AgentStep(s, e))
  {
    if s.agent.ReadingReply? && e == ReadItem && s.replies != [] {
      TakeReplyKeepsStream(s);
    } else {
      assert AgentStep(s, e).sent == s.sent;
    }
  }

  lemma {:induction false} StreamKept(req: Request, kind: CliKind, events: seq<Event>)
    ensures StreamInv(Run(req, kind, events))
  {
    if events == [] {
      StartStream(req, kind);
    } else {
      var before, e := events[..|events| - 1], events[|events| - 1];
      StreamKept(req, kind, before);
      RunKeeps(req, kind, before);
      StepKeepsStream(Run(req, kind, before), e);
    }
  }

  /**
   The answer relayed is the first final response put on the stream, its status
   unchanged, with nothing but the internal header taken off.
   */
  lemma RelayedIsFirstFinal(req: Request, kind: CliKind, events: seq<Event>)
    ensures var s := Run(req, kind, events);
            s.agent.Finished? && s.agent.outcome.Relayed? ==>
              IsFirstFinal(s.agent.outcome.resp, s.sent)
  {
    StreamKept(req, kind, events);
  }

  lemma AgentSaysNothing(s: State, e: Event)
    ensures AgentStep(s, e).sent == s.sent
    ensures AgentStep(s, e).cli == s.cli && AgentStep(s, e).kind == s.kind
  {
  }

  lemma CliSays(s: State, e: Event, item: Item)
    ensures item in CliStep(s, e).sent <==> item in s.sent || Says(s, e, item)
  {
    var more := CliStepAdds(s, e);
    if more == [] {
      SaysNothing(s, e, item);
    } else {
      SaysOne(s, e, item);
    }
  }

  lemma SaysNothing(s: State, e: Event, item: Item)
    requires |CliStep(s, e).sent| == |s.sent|
    ensures !Says(s, e, item)
  {
  }

  lemma DevSaysOne(s: State, e: Event, item: Item)
    requires e.DevAnswers? && |CliStep(s, e).sent| > |s.sent|
    ensures Says(s, e, item) <==> item == CliStep(s, e).sent[|s.sent|]
  {
  }

  lemma RefusalIsOne(s: State, e: Event, item: Item)
    requires e.CliAccepts? && |CliStep(s, e).sent| > |s.sent|
    ensures Says(s, e, item) <==> item == CliStep(s, e).sent[|s.sent|]
  {
  }

  lemma SaysOne(s: State, e: Event, item: Item)
    requires |CliStep(s, e).sent| > |s.sent|
    ensures Says(s, e, item) <==> item == CliStep(s, e).sent[|s.sent|]
  {
    if e.DevAnswers? {
      DevSaysOne(s, e, item);
    } else if e.CliAccepts? {
      RefusalIsOne(s, e, item);
    }
  }

  lemma SaidStep(s: State, e: Event, item: Item)
    ensures item in Step(s, e).sent <==> item in s.sent || Says(s, e, item)
  {
    AgentSaysNothing(s, e);
    CliSays(AgentStep(s, e), e, item);
    assert Says(AgentStep(s, e), e, item) == Says(s, e, item);
  }

  /**
   What is on the stream, exactly: a response of the developer's process with the
   status it gave; the no-listener answer, if the dial to the local port failed; a
   refusal, if the CLI takes no such stream; or an error of the CLI's own.
   */
  lemma {:induction false} SentIff(req: Request, kind: CliKind, events: seq<Event>, item: Item)
    ensures item in Run(req, kind, events).sent <==> Happened(req, kind, events, Said(item))
  {
    if events != [] {
      var before, e := events[..|events| - 1], events[|events| - 1];
      SentIff(req, kind, before, item);
      HappenedOneMore(req, kind, events, Said(item));
      SaidStep(Run(req, kind, before), e, item);
    }
  }

  /** What is relayed is a final response, without the internal header, whatever the developer's process sent. */
  lemma {:induction false} RelayIsClean(req: Request, kind: CliKind, events: seq<Event>)
    ensures var s := Run(req, kind, events);
            s.agent.Finished? && s.agent.outcome.Relayed? ==>
              Clean(s.agent.outcome.resp)
  {
    RunKeeps(req, kind, events);
  }

  /** The other direction: a failed local dial that the agent gets to read is served by the application. */
  lemma FailedDialFallsBack(req: Request, kind: CliKind, events: seq<Event>)
    requires !req.tooBig
    requires var s := Run(req, kind, events);
             s.cli == CliDialing && s.replies == [] && (s.agent.AwaitingReply? || s.agent.ReadingReply?)
    ensures var s := Run(req, kind, events + [CliDials(false), ReadItem, ReadItem]);
            s.agent == Finished(AskedApp) && s.devBytes == 0
  {
    var s := Run(req, kind, events);
    RunKeeps(req, kind, events);
    var e1 := events + [CliDials(false)];
    var e2 := e1 + [ReadItem];
    var e3 := e2 + [ReadItem];
    assert e1[..|events|] == events && e2[..|e1|] == e1 && e3[..|e2|] == e2;
    assert events + [CliDials(false), ReadItem, ReadItem] == e3;
    var s1 := Run(req, kind, e1);
    assert s1.agent == s.agent && s1.replies == [Reply(BAD_GATEWAY, true)] && s1.req == s.req;
    RunKeeps(req, kind, e3);
  }

  /** A CLI that is not taking requests costs nothing but the round trip. */
  lemma RefusalFallsBack(req: Request, kind: CliKind, events: seq<Event>)
    requires !req.tooBig && (kind == NoIncoming || kind == UnknownType)
    requires var s := Run(req, kind, events);
             s.cli == CliIdle && s.headerSent && s.replies == [] && s.agent.AwaitingReply?
    ensures Run(req, kind, events + [CliAccepts, ReadItem]).agent == Finished(AskedApp)
  {
    var e1 := events + [CliAccepts];
    var e2 := e1 + [ReadItem];
    assert e1[..|events|] == events && e2[..|e1|] == e1 && e2 == events + [CliAccepts, ReadItem];
    KindIsFixed(req, kind, events);
  }

  // --------------------------------------------------------- it gets through

  lemma RunSnoc(req: Request, kind: CliKind, events: seq<Event>, e: Event)
    ensures Run(req, kind, events + [e]) == Step(Run(req, kind, events), e)
  {
    assert (events + [e])[..|events|] == events;
  }

  predicate AtDev(c: CliPc) {
    c.CliConnected? || c.CliForwarding?
  }

  /** Statuses that are read past. */
  predicate AllPlainStatuses(infos: seq<int>) {
    forall i :: 0 <= i < |infos| ==> Informational(infos[i]) && infos[i] != SWITCHING_PROTOCOLS
  }

  function Answers(infos: seq<int>): (r: seq<Event>) {
    seq(|infos|, i requires 0 <= i < |infos| => DevAnswers(infos[i], false))
  }

  function Reads(n: nat): (r: seq<Event>) {
    seq(n, _ => ReadItem)
  }

  function Replies(infos: seq<int>): (r: seq<Item>) {
    seq(|infos|, i requires 0 <= i < |infos| => Reply(infos[i], false))
  }

  lemma AnswersSnoc(events: seq<Event>, infos: seq<int>)
    requires infos != []
    ensures var front, last := infos[..|infos| - 1], infos[|infos| - 1];
            && events + Answers(infos) == events + Answers(front) + [DevAnswers(last, false)]
            && Replies(infos) == Replies(front) + [Reply(last, false)]
  {
  }

  lemma ReadsSnoc(events: seq<Event>, n: nat)
    ensures events + Reads(n + 1) == events + Reads(n) + [ReadItem]
  {
  }

  lemma DevInforms(s: State, status: int)
    requires AtDev(s.cli) && Informational(status)
    ensures var s' := Step(s, DevAnswers(status, false));
            AtDev(s'.cli) && s'.agent == s.agent && s'.replies == s.replies + [Reply(status, false)]
  {
  }

  /** The developer's process answers; the agent has read nothing yet. */
  lemma {:induction false} AnswersPile(req: Request, kind: CliKind, events: seq<Event>, infos: seq<int>)
    requires var s := Run(req, kind, events); AtDev(s.cli) && s.replies == []
    requires AllPlainStatuses(infos)
    ensures var s' := Run(req, kind, events + Answers(infos));
            AtDev(s'.cli) && s'.agent == Run(req, kind, events).agent && s'.replies == Replies(infos)
    decreases |infos|
  {
    if infos == [] {
      assert events + Answers(infos) == events;
    } else {
      var front, last := infos[..|infos| - 1], infos[|infos| - 1];
      var before := events + Answers(front);
      AnswersPile(req, kind, events, front);
      AnswersSnoc(events, infos);
      RunSnoc(req, kind, before, DevAnswers(last, false));
      DevInforms(Run(req, kind, before), last);
    }
  }

  lemma ReadsOn(s: State)
    requires s.agent.ReadingReply? && s.agent.seen + 1 < MAX_INFORMATIONAL && s.replies != []
    requires s.replies[0].Reply? && Informational(s.replies[0].status) && s.replies[0].status != SWITCHING_PROTOCOLS
    ensures var s' := Step(s, ReadItem); s'.agent == ReadingReply(s.agent.seen + 1) && s'.replies == s.replies[1..]
  {
  }

  lemma RepliesFrom(infos: seq<int>, n: nat, last: Item)
    requires n < |infos|
    ensures var all := Replies(infos[n..]) + [last];
            all[0] == Reply(infos[n], false) && all[1..] == Replies(infos[n + 1..]) + [last]
  {
  }

  lemma {:induction false} ReadsPass(
    req: Request, kind: CliKind, events: seq<Event>, infos: seq<int>, last: Item, n: nat)
    requires var s := Run(req, kind, events); s.agent == ReadingReply(0) && s.replies == Replies(infos) + [last]
    requires AllPlainStatuses(infos) && n <= |infos| < MAX_INFORMATIONAL
    ensures var s' := Run(req, kind, events + Reads(n));
            s'.agent == ReadingReply(n) && s'.replies == Replies(infos[n..]) + [last]
  {
    if n == 0 {
      assert events + Reads(0) == events && infos[0..] == infos;
    } else {
      ReadsPass(req, kind, events, infos, last, n - 1);
      var before := events + Reads(n - 1);
      ReadsSnoc(events, n - 1);
      RunSnoc(req, kind, before, ReadItem);
      RepliesFrom(infos, n - 1, last);
      ReadsOn(Run(req, kind, before));
    }
  }

  lemma DevConcludes(s: State, status: int, claims: bool)
    requires AtDev(s.cli) && s.agent.AwaitingReply? && !Informational(status)
    ensures var s' := Step(s, DevAnswers(status, claims));
            s'.agent.AwaitingReply? && s'.replies == s.replies + [Reply(status, false)]
  {
  }

  lemma ReadsFirst(s: State)
    requires s.agent.AwaitingReply? && s.replies != [] && s.replies[0].Reply?
    ensures var s' := Step(s, ReadItem); s'.agent == ReadingReply(0) && s'.replies == s.replies
  {
  }

  lemma ReadsLast(s: State, status: int)
    requires s.agent.ReadingReply? && s.replies == [Reply(status, false)] && !Informational(status)
    ensures Step(s, ReadItem).agent == Finished(Relayed(Reply(status, false)))
  {
  }

  lemma AnswersArrive(req: Request, kind: CliKind, events: seq<Event>, infos: seq<int>, status: int, claims: bool)
    requires var s := Run(req, kind, events);
             AtDev(s.cli) && s.agent.AwaitingReply? && s.replies == []
    requires AllPlainStatuses(infos) && !Informational(status)
    ensures var s := Run(req, kind, events + Answers(infos) + [DevAnswers(status, claims)] + [ReadItem]);
            s.agent == ReadingReply(0) && s.replies == Replies(infos) + [Reply(status, false)]
  {
    var e1 := events + Answers(infos);
    var e2 := e1 + [DevAnswers(status, claims)];
    AnswersPile(req, kind, events, infos);
    RunSnoc(req, kind, e1, DevAnswers(status, claims));
    DevConcludes(Run(req, kind, e1), status, claims);
    RunSnoc(req, kind, e2, ReadItem);
    assert infos != [] ==> Run(req, kind, e2).replies[0] == Reply(infos[0], false);
    ReadsFirst(Run(req, kind, e2));
  }

  lemma AllRead(req: Request, kind: CliKind, events: seq<Event>, infos: seq<int>, status: int)
    requires var s := Run(req, kind, events);
             s.agent == ReadingReply(0) && s.replies == Replies(infos) + [Reply(status, false)]
    requires AllPlainStatuses(infos) && |infos| < MAX_INFORMATIONAL && !Informational(status)
    ensures Run(req, kind, events + Reads(|infos|) + [ReadItem]).agent == Finished(Relayed(Reply(status, false)))
  {
    var before := events + Reads(|infos|);
    ReadsPass(req, kind, events, infos, Reply(status, false), |infos|);
    RunSnoc(req, kind, before, ReadItem);
    assert Replies(infos[|infos|..]) + [Reply(status, false)] == [Reply(status, false)];
    ReadsLast(Run(req, kind, before), status);
  }

  /**
   Once the request is with the developer's process, whatever final status it
   answers - behind up to seven informational ones, and whatever it says about a
   listener - is what the caller gets.
   */
  lemma AnswerIsRelayed(req: Request, kind: CliKind, events: seq<Event>, infos: seq<int>, status: int, claims: bool)
    requires var s := Run(req, kind, events);
             AtDev(s.cli) && s.agent.AwaitingReply? && s.replies == []
    requires AllPlainStatuses(infos) && |infos| < MAX_INFORMATIONAL && !Informational(status)
    ensures var later := Answers(infos) + [DevAnswers(status, claims)] + Reads(|infos| + 2);
            Run(req, kind, events + later).agent == Finished(Relayed(Reply(status, false)))
  {
    var arrived := events + Answers(infos) + [DevAnswers(status, claims)] + [ReadItem];
    AnswersArrive(req, kind, events, infos, status, claims);
    AllRead(req, kind, arrived, infos, status);
    AllOfIt(events, infos, status, claims);
  }

  lemma AllOfIt(events: seq<Event>, infos: seq<int>, status: int, claims: bool)
    ensures events + (Answers(infos) + [DevAnswers(status, claims)] + Reads(|infos| + 2)) ==
            events + Answers(infos) + [DevAnswers(status, claims)] + [ReadItem] + Reads(|infos|) + [ReadItem]
  {
  }

  /** The steps with which the CLI gives a stream up: no header in time, or its handler panicked. */
  predicate GivesUp(s: State, e: Event) {
    (e == CliHeaderTimeout && s.cli.CliIdle?) || (e == CliPanics && !s.cli.CliIdle?)
  }

  lemma GivenUpStep(s: State, e: Event)
    ensures GivesUp(s, e) ==> Step(s, e).cli.CliClosed?
    ensures Over(s.cli) ==> Over(Step(s, e).cli) && Step(s, e).sent == s.sent && Step(s, e).devBytes == s.devBytes
  {
    AgentSaysNothing(s, e);
    AgentIsMonotone(s, e);
  }

  /** Once the CLI has answered or given up, nothing more is said and no further byte is passed on. */
  lemma {:induction false} OverIsFinal(req: Request, kind: CliKind, events: seq<Event>, later: seq<Event>)
    requires Over(Run(req, kind, events).cli)
    ensures var s, s' := Run(req, kind, events), Run(req, kind, events + later);
            Over(s'.cli) && s'.sent == s.sent && s'.devBytes == s.devBytes
  {
    if later == [] {
      assert events + later == events;
    } else {
      var before, e := later[..|later| - 1], later[|later| - 1];
      OverIsFinal(req, kind, events, before);
      assert events + later == events + before + [e];
      RunSnoc(req, kind, events + before, e);
      GivenUpStep(Run(req, kind, events + before), e);
    }
  }

  const TO_THE_LAPTOP: seq<Event> := [Decide, BufferBody(true), OpenStream(true), WriteHeader(true, true), CliAccepts]

  function AsFarAs(req: Request, k: nat): (r: State) {
    var s := Start(req, Accepting);
    match k
    case 0 => s
    case 1 => s.(agent := Buffering)
    case 2 => s.(agent := Opening)
    case 3 => s.(agent := WritingHeader)
    case 4 => s.(agent := AwaitingReply, headerSent := true)
    case _ => s.(agent := AwaitingReply, headerSent := true, cli := CliReadingRequest)
  }

  lemma OneFurther(req: Request, k: nat)
    requires req.matched && !req.upgrade && k < |TO_THE_LAPTOP|
    ensures Step(AsFarAs(req, k), TO_THE_LAPTOP[k]) == AsFarAs(req, k + 1)
  {
  }

  lemma {:induction false} StreamIsOpen(req: Request, k: nat)
    requires req.matched && !req.upgrade && k <= |TO_THE_LAPTOP|
    ensures Run(req, Accepting, TO_THE_LAPTOP[..k]) == AsFarAs(req, k)
  {
    if k > 0 {
      var before := TO_THE_LAPTOP[..k - 1];
      StreamIsOpen(req, k - 1);
      assert TO_THE_LAPTOP[..k] == before + [TO_THE_LAPTOP[k - 1]];
      RunSnoc(req, Accepting, before, TO_THE_LAPTOP[k - 1]);
      OneFurther(req, k - 1);
    }
  }

  lemma RunTwo(req: Request, kind: CliKind, events: seq<Event>, a: Event, b: Event)
    ensures Run(req, kind, events + [a, b]) == Step(Step(Run(req, kind, events), a), b)
  {
    RunSnoc(req, kind, events, a);
    RunSnoc(req, kind, events + [a], b);
    assert events + [a] + [b] == events + [a, b];
  }

  lemma Across(s: State, n: nat)
    requires s.agent.AwaitingReply? && s.headerSent && !s.agentClosed && s.cli.CliReadingRequest?
    requires s.written == 0 && s.devBytes == 0 && 0 < s.req.head <= n == s.req.total
    ensures var s' := Step(Step(Step(Step(s, WriteRequest(n)), CliReadsRequest), CliDials(true)), CliForwards(n));
            s'.devBytes == n && AtDev(s'.cli) && s'.agent == s.agent && s'.replies == s.replies
  {
    var s1 := Step(s, WriteRequest(n));
    assert s1 == s.(written := n);
    var s2 := Step(s1, CliReadsRequest);
    assert s2 == s1.(cli := CliDialing);
    var s3 := Step(s2, CliDials(true));
    assert s3 == s2.(cli := CliConnected);
  }

  /** And with nothing failing a matched request gets there, all of it. */
  lemma RequestGetsThrough(req: Request)
    requires req.matched && !req.upgrade && 0 < req.head <= req.total
    ensures var later := [WriteRequest(req.total), CliReadsRequest, CliDials(true), CliForwards(req.total)];
            var s := Run(req, Accepting, TO_THE_LAPTOP + later);
            s.devBytes == req.total && AtDev(s.cli) && s.agent.AwaitingReply? && s.replies == []
  {
    StreamIsOpen(req, |TO_THE_LAPTOP|);
    assert TO_THE_LAPTOP[..|TO_THE_LAPTOP|] == TO_THE_LAPTOP;
    Across(AsFarAs(req, 5), req.total);
    var n, written := req.total, TO_THE_LAPTOP + [WriteRequest(req.total), CliReadsRequest];
    RunTwo(req, Accepting, TO_THE_LAPTOP, WriteRequest(n), CliReadsRequest);
    RunTwo(req, Accepting, written, CliDials(true), CliForwards(n));
    assert TO_THE_LAPTOP + [WriteRequest(n), CliReadsRequest, CliDials(true), CliForwards(n)] ==
           written + [CliDials(true), CliForwards(n)];
  }

  lemma {:induction false} KindIsFixed(req: Request, kind: CliKind, events: seq<Event>)
    ensures Run(req, kind, events).kind == kind && Run(req, kind, events).req == req
  {
    if events != [] {
      KindIsFixed(req, kind, events[..|events| - 1]);
      StepIsMonotone(Run(req, kind, events[..|events| - 1]), events[|events| - 1]);
    }
  }

  // ------------------------------------------------- reading the final reply

  /** The first n responses can all be read past. */
  predicate AllPlain(statuses: seq<int>, n: nat)
    requires n <= |statuses|
  {
    forall i :: 0 <= i < n ==> Informational(statuses[i]) && statuses[i] != SWITCHING_PROTOCOLS
  }

  /** Response k is within the limit, behind responses that can all be read past. */
  predicate PlainUntil(statuses: seq<int>, k: int) {
    0 <= k < |statuses| && k < MAX_INFORMATIONAL && AllPlain(statuses, k)
  }

  datatype Final = Response(at: nat) | StreamEnded | Switching | TooMany

  /**
   The loop that reads past informational responses. The responses arrive in
   order; the stream ends after the last one.
   */
  method ReadFinalResponse(statuses: seq<int>) returns (r: Final)
    ensures r.Response? <==> exists k :: PlainUntil(statuses, k) && !Informational(statuses[k])
    ensures r.Response? ==> PlainUntil(statuses, r.at) && !Informational(statuses[r.at])
    ensures r == Switching <==> exists k :: PlainUntil(statuses, k) && statuses[k] == SWITCHING_PROTOCOLS
    ensures r == TooMany <==> |statuses| >= MAX_INFORMATIONAL && AllPlain(statuses, MAX_INFORMATIONAL)
    ensures r == StreamEnded <==> |statuses| < MAX_INFORMATIONAL && AllPlain(statuses, |statuses|)
  {
    var seen := 0;
    while true
      invariant 0 <= seen <= |statuses| && seen < MAX_INFORMATIONAL && AllPlain(statuses, seen)
      decreases |statuses| - seen
    {
      if seen == |statuses| {
        return StreamEnded;
      }
      var status := statuses[seen];
      assert PlainUntil(statuses, seen);
      if status < 100 || status > 199 {
        return Response(seen);
      }
      if status == SWITCHING_PROTOCOLS {
        return Switching;
      }
      if seen + 1 >= MAX_INFORMATIONAL {
        return TooMany;
      }
      seen := seen + 1;
    }
  }
}
