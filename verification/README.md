# tetherd, modelled and proved

tetherd lets a process on a laptop behave as if it ran inside an ECS task: it
captures the task's address ranges, hands the child the task's environment and
role, and lets the agent beside the task "steal" a developer's requests and send
them to the laptop. This project models the parts of it whose correctness depends
on many steps, many processes or exact arithmetic, and proves what they promise.

| file | component |
|---|---|
| `Steal.dfy` | one request, the agent, the CLI and two places it could run |
| `Cidr.dfy` | which address ranges are captured |
| `HelperSession.dfy`, `IdleExit.dfy`, `Router.dfy` | the root helper: one session, when it may exit, what it pins |
| `SessionSet.dfy`, `Follower.dfy`, `SessionLoss.dfy` | the CLI's sessions, one per task |
| `Registry.dfy` | the agent's routing table |
| `TokenFile.dfy` | the personal file and its token, shared by processes |
| `Bytes.dfy` | bodies kept for a replay, and one-line stream headers |
| `Bounded.dfy` | one check under a time limit |
| `Quoting.dfy`, `EnvMerge.dfy` | the environment: merged, masked, printed |
| `SortedKeys.dfy`, `Optional.dfy` | shared helpers |

Three forms are used. Objects that the source updates in place are classes whose
methods are proved equal to a step of a specification function (`PfClearSpec`,
`AddSpec`, `HelloSpec`, ...); what every run keeps is then proved of that function,
and a `Drive` method shows that the class reaches exactly the states of those runs.
Protocols between goroutines, processes or machines are state machines with one
event per critical section, system call or message, in which an event may come at
any time and any fallible step may fail; a run is any sequence of events. Pure
code is functions and lemmas.

Findings about the code itself, stated as lemmas:

- A prefix is carved exactly if and only if it is clear between the two masks
  (`Cidr.SubtractOneExactIff`). Parsed prefixes are masked
  (`Cidr.ParseRemoteCIDRs`), and on masked ones the whole list is exact (`Cidr.SubtractExact`).
  The comment above `subtractOne` says an IPv6 prefix is dropped; with an empty
  exclusion list it is not, because the halving never runs (`Cidr.IPv6DroppedIff`). The model follows the code.
- `route.clear` frees the session of a connection whose earlier `pf.clear` could not
  remove the resolver files, and the disconnect then leaves those files in place
  (`HelperSession.ResolverKeptExceptOnce`, `HelperSession.ResolverCanBeLeftBehind`).
- A rotation that fails, or is killed, between the truncation and the write empties the
  personal file: the user name and the `aws` block are gone with the token
  (`TokenFile.FieldsLostExactlyWhen`, `TokenFile.FieldsCanBeLost`). What calls return is
  still right.
- A value such as `'x'` is printed bare in the dotenv format, and a reader to which
  single quotes are quotes reads it without them (`Quoting.DotenvReadsBack`).
- The helper's idle window can be lost between the check and the clear
  (`IdleExit.WindowLostExactlyWhen`, `IdleExit.WindowCanBeLost`): it then stays up
  with nothing connected. Safety is unaffected.
- A key with an `=` in it does not survive `toEnvMap` (`EnvMerge.MergeRoundTrip`,
  `EnvMerge.KeyIsCutAtEquals`).

`dafny verify dfyconfig.toml` checks the project.

## Model

| member | source | states |
|---|---|---|
| Steal.NeverRunsTwice | internal/agent/proxy.go:171-227 | in every interleaving, with failure at any step, the application is asked at most once, and then no byte of the request has reached or ever will reach the developer's process; once a byte has, it is never asked |
| Steal.ReplayIff | internal/agent/proxy.go:286-397 | a matched request goes to the application exactly when, at some step, the stream would not open, its header could not be written, the CLI refused, or the local dial failed, and its body fitted the copy kept |
| Steal.AsksOnlyWhenTurnedDown | internal/agent/proxy.go:516-554 | the same equivalence for one step of the exchange |
| Steal.RunKeeps | internal/session/client.go:145-185 | both halves of the protocol invariant hold in every run: claims that nothing was served are true and final, and bytes are delivered only after a dial |
| Steal.OutcomeIsFinal | internal/agent/proxy.go:200-226 | an answer once chosen never changes and delivered bytes are never taken back |
| Steal.OutcomeIff | internal/agent/proxy.go:97-227 | who answers, exactly: the application for an upgrade, an unmatched or a turned-down request; an error if no copy of the body was kept or what came back cannot be read; the laptop if a final response is read |
| Steal.RelayedIsFirstFinal | internal/agent/proxy.go:376-396 | in every run the response relayed has the status of the first final response put on the stream |
| Steal.SentIff | internal/cli/steal.go:269-312 | what is on the stream, exactly: a response with the status the developer's process gave, the no-listener answer iff the dial failed, a refusal, or an error of the CLI's own |
| Steal.AnswerIsRelayed | internal/agent/proxy.go:355-396 | any final status the developer's process answers, behind up to seven informational ones, is what the caller gets |
| Steal.RequestGetsThrough | internal/agent/proxy.go:293-350 | with nothing failing all of a matched request reaches the developer's process |
| Steal.OverIsFinal | internal/session/client.go:145-185 | once the CLI has answered or given up, nothing more is said and no further byte is passed on |
| Steal.RelayIsClean | internal/agent/proxy.go:376-396 | what is relayed is a final response without the internal no-listener header, whatever the developer's process sent |
| Steal.FailedDialFallsBack | internal/cli/steal.go:279-312 | from any reachable state a failed local dial that the agent reads ends with the application serving the request |
| Steal.RefusalFallsBack | internal/session/client.go:167-184 | a refused stream ends with the application serving the request |
| Steal.ReadFinalResponse | internal/agent/proxy.go:426-445 | exactly when each outcome occurs: a final response, a 101, or the end of the stream behind plain informational ones within the limit, or eight plain informational ones |
| Bytes.ReadLimited | internal/agent/proxy.go:237-240 | for every chunking, empty reads included, exactly the bytes up to the limit are taken and the rest stays; an error only if it is met before the limit |
| Bytes.BufferBody | internal/agent/proxy.go:233-257 | the body reads the same afterwards for every chunking; it is kept iff it fits; a larger one is prefix plus rest; an error is the body's own, always if the body would have fitted and never past the first byte that does not |
| Bytes.ReadHeader | internal/proto/codec.go:74-96 | a line is returned iff a newline comes within the bound; then exactly that line is consumed and the payload behind it is intact |
| Bytes.HeaderRoundTrip | internal/proto/codec.go:23-47 | a line written by the encoder is read back as written, with everything behind it untouched |
| Cidr.SubtractExact | internal/cli/run.go:350-360 | for all masked lists and every address: covered by the result iff covered by `all` and by nothing in `exclude` |
| Cidr.SubtractOneExactIff | internal/cli/run.go:321-341 | for any IPv4 prefix, masked or not, the halving is exact iff the prefix is clear between the two masks (but for the half cut away) |
| Cidr.CarvingLoses | internal/cli/run.go:333-340 | otherwise an address of the prefix outside the exclusion is lost, and it is produced |
| Cidr.SubtractOneExact | internal/cli/run.go:321-341 | one subtraction leaves exactly the addresses of p outside e |
| Cidr.SubtractEachExact | internal/cli/run.go:352-358 | one pass of the loop removes exactly e |
| Cidr.SubtractOneInside | internal/cli/run.go:321-341 | masked or not, nothing outside the prefix is ever produced |
| Cidr.HalvesPartition | internal/cli/run.go:333-340 | the two halves are masked, disjoint and cover the prefix exactly |
| Cidr.UpperHalfAddsHalf | internal/cli/run.go:333-339 | setting the bit by byte and bit index adds 2^(32-bits) to the address |
| Cidr.ContainsIsRange | internal/cli/run.go:325-332 | a masked prefix spans the 2^(32-bits) consecutive addresses from its own |
| Cidr.SubtractOneShape | internal/cli/run.go:321-341 | pieces are masked, IPv4 and pairwise disjoint; an exclusion strictly inside leaves exactly e.Bits - p.Bits of them |
| Cidr.SubtractEachBound | internal/cli/run.go:352-358 | one exclusion adds at most 31 pieces to a disjoint list |
| Cidr.SubtractAllShape | internal/cli/run.go:350-360 | canonical stays canonical, disjoint stays disjoint, and each exclusion adds at most 31 prefixes to the length of a disjoint list |
| Cidr.Subtract | internal/cli/run.go:350-360 | the nested loops compute the function these lemmas are about |
| Cidr.ApplyLocalCIDRs | internal/cli/run.go:378-398 | what is captured is the remote set minus local plus the floor, and it refuses exactly when nothing of the remote set is left |
| Cidr.ParseRemoteCIDRs | internal/cli/run.go:106-119 | accepts iff every entry is an IPv4 prefix; the result is masked and spans the same addresses; an error names the first offending entry |
| Cidr.IPv6DroppedIff | internal/cli/run.go:321-324 | an IPv6 prefix is dropped by any exclusion and kept when there is none |
| Cidr.MaskIsCanonical | internal/cli/run.go:116-116 | masking clears the host bits and spans the same addresses |
| HelperSession.Server.Open | internal/helper/server.go:283-304 | a new connection holds nothing |
| HelperSession.Server.Handle | internal/helper/server.go:305-329 | dispatch: version is always answered, everything else needs permission, and each request has its handler's effect and answer |
| HelperSession.Server.DoNatLook | internal/helper/server.go:512-526 | answers iff the addresses parse and the platform finds the connection; changes nothing |
| HelperSession.Drive | internal/helper/server.go:283-304 | any events drive the server to the state the run theorems are about |
| HelperSession.Server.DoPfApply | internal/helper/server.go:331-361 | the new state and answer for every argument, holder and failure |
| HelperSession.Server.DoPfClear | internal/helper/server.go:363-408 | resolver, route, rules in that order; the session is kept if anything is stuck |
| HelperSession.Server.DoRouteSet | internal/helper/server.go:420-452 | the new state and answer, refusing a busy session and a bad host list |
| HelperSession.Server.DoRouteClear | internal/helper/server.go:458-477 | the route goes, and the session with it unless rules are applied |
| HelperSession.Server.DoResolverSet | internal/helper/server.go:479-497 | only the active connection with rules may set resolvers |
| HelperSession.Server.DoResolverClear | internal/helper/server.go:499-510 | only the active connection may clear them |
| HelperSession.Server.Cleanup | internal/helper/server.go:529-555 | the disconnect cleanup and its effect on session and machine under every failure |
| HelperSession.StepKeeps | internal/helper/server.go:331-555 | what each request, connect and disconnect keeps, given which platform calls failed |
| HelperSession.RunKeepsInv | internal/helper/server.go:331-555 | in every run the flags of live connections say exactly which rules and route they have on the machine, and resolver files of a live connection are flagged |
| HelperSession.SessionExclusive | internal/helper/server.go:331-510 | in every run a connection that holds rules or a route is the active one, so at most one does |
| HelperSession.LockedOut | internal/helper/server.go:331-510 | while another connection holds the session, no request of this one changes anything |
| HelperSession.PfApplyAnswer | internal/helper/server.go:331-361 | in every run, Done iff the rules are on the machine through a call just made for this connection; busy, already applied and failed exactly when they are; any other answer changes nothing |
| HelperSession.RouteSetAnswer | internal/helper/server.go:420-452 | the same for the route |
| HelperSession.ResolverSetAnswer | internal/helper/server.go:479-497 | the same for the resolver files, which need applied rules |
| HelperSession.PfClearAnswer | internal/helper/server.go:363-408 | Done iff the rules were taken off by a call just made; no session iff not the active one |
| HelperSession.RouteClearAnswer | internal/helper/server.go:458-477 | Done iff the connection has no route now; none is touched if it had none |
| HelperSession.ResolverClearAnswer | internal/helper/server.go:499-510 | Done iff the files were removed by a call just made; no session iff not the active one |
| HelperSession.OtherAnswers | internal/helper/server.go:305-329 | version, forbidden, lookup and unknown requests: which answer, and that nothing changes |
| HelperSession.ResolverKeptExceptOnce | internal/helper/server.go:458-477 | "resolver files belong to the active connection" is kept by a step iff it is not `route.clear` after a stuck `pf.clear` |
| HelperSession.ResolverCanBeLeftBehind | internal/helper/server.go:473-475 | a run in which that step and a failure-free disconnect leave resolver files behind |
| HelperSession.ResolverExclusiveWithoutFailures | internal/helper/server.go:479-510 | if removing resolver files never fails, they belong to the active connection in every run |
| HelperSession.PfClearHandover | internal/helper/server.go:363-408 | `pf.clear` frees the session iff every removal worked, and then nothing of it is left; otherwise it keeps it |
| HelperSession.DisconnectHandover | internal/helper/server.go:529-555 | what a disconnect of any live connection leaves: what could not be removed, and resolver files of a connection that is not active; without failures it leaves nothing iff the connection was active or had no files |
| HelperSession.ResolverExactWithoutIt | internal/helper/server.go:458-510 | in every run without that one `route.clear`, resolver files are the active connection's and the flags say exactly whose |
| HelperSession.CleanDisconnect | internal/helper/server.go:529-555 | in such a run a disconnect without failures leaves nothing |
| HelperSession.FlagsStayExactIff | internal/helper/server.go:479-555 | a resolver flag goes stale iff one connection's removal takes away files another still counts as its own |
| HelperSession.RouteComesDownFirst | internal/helper/server.go:369-396 | in every run no rules are cleared over a pinned route unless removing it was just tried and failed |
| IdleExit.RunKeepsInv | internal/helper/server.go:116-280 | tracked connections are exactly those still being served, and none exist once idle was decided |
| IdleExit.IdleExitSafe | internal/helper/server.go:116-188 | in every interleaving an idle return finds no tracked connection and every cleanup finished, and nothing is served afterwards |
| IdleExit.NothingServedAfterReturn | internal/helper/server.go:161-167 | no event after a return starts or changes a connection |
| IdleExit.WindowLostExactlyWhen | internal/helper/server.go:141-160 | a step loses the idle window iff it is the clear after an outdated check |
| IdleExit.WindowKept | internal/helper/server.go:210-225 | without such a step the window is armed or being armed whenever nothing is connected |
| IdleExit.WindowCanBeLost | internal/helper/server.go:142-158 | the run in which it is lost |
| IdleExit.ExpiryEndsIt | internal/helper/server.go:141-168 | an armed window that expires with nothing connected ends in an idle return |
| IdleExit.ExpiryWithConnections | internal/helper/server.go:142-159 | one that expires with something connected only takes the deadline off |
| IdleExit.LastOneArmsIt | internal/helper/server.go:210-225 | a connection that goes arms the window iff it was the last |
| IdleExit.ConnectionIsServed | internal/helper/server.go:171-187 | a connection that arrives while nothing is closing is tracked and served |
| IdleExit.UnknownPeerIsDropped | internal/helper/server.go:171-176 | one whose peer cannot be told changes nothing |
| IdleExit.ClosingTakesNoOne | internal/helper/server.go:191-202 | once shutdown has begun nobody new is ever served |
| IdleExit.ReturnHasCause | internal/helper/server.go:133-169 | idle and cancelled returns happen only for their own reasons |
| IdleExit.CancelEndsIt | internal/helper/server.go:117-140 | a cancelled server returns once every connection is cleaned up |
| IdleExit.ExpiryWhenCancelled | internal/helper/server.go:133-140 | a window that expires after cancellation does not count as idle |
| Router.RouteGetDestination | internal/helper/route.go:288-295 | the first destination line decides |
| Router.ClassifyRouteGet | internal/helper/route.go:266-285 | displaceable iff the answer is about this host and names an interface other than lo0; the other classes are exact too |
| Router.PinRouter.IsPinned | internal/helper/route.go:98-105 | true iff the host is in the list |
| Router.PinRouter.ReachesLoopback | internal/helper/route.go:177-183 | true iff the host is routed to lo0 and the query works |
| Router.PinRouter.DisplaceConflict | internal/helper/route.go:192-219 | only a host route not on lo0 is deleted; every other route stays |
| Router.PinRouter.Pin | internal/helper/route.go:151-172 | on success the host is routed to lo0; a route on lo0 in the way is never touched and refuses; an add that fails for any other reason leads to no delete; no other route changes; without failures nothing else refuses |
| Router.PinRouter.Set | internal/helper/route.go:114-147 | on success every host is routed to lo0 and listed, and on record unless the write failed; no route outside the list changes and none on lo0 goes; somebody else's route on lo0 refuses, and without failures nothing else does; a refused list changes nothing and issues nothing |
| Router.PinRouter.SetOne | internal/helper/route.go:127-145 | one host of the list: already on lo0, or pinned and put on record |
| Router.PinRouter.Clear | internal/helper/route.go:312-327 | one delete per pinned host, in order; exactly those whose delete failed stay listed, and the routes of the others are gone; without failures it succeeds; no other route changes |
| Router.PinRouter.ClearRecorded | internal/helper/route.go:340-371 | each recorded pin is gone unless its own delete failed; no other route changes; the record is empty; the router invariant holds afterwards, so the helper can serve |
| Router.RestartAfterKill | internal/helper/route.go:340-386 | a helper killed at any instant is undone by the next start when its deletes work: of its pins exactly those not on record stay, at most the one between its add and its save unless the last write of the record failed |
| Router.WholeLife | internal/helper/route.go:114-147 | sweep, serve, clear without failures: served iff the endpoint was not somebody else's on lo0, the clear works and leaves nothing of it, no other route touched |
| SessionSets.SessionSet.Add | internal/cli/sessionset.go:73-90 | a new task is inserted in start order, a known one has its session closed; says whether it became primary |
| SessionSets.SessionSet.SortLocked | internal/cli/sessionset.go:92-96 | the in-place sort equals the stable sort function |
| SessionSets.StableSortSorts | internal/cli/sessionset.go:92-96 | that function is ordered, a permutation, and stable |
| SessionSets.SessionSet.DropLocked | internal/cli/sessionset.go:113-136 | the in-place compaction equals an order-preserving filter with a cleared tail, and reports the promotion |
| SessionSets.SessionSet.Remove | internal/cli/sessionset.go:149-160 | exactly the named task's session goes and is closed |
| SessionSets.SessionSet.Retain | internal/cli/sessionset.go:177-192 | exactly the unlisted tasks' sessions go and are closed |
| SessionSets.SessionSet.Reap | internal/cli/sessionset.go:268-290 | exactly the ended sessions go and are closed |
| SessionSets.SessionSet.Close | internal/cli/sessionset.go:300-308 | empties the set and closes everything in it |
| SessionSets.SessionSet.Has | internal/cli/sessionset.go:195-204 | true iff the task is attached |
| SessionSets.SessionSet.Primary | internal/cli/sessionset.go:230-241 | the oldest attached session that is still alive, nil iff there is none |
| SessionSets.FilterKeepsPairs | internal/cli/sessionset.go:113-136 | filtering keeps start order, distinct tasks and distinct sessions |
| SessionSets.SessionsConserved | internal/cli/sessionset.go:73-192 | over every sequence of operations each session handed over is in exactly one entry or closed, never both; ids distinct; oldest first |
| SessionSets.CloseClosesEverything | internal/cli/sessionset.go:300-308 | after Close every session ever handed over has been closed |
| SessionSets.Drive | internal/cli/sessionset.go:73-192 | any operations drive the set to the state these theorems are about |
| SessionSets.PrimaryMovesOnlyForOlder | internal/cli/sessionset.go:73-96 | an Add moves the primary iff the new task started strictly earlier |
| SessionSets.PromotesOldestSurvivor | internal/cli/sessionset.go:113-136 | a drop promotes the oldest entry that survives it |
| Following.Follower.PollRound | internal/cli/follow.go:98-182 | after any poll the sessions that had ended are gone, every new entry is a listed task with the session opened to it, and the first entry started earliest; after a successful one every attached id is listed, every listed id is attached or its attach failed, live sessions are not replaced; a failed one only drops ended ones |
| Following.Follower.AttachMissing | internal/cli/follow.go:122-176 | the loop over the task list: nothing attached is lost, no opened session is leaked, every new entry is a listed task with its own session |
| Following.Follower.AttachOne | internal/cli/follow.go:133-175 | one task is attached - itself, with the session just opened to it, and nothing else - or was attached, or its attach failed; a late session is closed |
| Following.Follower.Run | internal/cli/follow.go:82-184 | when it returns, every session Attach returned is in the set or closed; unless cut short by cancellation it has polled every round and the set is what the last one makes of it |
| SessionLoss.Counter.Watch | internal/cli/run.go:774-784 | counts a session and takes back a stale report |
| SessionLoss.Counter.Ended | internal/cli/run.go:785-803 | counts down and reports at zero if the slot is free |
| SessionLoss.Drive | internal/cli/run.go:764-808 | any events drive the counter to the state the next rows are about |
| SessionLoss.RunKeepsInv | internal/cli/run.go:764-808 | the count is the number of watchers still waiting; no send is ever dropped |
| SessionLoss.ReportIsSound | internal/cli/run.go:764-808 | in every interleaving a pending report means every watched session is over |
| SessionLoss.ZeroIsReported | internal/cli/run.go:785-803 | reaching zero posts the reason of that very session |
| SessionLoss.ReportStays | internal/cli/run.go:774-804 | a posted report is there at the end of every run in which nothing is watched or received since |
| SessionLoss.WatchTakesItBack | internal/cli/run.go:774-784 | after a watch there is no report, however the run goes on, until the session watched is over |
| Registry.Agent.Register | internal/agent/registry.go:141-184 | read-only is never recorded, a second steal session is refused and changes nothing |
| Registry.Agent.Unregister | internal/agent/registry.go:212-216 | removes exactly that user |
| Registry.Agent.Hello | internal/agent/agent.go:188-210 | the new registry and handler for every hello; a refused one leaves no handler |
| Registry.Agent.Closed | internal/agent/agent.go:260-274 | a steal handler's own user is unregistered, a read-only one changes nothing |
| Registry.Agent.Match | internal/agent/registry.go:102-110 | nil iff no session qualifies, in whatever order the map is read |
| Registry.MatchSession | internal/agent/steal.go:39-62 | the first qualifying session; nil iff none |
| Registry.Drive | internal/agent/agent.go:188-274 | any events drive the agent to the state the next rows are about |
| Registry.RunKeepsInv | internal/session/server.go:142-146 | in every run sessions and live steal handlers name each other |
| Registry.EntryIffOneHandler | internal/agent/registry.go:141-196 | a user has an entry iff exactly one live steal handler names them |
| Registry.ReadOnlyChangesNothing | internal/agent/agent.go:196-210 | leaving every event of every read-only session out of a run gives the same routing table |
| Registry.DetachRemovesOwnEntry | internal/agent/agent.go:260-274 | a detach removes the entry of the handler that left and no other |
| Registry.OrderIrrelevantIffUnique | internal/agent/steal.go:39-62 | the search order does not matter iff at most one session qualifies |
| Registry.RoutingIsDeterministic | internal/agent/registry.go:102-110 | with a shared user header every order routes a request the same way, in every run |
| Registry.RunMirrors | internal/agent/registry.go:141-184 | in every run the table is exactly the live steal hellos, each with its own header names, token and way back |
| Registry.HelloAnswer | internal/agent/agent.go:188-195 | refused without a user, refused iff somebody attached takes that user's requests (and who), welcome otherwise |
| Registry.RequestGoesWhereItClaims | internal/agent/steal.go:39-62 | in every run and order, a request goes to a connection whose hello it meets, user and token in the headers that hello named, and to the application iff it meets none |
| Registry.SentToIffClaimed | internal/agent/registry.go:102-110 | some order of the table sends a request to a connection iff it meets that connection's hello |
| TokenFile.RunKeeps | internal/config/personal.go:38-181 | the file and lock invariant for any number of processes, any of which may fail or be killed at any step |
| TokenFile.ReturnedTokenWasOnDisk | internal/config/personal.go:315-347 | what a call returned, token and other fields as one, was on disk at some instant of that call |
| TokenFile.FieldsArePreserved | internal/config/personal.go:118-181 | between any two instants at which the lock is free, every field on disk but the token is the same, unless a write was lost after its truncation |
| TokenFile.FieldsLostExactlyWhen | internal/config/personal.go:170-181 | a step changes the other fields iff it fails between truncating and writing a file that had any |
| TokenFile.FieldsCanBeLost | internal/config/personal.go:170-181 | the run in which a killed rotation empties the file |
| TokenFile.FileSettles | internal/config/personal.go:170-181 | whenever the lock is free the file on disk has those fields |
| TokenFile.WithoutRotation | internal/config/personal.go:107-151 | without rotation the file is given one token, once |
| TokenFile.EveryoneAgrees | internal/config/personal.go:38-73 | without rotation every call that returns returns the same contents, and they are the ones on disk, whatever fails |
| TokenFile.RotationReturnsItsOwn | internal/config/personal.go:315-347 | in every run a rotation returns a token it drew itself |
| TokenFile.FirstFileIsACallers | internal/config/personal.go:47-67 | where there was no file, the first contents carry the name of the caller who made it and a token they drew |
| TokenFile.MalformedIsLeftAlone | internal/config/personal.go:87-105 | a file that cannot be decoded is never touched and nobody gets anything from it |
| TokenFile.BackfillAlone | internal/config/personal.go:118-151 | by itself a run on a token-less file adds and returns a token and changes nothing else |
| TokenFile.RotationAlone | internal/config/personal.go:315-347 | by itself a rotation replaces the token, returns it and changes nothing else |
| TokenFile.TokenIsReturned | internal/config/personal.go:38-45 | by itself a run on a file with a token returns what is there and leaves it |
| TokenFile.FirstRunCreates | internal/config/personal.go:47-67 | by itself a first run creates the file with its own name and token and returns that |
| Bounded.RunKeepsInv | internal/cli/doctor.go:863-893 | where the one delivered result is, in every ordering |
| Bounded.AnswerOrTimeout | internal/cli/doctor.go:863-905 | the caller gets the delivered answer or a timeout, never a bare context error |
| Bounded.ResourceUsedOnce | internal/cli/doctor.go:935-952 | with a discard, a delivered resource is returned or discarded, exactly once |
| Bounded.LandedAnswerWins | internal/cli/doctor.go:919-952 | an answer already delivered when the limit passes is what the caller gets |
| Bounded.TimeoutHasCause | internal/cli/doctor.go:872-893 | a timeout is reported only if the timer fired, the context ended or the call was cut off by them |
| Bounded.DeliveredIsReturned | internal/cli/doctor.go:872-887 | a caller that takes what was delivered gets it as it is, or a timeout for a context error |
| Bounded.LateIsDiscarded | internal/cli/doctor.go:935-952 | a caller whose time is up gives up, and a resource that comes later is discarded |
| Quoting.ShellQuoteReadsBack | internal/cli/env.go:188-190 | a POSIX shell reads the quoted value back as itself, as one word, for every value and whatever follows |
| Quoting.DotenvQuote | internal/cli/env.go:215-237 | the loop computes the quoting function the next two rows are about |
| Quoting.DotenvReadsBack | internal/cli/env.go:208-237 | every value is one line; it reads back as itself, with a reader to which single quotes quote iff it is not a bare value that opens with one |
| Quoting.DotenvFileReadsBack | internal/cli/env.go:144-166 | the whole listing reads back as exactly the variables printed iff every key is a name to a dotenv reader and, where single quotes quote, no bare value opens with one |
| Quoting.ExportsReadBack | internal/cli/env.go:166-172 | a shell that reads the whole listing exports exactly the variables printed, values over many lines included, iff every key is a shell name |
| Quoting.FormatEnv | internal/cli/env.go:144-184 | the masked map printed in the format, keys ascending; an unknown format is refused |
| Quoting.OnePrintedForm | internal/cli/env.go:145-149 | a map has one printed form in each format |
| Quoting.SecretsLeaveNoTrace | internal/cli/env.go:144-184 | two maps that differ only in secret values give the same FormatEnv result in every format |
| Quoting.DotenvOutputReads | internal/cli/env.go:144-166 | reading the dotenv output gives each variable its value, each masked secret the mask, and nothing else |
| Quoting.ShellOutputReads | internal/cli/env.go:166-172 | the same for a shell that reads the shell output |
| Quoting.JsonOutputReads | internal/cli/env.go:173-181 | the same for the JSON output |
| EnvMerge.Excluded | internal/env/env.go:90-101 | true iff some pattern matches, exactly or by prefix |
| EnvMerge.PatternMeans | internal/env/env.go:87-100 | a pattern that ends in a star stands for every name with that beginning, any other for itself |
| EnvMerge.StarExcludesAll | internal/env/env.go:87-89 | a bare star leaves nothing of the task's environment |
| EnvMerge.Merge | internal/env/env.go:104-139 | the three loops and the sort list the merged map by ascending key |
| EnvMerge.OneListing | internal/env/env.go:129-138 | a map has one such listing, so map order never shows |
| EnvMerge.Precedence | internal/env/env.go:104-128 | name by name: override, else task unless excluded, else the last local line unless stripped |
| EnvMerge.ToEnvMap | internal/cli/env.go:122-130 | the loop computes the reading function of the next row |
| EnvMerge.MergeRoundTrip | internal/cli/env.go:122-130 | it inverts Merge iff no override and no kept task key holds an `=` |
| EnvMerge.KeyIsCutAtEquals | internal/cli/env.go:122-130 | a key with an `=` comes back cut at the first one, the rest joined to the value |
| EnvMerge.ContainerCredentialsPath | internal/cli/credproxy.go:214-228 | the relative path if the task names one, with one leading slash; else the full URI's; empty iff there is neither |
| EnvMerge.ChildEnv | internal/cli/run.go:1250-1299 | the child's environment is the listing of the map the next rows are about |
| EnvMerge.LocalIdentityHidden | internal/cli/run.go:1263-1275 | with a task role, no credential variable of the child depends on the local environment |
| EnvMerge.TaskRoleApplies | internal/cli/run.go:1250-1276 | with a task role the full URI is the loopback endpoint whatever env.override says, and the relative one is there iff env.override names it |
| EnvMerge.SharedConfigHidden | internal/cli/run.go:218-231 | with a task role both names of the shared config are the empty file and the region is the task's or the run's, whatever the local environment and env.override say |
| EnvMerge.EndpointsRewritten | internal/cli/credproxy.go:168-173 | each metadata endpoint that could be rewritten reaches the child rewritten |
| EnvMerge.NoRoleSetsNothing | internal/cli/run.go:1068-1096 | without a task role the run sets nothing but those endpoints |
| EnvMerge.LocalIdentityKept | internal/cli/run.go:1257-1262 | without a task role the local value survives |
| EnvMerge.PrintedIsInjected | internal/cli/env.go:76-91 | what `tetherd env` prints, after its own reading back, is what is read in the child's environment, keys with an `=` included, unless the run itself sets the name; what is read there beyond it is accounted for |
| EnvMerge.ListingGives | internal/cli/env.go:122-130 | for any keys, a name read off a listing has the value of the last key in order that a reader takes for that name |

## Left out

- AWS calls, the SSM plugin, discovery and prefix-list paging: clients of services that are not part of this model.
- pfctl, DIOCNATLOOK, launchd, peer credentials, install and uninstall: the platform is an interface whose operations may fail; a set that fails is taken to install nothing.
- yamux, net/http, httputil, JSON and YAML: a stream is a byte sequence or a list of replies, a document a value.
- The interleaved protocols (`Steal`, `IdleExit`, `Bounded`, `TokenFile`) are state machines on values; field updates inside one critical section are not modelled as heap updates there.
- The joins in `pendingWrite` and `stopWrite`, and real durations: a deadline is an event that may come at any step.
- net/http's retries in the CLI's transport other than the one after nothing was written: keep-alives are off, so there is no other.
- The non-hard-link path of `publishFallback`: its writer holds no lock, so agreement is not claimed there.
- TokenFile.RunKeeps: a write is all or nothing; one cut short in the middle is not modelled.
- The startup sweep lock in `cmd/tetherd-helper/main.go`: it depends on kernel flock behaviour.
- IdleExit.IdleExitSafe: a server with no idle timeout, or whose listener has no deadline, is not modelled; it never returns idle.
- Router.PinRouter.Set: a router without a pin file is not modelled.
- Router.PinRouter.ClearRecorded: lines arrive as trimmed strings; address parsing and a pin file that cannot be read are not modelled.
- Bytes.BufferBody: a stream that returns neither bytes nor an error for ever is not modelled; any finite number of such reads is.
- HelperSession.Server.DoPfApply: arguments arrive as whether each one parses.
- Registry.Agent.Hello: the welcome's contents (other users, the task's environment) and timestamps are left out.
- Registry.MatchSession: tokens are compared by plain equality; constant time has no meaning here. Header lookup is a function from names to values.
- Quoting.DotenvReadsBack: values are sequences of characters, so invalid UTF-8 is not modelled.
- Quoting.FormatEnv: the JSON encoder and write errors are left out; the JSON listing is the masked map itself.
- EnvMerge.ChildEnv: URL parsing comes in as inputs (the full URI's path and the rewritten metadata URLs); the warning lines are left out.
- Doctor's rows, status rendering, log wording, flags and configuration lookup: user interface.
