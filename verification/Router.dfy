/**
 Pinning the credential endpoint to lo0 (internal/helper/route.go): what
 route(8) is asked to add and delete as root, what is recorded, and what a
 helper that was killed leaves behind.
 */
module Router {
  import opened Optional

  type Addr = string

  const CREDENTIAL_ENDPOINT: Addr := "169.254.170.2"
  const LOOPBACK := "lo0"
  const MAX_HOSTS := 8

  predicate HostAllowed(h: Addr) {
    h == CREDENTIAL_ENDPOINT
  }

  // --------------------------------------------------- reading `route -n get`

  /** The fields of each line of the answer. */
  type Output = seq<seq<string>>

  datatype RouteState = Unreadable | NoHost | Loopback | Displaceable

  predicate IsField(line: seq<string>, name: string) {
    |line| == 2 && line[0] == name
  }

  function FirstDestination(out: Output): (r: string) {
    if out == [] then ""
    else if IsField(out[0], "destination:") then out[0][1]
    else FirstDestination(out[1..])
  }

  function LastInterface(out: Output): (r: string) {
    if out == [] then ""
    else if IsField(out[|out| - 1], "interface:") then out[|out| - 1][1]
    else LastInterface(out[..|out| - 1])
  }

  method RouteGetDestination(out: Output) returns (dest: string)
    ensures dest == FirstDestination(out)
  {
    for i := 0 to |out|
      invariant FirstDestination(out) == FirstDestination(out[i..])
    {
      if IsField(out[i], "destination:") {
        return out[i][1];
      }
      assert out[i..][1..] == out[i + 1..];
    }
    return "";
  }

  /** A route counts as displaceable only if the answer is about h and names an interface other than lo0. */
  method ClassifyRouteGet(out: Output, h: Addr) returns (r: RouteState)
    requires h != ""
    ensures r == Displaceable <==>
            FirstDestination(out) == h && LastInterface(out) != "" && LastInterface(out) != LOOPBACK
    ensures r == Loopback <==> FirstDestination(out) == h && LastInterface(out) == LOOPBACK
    ensures r == NoHost <==> FirstDestination(out) != "" && FirstDestination(out) != h
  {
    var iface := "";
    for i := 0 to |out|
      invariant iface == LastInterface(out[..i])
    {
      assert out[..i + 1][..i] == out[..i];
      if IsField(out[i], "interface:") {
        iface := out[i][1];
      }
    }
    assert out[..|out|] == out;
    var dest := RouteGetDestination(out);
    if dest == "" {
      return Unreadable;
    } else if dest != h {
      return NoHost;
    } else if iface == "" {
      return Unreadable;
    } else if iface == LOOPBACK {
      return Loopback;
    }
    return Displaceable;
  }

  // ---------------------------------------------------------------- the host

  /** was: the route that stood there; ours: a router of ours added it; recorded: the host was on record. */
  datatype Command =
    | AddRoute(h: Addr, ok: bool)
    | DeleteRoute(h: Addr, ok: bool, was: Option<string>, ours: bool, recorded: bool)

  /**
   The machine at one instant: its host routes, the pin record, the pins a router
   of ours added, the one of them that was added without being on record, and
   whether the last write of the record failed.
   */
  datatype Point = Point(
    table: map<Addr, string>, record: seq<string>, pins: set<Addr>, unsaved: Option<Addr>, lost: bool)

  /**
   The routing table and the pin record. Nothing else changes the table. A
   command fails when the environment says so, and otherwise behaves. What is
   logged of a command is what the host sees, not what the caller says.
   */
  class Host {
    var table: map<Addr, string>
    var record: seq<string>
    const fails: nat -> bool
    var issued: nat
    ghost var commands: seq<Command>
    ghost var pins: set<Addr>
    ghost var trail: seq<Point>
    ghost var lost: bool

    constructor (table: map<Addr, string>, record: seq<string>, fails: nat -> bool)
      ensures this.table == table && this.record == record && this.fails == fails && issued == 0
      ensures commands == [] && pins == {} && trail == [] && !lost
    {
      this.table, this.record, this.fails, issued := table, record, fails, 0;
      commands, pins, trail, lost := [], {}, [], false;
    }

    /** Every host route is on some interface, and the pins are routes to lo0. */
    ghost predicate Valid()
      reads this
    {
      (forall h :: h in table ==> table[h] != "") && forall h :: h in pins ==> OnLoopback(table, h)
    }

    /** `route add -host h -interface lo0`; taken reports that the destination exists. */
    method Add(h: Addr) returns (ok: bool, taken: bool)
      requires Valid()
      modifies this`table, this`issued, this`commands, this`pins, this`trail
      ensures Valid() && issued == old(issued) + 1
      ensures taken <==> h in old(table) && !fails(old(issued))
      ensures ok <==> h !in old(table) && !fails(old(issued))
      ensures table == if ok then old(table)[h := LOOPBACK] else old(table)
      ensures pins == if ok then old(pins) + {h} else old(pins)
      ensures commands == old(commands) + [AddRoute(h, ok)]
      ensures trail == old(trail) + [Point(table, record, pins, if ok && h !in record then Some(h) else None, lost)]
    {
      var works := !fails(issued);
      ok, taken := works && h !in table, works && h in table;
      if ok {
        table := table[h := LOOPBACK];
        pins := pins + {h};
      }
      issued := issued + 1;
      commands := commands + [AddRoute(h, ok)];
      trail := trail + [Point(table, record, pins, if ok && h !in record then Some(h) else None, lost)];
    }

    /** `route delete -host h` */
    method Delete(h: Addr) returns (ok: bool)
      requires Valid()
      modifies this`table, this`issued, this`commands, this`pins, this`trail
      ensures Valid() && issued == old(issued) + 1
      ensures ok <==> h in old(table) && !fails(old(issued))
      ensures table == if ok then old(table) - {h} else old(table)
      ensures pins == if ok then old(pins) - {h} else old(pins)
      ensures commands == old(commands) + [DeleteRoute(h, ok, RouteOf(old(table), h), h in old(pins), h in record)]
      ensures trail == old(trail) + [Point(table, record, pins, None, lost)]
    {
      ok := h in table && !fails(issued);
      commands := commands + [DeleteRoute(h, ok, RouteOf(table, h), h in pins, h in record)];
      if ok {
        table := table - {h};
        pins := pins - {h};
      }
      issued := issued + 1;
      trail := trail + [Point(table, record, pins, None, lost)];
    }

    /** `route get h`: the host route for h if there is one, else whatever network covers it. */
    method Get(h: Addr) returns (ok: bool, out: Output)
      requires h != ""
      modifies this`issued
      ensures issued == old(issued) + 1 && ok == !fails(old(issued))
      ensures ok && h in table ==> FirstDestination(out) == h && LastInterface(out) == table[h]
      ensures ok && h !in table ==> FirstDestination(out) != h
    {
      ok := !fails(issued);
      issued := issued + 1;
      if h in table {
        out := [["route", "to:", h], ["destination:", h], ["interface:", table[h]]];
        assert out[1..][0] == out[1];
      } else {
        out := [["destination:", "default"], ["interface:", "en0"]];
        if h == "default" {
          out := [];
        }
      }
    }

    /** Writes the record. A write that fails is tolerated; it leaves the old record or an empty one. */
    method Save(lines: seq<string>)
      modifies this`record, this`issued, this`trail, this`lost
      ensures issued == old(issued) + 1 && lost == fails(old(issued))
      ensures if lost then record == old(record) || record == [] else record == lines
      ensures trail == old(trail) + [Point(table, record, pins, None, lost)]
    {
      var torn :| torn || !torn;
      if !fails(issued) {
        record := lines;
      } else if torn {
        record := [];
      }
      lost := fails(issued);
      issued := issued + 1;
      trail := trail + [Point(table, record, pins, None, lost)];
    }
  }

  predicate OnLoopback(table: map<Addr, string>, h: Addr) {
    RouteOf(table, h) == Some(LOOPBACK)
  }

  function RouteOf(table: map<Addr, string>, h: Addr): (r: Option<string>) {
    if h in table then Some(table[h]) else None
  }

  /** A delete is justified if the route is one of ours, is on record, or stands on an interface other than lo0. */
  predicate Justified(c: Command) {
    c.DeleteRoute? ==> c.ours || c.recorded || (c.was.Some? && c.was.value != LOOPBACK)
  }

  ghost predicate DeletesJustified(commands: seq<Command>) {
    forall i :: 0 <= i < |commands| ==> Justified(commands[i])
  }

  /** Whoever reads the record at this instant finds every pin, but for one just added, if the last write worked. */
  ghost predicate Recoverable(p: Point) {
    forall h :: h in p.pins ==>
      HostAllowed(h) && OnLoopback(p.table, h) && (p.lost || p.unsaved == Some(h) || h in p.record)
  }

  /** Wherever the process is killed that holds of the machine. */
  ghost predicate CrashSafe(trail: seq<Point>) {
    forall i :: 0 <= i < |trail| ==> Recoverable(trail[i])
  }

  /** No route differs but those of hs. */
  ghost predicate OnlyAt(before: map<Addr, string>, after: map<Addr, string>, hs: seq<Addr>) {
    forall g :: g !in hs ==> RouteOf(after, g) == RouteOf(before, g)
  }

  // -------------------------------------------------------------- the router

  class PinRouter {
    const host: Host
    var pinned: seq<Addr>

    constructor (host: Host)
      ensures this.host == host && pinned == []
    {
      this.host, pinned := host, [];
    }

    /** The list is what is pinned, it is on record unless a write was lost, and every command was justified. */
    ghost predicate Valid()
      reads this, host
    {
      && host.Valid()
      && (forall h :: h in host.pins <==> h in pinned)
      && (forall h :: h in pinned ==> HostAllowed(h) && (host.lost || h in host.record))
      && NoRepeats(pinned)
      && DeletesJustified(host.commands)
      && CrashSafe(host.trail)
    }

    method IsPinned(h: Addr) returns (r: bool)
      ensures r <==> h in pinned
    {
      for i := 0 to |pinned|
        invariant forall k :: 0 <= k < i ==> pinned[k] != h
      {
        if pinned[i] == h {
          return true;
        }
      }
      return false;
    }

    method ReachesLoopback(h: Addr) returns (r: bool)
      requires host.Valid() && h != ""
      modifies host`issued
      ensures host.issued == old(host.issued) + 1
      ensures r <==> OnLoopback(host.table, h) && !host.fails(old(host.issued))
    {
      var ok, out := host.Get(h);
      if !ok {
        return false;
      }
      var c := ClassifyRouteGet(out, h);
      return c == Loopback;
    }

    /** Removes the route in the way, but only one positively identified as not on lo0. */
    method DisplaceConflict(h: Addr) returns (ok: bool)
      requires Valid() && h != ""
      modifies host
      ensures Valid() && host.record == old(host.record) && host.lost == old(host.lost)
      ensures host.issued > old(host.issued)
      ensures ok ==> h !in host.table && h in old(host.table) && old(host.table)[h] != LOOPBACK
      ensures !ok ==> host.table == old(host.table)
      ensures OnlyAt(old(host.table), host.table, [h])
      ensures (forall n :: !host.fails(n)) && h in old(host.table) && old(host.table)[h] != LOOPBACK ==> ok
    {
      var got, out := host.Get(h);
      if !got {
        return false;
      }
      var c := ClassifyRouteGet(out, h);
      if c != Displaceable {
        return false;
      }
      ok := host.Delete(h);
    }

    /**
     Puts h on lo0, displacing a route on another interface. A route on lo0 that
     is in the way is never touched, and no other route is.
     */
    method Pin(h: Addr) returns (ok: bool)
      requires Valid() && HostAllowed(h)
      modifies host
      ensures host.Valid() && host.record == old(host.record) && host.lost == old(host.lost)
      ensures DeletesJustified(host.commands) && CrashSafe(host.trail)
      ensures forall g :: g in host.pins <==> g in pinned || (ok && g == h)
      ensures host.fails(old(host.issued)) ==> !ok && host.commands == old(host.commands) + [AddRoute(h, false)]
      ensures OnlyAt(old(host.table), host.table, [h])
      ensures ok ==> OnLoopback(host.table, h)
      ensures OnLoopback(old(host.table), h) ==> !ok && host.table == old(host.table)
      ensures (forall n :: !host.fails(n)) ==> (ok <==> !OnLoopback(old(host.table), h))
    {
      var added, taken := host.Add(h);
      if added {
        return true;
      }
      if !taken {
        return false;
      }
      var displaced := DisplaceConflict(h);
      if !displaced {
        return false;
      }
      ok, taken := host.Add(h);
    }

    /** One host of a route.set: already there, or pinned and put on record. */
    method SetOne(h: Addr) returns (ok: bool)
      requires Valid() && HostAllowed(h)
      modifies this, host
      ensures Valid() && OnlyAt(old(host.table), host.table, [h])
      ensures pinned == if ok && h !in old(pinned) then old(pinned) + [h] else old(pinned)
      ensures ok ==> h in pinned && OnLoopback(host.table, h)
      ensures (forall n :: !host.fails(n)) && !old(host.lost) ==> !host.lost
      ensures OnLoopback(old(host.table), h) ==> host.table == old(host.table) && (ok ==> h in old(pinned))
      ensures (forall n :: !host.fails(n)) ==> (ok <==> h in old(pinned) || !OnLoopback(old(host.table), h))
    {
      var recorded := IsPinned(h);
      if recorded {
        var reaches := ReachesLoopback(h);
        if reaches {
          return true;
        }
      }
      ok := Pin(h);
      if ok && !recorded {
        pinned := pinned + [h];
        host.Save(pinned);
      }
    }

    /**
     On success every host is routed to lo0 and recorded, and nothing but their
     routes has changed; a route that was on lo0 already and is not ours stays,
     and refuses the call. A refused list changes nothing and issues nothing.
     When no command fails those are the only refusals.
     */
    method Set(hosts: seq<Addr>) returns (ok: bool)
      requires Valid()
      modifies this, host
      ensures Valid() && OnlyAt(old(host.table), host.table, hosts)
      ensures ok ==> forall h :: h in hosts ==> h in pinned && OnLoopback(host.table, h)
      ensures forall h :: h in pinned ==> h in old(pinned) || (h in hosts && !OnLoopback(old(host.table), h))
      ensures (forall n :: !host.fails(n)) && !old(host.lost) ==> !host.lost
      ensures forall h :: OnLoopback(old(host.table), h) ==> OnLoopback(host.table, h)
      ensures (exists h :: h in hosts && OnLoopback(old(host.table), h) && h !in old(pinned)) ==> !ok
      ensures !Settable(hosts) ==>
                !ok && host.commands == old(host.commands) && host.table == old(host.table) && pinned == old(pinned)
      ensures Settable(hosts) && (forall n :: !host.fails(n)) ==>
                (ok <==> forall h :: h in hosts && OnLoopback(old(host.table), h) ==> h in old(pinned))
    {
      if |hosts| == 0 || |hosts| > MAX_HOSTS {
        return false;
      }
      for i := 0 to |hosts|
        invariant forall k :: 0 <= k < i ==> HostAllowed(hosts[k])
      {
        if !HostAllowed(hosts[i]) {
          return false;
        }
      }
      for i := 0 to |hosts|
        invariant Valid() && OnlyAt(old(host.table), host.table, hosts)
        invariant forall k :: 0 <= k < i ==> hosts[k] in pinned && OnLoopback(host.table, hosts[k])
        invariant forall h :: OnLoopback(old(host.table), h) ==> OnLoopback(host.table, h)
        invariant forall h :: h in old(pinned) ==> h in pinned
        invariant forall h :: OnLoopback(host.table, h) ==> OnLoopback(old(host.table), h) || h in pinned
        invariant forall h :: h in pinned ==> h in old(pinned) || (h in hosts && !OnLoopback(old(host.table), h))
        invariant (forall n :: !host.fails(n)) && !old(host.lost) ==> !host.lost
      {
        var done := SetOne(hosts[i]);
        if !done {
          return false;
        }
      }
      return true;
    }

    /**
     Removes what this router pinned. Exactly the hosts whose delete failed stay in
     the list and on record, and the routes of the others are gone; no other route is.
     */
    method Clear() returns (ok: bool, ghost deletes: seq<Command>)
      requires Valid()
      modifies this, host
      ensures Valid() && host.commands == old(host.commands) + deletes && DeletesOf(deletes, old(pinned))
      ensures pinned == FailedDeletes(deletes) && (host.record == pinned || host.lost)
      ensures ok <==> pinned == []
      ensures (forall n :: !host.fails(n)) ==> ok && !host.lost
      ensures forall h :: h in old(pinned) ==> h in pinned || h !in host.table
      ensures OnlyRemoved(old(host.table), host.table, old(pinned))
    {
      var left;
      ok, left, deletes := DeletePinned();
      FailedAreListed(deletes, pinned);
      FailedDoNotRepeat(deletes, pinned);
      pinned := left;
      host.Save(left);
    }

    /** The loop of Clear: one delete per pinned host, keeping the ones that would not go. */
    method DeletePinned() returns (ok: bool, left: seq<Addr>, ghost deletes: seq<Command>)
      requires Valid()
      modifies host
      ensures Sound() && host.record == old(host.record) && host.lost == old(host.lost)
      ensures host.commands == old(host.commands) + deletes && DeletesOf(deletes, pinned)
      ensures left == FailedDeletes(deletes) && (ok <==> left == [])
      ensures forall h :: h in host.pins <==> h in left
      ensures forall h :: h in pinned ==> h in left || h !in host.table
      ensures (forall n :: !host.fails(n)) ==> ok
      ensures OnlyRemoved(old(host.table), host.table, pinned)
    {
      ok, left, deletes := true, [], [];
      ghost var first, works := host.table, forall n :: !host.fails(n);
      NoneDeleted(pinned, host.pins, first);
      for i := 0 to |pinned|
        invariant Sound() && host.record == old(host.record) && host.lost == old(host.lost)
        invariant host.commands == old(host.commands) + deletes
        invariant DeletedSoFar(pinned, i, deletes, left, host.pins, first, host.table)
        invariant (ok <==> left == []) && (works ==> ok)
      {
        ghost var table, pins, c := host.table, host.pins, AddRoute("", false);
        PinsLeftHere(pins, pinned, i, left);
        assert pinned[i] in pins && OnLoopback(table, pinned[i]);
        var done;
        done, c := DeleteOne(pinned[i]);
        assert works ==> done;
        DeletedOneMore(pinned, i, deletes, c, left, pins, first, table, host.table);
        deletes := deletes + [c];
        if !done {
          ok := false;
          left := left + [pinned[i]];
        }
      }
      AllDeleted(pinned, deletes, left, host.pins, first, host.table);
    }

    /** The part of the invariant that speaks of the host alone. */
    ghost predicate Sound()
      reads this, host
    {
      host.Valid() && DeletesJustified(host.commands) && CrashSafe(host.trail) && forall h :: h in host.pins ==> Kept(h)
    }

    /** Deletes the route of a host that is one of ours or on record. */
    method DeleteOne(h: Addr) returns (ok: bool, ghost c: Command)
      requires host.Valid() && DeletesJustified(host.commands) && (h in host.pins || h in host.record)
      modifies host
      ensures host.Valid() && DeletesJustified(host.commands) && (old(Sound()) ==> Sound())
      ensures host.record == old(host.record) && host.lost == old(host.lost)
      ensures host.pins == if ok then old(host.pins) - {h} else old(host.pins)
      ensures host.commands == old(host.commands) + [c] && c.DeleteRoute? && c.h == h && c.ok == ok
      ensures ok <==> h in old(host.table) && !host.fails(old(host.issued))
      ensures ok || (forall n :: !host.fails(n)) ==> h !in host.table
      ensures OnlyRemoved(old(host.table), host.table, [h])
    {
      ok := host.Delete(h);
      c := host.commands[|host.commands| - 1];
    }

    /** A pin the next start can be told of. */
    ghost predicate Kept(h: Addr)
      reads this, host
    {
      HostAllowed(h) && (host.lost || h in host.record)
    }

    /**
     At startup: removes the pins a previous helper recorded and empties the
     record. A recorded pin is gone unless its own delete failed. Anything else in
     the file is left alone, and so is any other route. A router of its own that
     has pinned nothing may be used from then on.
     */
    method ClearRecorded()
      requires host.Valid() && DeletesJustified(host.commands)
      modifies this, host
      ensures host.Valid() && pinned == [] && (host.record == [] || host.lost)
      ensures (forall n :: !host.fails(n)) ==> !host.lost
      ensures DeletesJustified(host.commands)
      ensures old(host.pins) == {} && old(CrashSafe(host.trail)) ==> Valid()
      ensures OnlyRemoved(old(host.table), host.table, old(host.record))
      ensures forall h :: h in old(host.table) && !HostAllowed(h) ==> h in host.table
      ensures forall h :: h in old(host.record) && HostAllowed(h) ==>
                h !in host.table || FailedAfter(host.commands, |old(host.commands)|, h)
      ensures (forall n :: !host.fails(n)) ==>
                forall h :: h in old(host.record) && HostAllowed(h) ==> h !in host.table
    {
      var lines := host.record;
      ghost var first, works := host.table, forall n :: !host.fails(n);
      for i := 0 to |lines|
        invariant host.Valid() && host.record == lines
        invariant DeletesJustified(host.commands) && old(host.commands) <= host.commands
        invariant old(host.pins) == {} && old(CrashSafe(host.trail)) ==> Sound() && host.pins == {}
        invariant Swept(lines, i, first, host.table, host.commands, |old(host.commands)|, works)
      {
        if !HostAllowed(lines[i]) {
          continue;
        }
        ghost var before, commands, c := host.table, host.commands, AddRoute("", false);
        var done;
        done, c := DeleteOne(lines[i]);
        OneMoreSwept(lines, i, first, before, host.table, commands, c, |old(host.commands)|, works);
      }
      pinned := [];
      host.Save(pinned);
    }
  }

  predicate Settable(hosts: seq<Addr>) {
    0 < |hosts| <= MAX_HOSTS && forall h :: h in hosts ==> HostAllowed(h)
  }

  /** Routes may have gone for these hosts; nothing else changed. */
  ghost predicate OnlyRemoved(before: map<Addr, string>, after: map<Addr, string>, hs: seq<Addr>) {
    && (forall h :: h in after ==> h in before && after[h] == before[h])
    && (forall h :: h in before && h !in hs ==> h in after)
  }

  /** Of the first i hosts, those not in left have no route. */
  ghost predicate GoneBut(hs: seq<Addr>, i: nat, left: seq<Addr>, table: map<Addr, string>) {
    i <= |hs| && forall k :: 0 <= k < i ==> hs[k] in left || hs[k] !in table
  }

  lemma OneMoreGone(
    hs: seq<Addr>, i: nat, kept: seq<Addr>, left: seq<Addr>, before: map<Addr, string>, after: map<Addr, string>)
    requires i < |hs| && GoneBut(hs, i, kept, before) && OnlyRemoved(before, after, [hs[i]])
    requires left == kept + [hs[i]] || (left == kept && hs[i] !in after)
    ensures GoneBut(hs, i + 1, left, after)
  {
  }

  lemma StillOnlyRemoved(
    first: map<Addr, string>, before: map<Addr, string>, after: map<Addr, string>, hs: seq<Addr>, h: Addr)
    requires OnlyRemoved(first, before, hs) && OnlyRemoved(before, after, [h]) && h in hs
    ensures OnlyRemoved(first, after, hs)
  {
  }

  lemma FailedAreListed(commands: seq<Command>, hs: seq<Addr>)
    requires DeletesOf(commands, hs)
    ensures forall h :: h in FailedDeletes(commands) ==> h in hs
  {
    if commands != [] {
      FailedAreListed(commands[..|commands| - 1], hs[..|hs| - 1]);
    }
  }

  ghost predicate NoRepeats(hs: seq<Addr>) {
    forall i, j :: 0 <= i < j < |hs| ==> hs[i] != hs[j]
  }

  /** After the first i deletes the pins are those that would not go and those not tried yet. */
  ghost predicate PinsLeft(pins: set<Addr>, hs: seq<Addr>, i: nat, left: seq<Addr>) {
    && i <= |hs| && NoRepeats(hs)
    && (forall h :: h in left ==> h in hs[..i])
    && (forall h :: h in pins <==> h in left || h in hs[i..])
  }

  lemma PinsLeftHere(pins: set<Addr>, hs: seq<Addr>, i: nat, left: seq<Addr>)
    requires i < |hs| && PinsLeft(pins, hs, i, left)
    ensures hs[i] in pins && hs[i] !in left && hs[i] !in hs[i + 1..]
  {
    assert hs[i] in hs[i..];
    assert hs[i] !in hs[..i];
  }

  lemma OneMorePin(
    pins: set<Addr>, pins': set<Addr>, hs: seq<Addr>, i: nat, left: seq<Addr>, left': seq<Addr>, gone: bool)
    requires i < |hs| && PinsLeft(pins, hs, i, left)
    requires pins' == if gone then pins - {hs[i]} else pins
    requires left' == if gone then left else left + [hs[i]]
    ensures PinsLeft(pins', hs, i + 1, left')
  {
    PinsLeftHere(pins, hs, i, left);
    assert hs[..i + 1] == hs[..i] + [hs[i]];
    assert hs[i..] == [hs[i]] + hs[i + 1..];
  }

  /** Where Clear is after i deletes. */
  ghost predicate DeletedSoFar(
    hs: seq<Addr>, i: nat, deletes: seq<Command>, left: seq<Addr>, pins: set<Addr>,
    first: map<Addr, string>, table: map<Addr, string>)
  {
    && PinsLeft(pins, hs, i, left) && GoneBut(hs, i, left, table)
    && DeletesOf(deletes, hs[..i]) && left == FailedDeletes(deletes)
    && OnlyRemoved(first, table, hs)
  }

  lemma NoneDeleted(hs: seq<Addr>, pins: set<Addr>, table: map<Addr, string>)
    requires NoRepeats(hs) && forall h :: h in pins <==> h in hs
    ensures DeletedSoFar(hs, 0, [], [], pins, table, table)
  {
    assert hs[0..] == hs;
  }

  lemma DeletedOneMore(
    hs: seq<Addr>, i: nat, deletes: seq<Command>, c: Command, left: seq<Addr>, pins: set<Addr>,
    first: map<Addr, string>, table: map<Addr, string>, table': map<Addr, string>)
    requires i < |hs| && DeletedSoFar(hs, i, deletes, left, pins, first, table)
    requires c.DeleteRoute? && c.h == hs[i] && OnlyRemoved(table, table', [hs[i]]) && (c.ok ==> hs[i] !in table')
    ensures DeletedSoFar(hs, i + 1, deletes + [c], if c.ok then left else left + [hs[i]],
                         if c.ok then pins - {hs[i]} else pins, first, table')
  {
    var left' := if c.ok then left else left + [hs[i]];
    DeletesSnoc(deletes, hs, i, c);
    OneMorePin(pins, if c.ok then pins - {hs[i]} else pins, hs, i, left, left', c.ok);
    OneMoreGone(hs, i, left, left', table, table');
    StillOnlyRemoved(first, table, table', hs, hs[i]);
  }

  lemma AllDeleted(
    hs: seq<Addr>, deletes: seq<Command>, left: seq<Addr>, pins: set<Addr>,
    first: map<Addr, string>, table: map<Addr, string>)
    requires DeletedSoFar(hs, |hs|, deletes, left, pins, first, table)
    ensures DeletesOf(deletes, hs) && left == FailedDeletes(deletes) && OnlyRemoved(first, table, hs)
    ensures forall h :: h in pins <==> h in left
    ensures forall h :: h in hs ==> h in left || h !in table
  {
    assert hs[..|hs|] == hs;
  }

  lemma {:induction false} FailedDoNotRepeat(commands: seq<Command>, hs: seq<Addr>)
    requires DeletesOf(commands, hs) && NoRepeats(hs)
    ensures NoRepeats(FailedDeletes(commands))
  {
    if commands != [] {
      var n := |hs| - 1;
      FailedDoNotRepeat(commands[..n], hs[..n]);
      FailedAreListed(commands[..n], hs[..n]);
      var f := FailedDeletes(commands[..n]);
      assert forall i :: 0 <= i < |f| ==> f[i] in f;
      assert hs[n] !in hs[..n];
    }
  }

  /** One delete per host, in order. */
  ghost predicate DeletesOf(commands: seq<Command>, hs: seq<Addr>) {
    && |commands| == |hs|
    && forall i :: 0 <= i < |hs| ==> commands[i].DeleteRoute? && commands[i].h == hs[i]
  }

  /** The hosts whose delete did not work, in order. */
  ghost function FailedDeletes(commands: seq<Command>): (hs: seq<Addr>) {
    if commands == [] then []
    else
      var c := commands[|commands| - 1];
      FailedDeletes(commands[..|commands| - 1]) + if c.DeleteRoute? && !c.ok then [c.h] else []
  }

  lemma DeletesSnoc(commands: seq<Command>, hs: seq<Addr>, i: nat, c: Command)
    requires i < |hs| && DeletesOf(commands, hs[..i]) && c.DeleteRoute? && c.h == hs[i]
    ensures DeletesOf(commands + [c], hs[..i + 1])
    ensures FailedDeletes(commands + [c]) == FailedDeletes(commands) + if c.ok then [] else [c.h]
  {
    assert (commands + [c])[..|commands|] == commands;
    assert hs[..i + 1] == hs[..i] + [hs[i]];
  }

  /** A delete of h issued from command `from` on did not work. */
  ghost predicate FailedAfter(commands: seq<Command>, from: nat, h: Addr) {
    exists i :: from <= i < |commands| && commands[i].DeleteRoute? && commands[i].h == h && !commands[i].ok
  }

  /**
   Each of the first i lines that names a pin has no route, or its delete failed,
   as none does if all works; no route but such a pin's has gone.
   */
  ghost predicate Swept(
    lines: seq<string>, i: nat, first: map<Addr, string>, table: map<Addr, string>,
    commands: seq<Command>, from: nat, works: bool)
  {
    && i <= |lines| && from <= |commands|
    && OnlyRemoved(first, table, lines)
    && (forall h :: h in first && !HostAllowed(h) ==> h in table)
    && forall k :: 0 <= k < i && HostAllowed(lines[k]) ==>
         lines[k] !in table || (!works && FailedAfter(commands, from, lines[k]))
  }

  lemma OneMoreSwept(
    lines: seq<string>, i: nat, first: map<Addr, string>, before: map<Addr, string>, after: map<Addr, string>,
    commands: seq<Command>, c: Command, from: nat, works: bool)
    requires i < |lines| && HostAllowed(lines[i]) && Swept(lines, i, first, before, commands, from, works)
    requires OnlyRemoved(before, after, [lines[i]])
    requires c.DeleteRoute? && c.h == lines[i] && (c.ok || works ==> lines[i] !in after)
    ensures Swept(lines, i + 1, first, after, commands + [c], from, works)
  {
    StillOnlyRemoved(first, before, after, lines, lines[i]);
    var all := commands + [c];
    assert all[|commands|] == c;
    forall h | FailedAfter(commands, from, h)
      ensures FailedAfter(all, from, h)
    {
      var k :| from <= k < |commands| && commands[k].DeleteRoute? && commands[k].h == h && !commands[k].ok;
      assert all[k] == commands[k];
    }
  }

  /**
   A helper killed at any instant is cleaned up after by the next one, if its
   deletes work: of its pins exactly those that were not on record stay. Those are
   at most the one between its add and its save, unless the last write of the
   record had failed. The next one is ready to serve.
   */
  method RestartAfterKill(trail: seq<Point>, i: nat, fails: nat -> bool)
    returns (table: map<Addr, string>, next: PinRouter)
    requires CrashSafe(trail) && i < |trail|
    requires forall h :: h in trail[i].table ==> trail[i].table[h] != ""
    requires forall n :: !fails(n)
    ensures forall h :: h in trail[i].pins ==> (OnLoopback(table, h) <==> h !in trail[i].record)
    ensures forall h :: h in trail[i].pins && h in table ==> trail[i].lost || trail[i].unsaved == Some(h)
    ensures forall h :: h in trail[i].table && h !in trail[i].record ==> h in table && table[h] == trail[i].table[h]
    ensures next.Valid() && next.host.table == table && next.host.fails == fails
  {
    assert Recoverable(trail[i]);
    var host := new Host(trail[i].table, trail[i].record, fails);
    next := new PinRouter(host);
    next.ClearRecorded();
    table := host.table;
  }

  /**
   A whole life of the helper: sweep, one session, and its end. The session is
   served exactly unless the endpoint was on lo0 and not on record; its end works and
   leaves no route to the endpoint; no other host's route is touched.
   */
  method WholeLife(before: map<Addr, string>, record: seq<string>, fails: nat -> bool)
    returns (served: bool, cleared: bool, after: map<Addr, string>)
    requires forall h :: h in before ==> before[h] != ""
    requires forall n :: !fails(n)
    ensures served <==> !OnLoopback(before, CREDENTIAL_ENDPOINT) || CREDENTIAL_ENDPOINT in record
    ensures cleared && (served ==> CREDENTIAL_ENDPOINT !in after)
    ensures !served ==> OnLoopback(after, CREDENTIAL_ENDPOINT)
    ensures OnlyAt(before, after, [CREDENTIAL_ENDPOINT])
  {
    var host := new Host(before, record, fails);
    var router := new PinRouter(host);
    router.ClearRecorded();
    ghost var swept := host.table;
    assert OnlyAt(before, swept, [CREDENTIAL_ENDPOINT]);
    served := router.Set([CREDENTIAL_ENDPOINT]);
    assert CREDENTIAL_ENDPOINT in [CREDENTIAL_ENDPOINT];
    ghost var deletes;
    cleared, deletes := router.Clear();
    after := host.table;
  }
}
