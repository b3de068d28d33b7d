/**
 IPv4 prefix subtraction: which ranges `tetherd run` captures
 (internal/cli/run.go). Addresses are four bytes, as in the source's halving
 step. A prefix spans the addresses that agree with it on its leading bits
 (section 3.1 of RFC 4632); ContainsIsRange says the same thing in numbers.
 */
module Cidr {
  import opened Optional

  /** A byte as its eight bits, the most significant first. */
  type Byte = b: seq<bool> | |b| == 8 witness [false, false, false, false, false, false, false, false]

  type Bytes4 = s: seq<Byte> | |s| == 4 witness seq(4, _ => seq(8, _ => false))

  datatype Addr = V4(bytes: Bytes4) | V6(n: nat)

  /** A parsed netip.Prefix. It need not be masked: 10.1.2.3/8 is a value of this type. */
  datatype RawPrefix = RawPrefix(addr: Addr, bits: nat)

  type Prefix = p: RawPrefix | p.bits <= (if p.addr.V4? then 32 else 128)
    witness RawPrefix(V6(0), 0)

  /** Bit i of an IPv4 address, counted from the most significant. */
  predicate Bit(a: Addr, i: nat)
    requires a.V4? && i < 32
  {
    a.bytes[i / 8][i % 8]
  }

  predicate Agree(a: Addr, b: Addr, n: nat)
    requires a.V4? && b.V4? && n <= 32
  {
    forall i :: 0 <= i < n ==> Bit(a, i) == Bit(b, i)
  }

  /** Whether the prefix spans the address (only IPv4 addresses are captured). */
  predicate Contains(p: Prefix, a: Addr) {
    p.addr.V4? && a.V4? && Agree(p.addr, a, p.bits)
  }

  predicate Covers(ps: seq<Prefix>, a: Addr) {
    exists i :: 0 <= i < |ps| && Contains(ps[i], a)
  }

  /** No address bit is set past the mask. */
  predicate Masked(p: Prefix) {
    p.addr.V4? ==> forall i :: p.bits <= i < 32 ==> !Bit(p.addr, i)
  }

  predicate AllMasked(ps: seq<Prefix>) {
    forall i :: 0 <= i < |ps| ==> Masked(ps[i])
  }

  predicate AllV4(ps: seq<Prefix>) {
    forall i :: 0 <= i < |ps| ==> ps[i].addr.V4?
  }

  ghost predicate Disjoint(p: Prefix, q: Prefix) {
    forall a :: Contains(p, a) ==> !Contains(q, a)
  }

  ghost predicate PairwiseDisjoint(ps: seq<Prefix>) {
    forall i, j :: 0 <= i < j < |ps| ==> Disjoint(ps[i], ps[j])
  }

  // ---------------------------------------------------------------- the code

  /** netip's Overlaps: equal once both are masked to the shorter of the two lengths. */
  predicate Overlaps(e: Prefix, p: Prefix)
    requires p.addr.V4?
  {
    e.addr.V4? && Agree(e.addr, p.addr, if e.bits < p.bits then e.bits else p.bits)
  }

  /** `b |= 1 << k`: bit k, counted from the least significant, is set. */
  function OrBit(b: Byte, k: nat): (r: Byte)
    requires k < 8
  {
    b[7 - k := true]
  }

  function LowerHalf(p: Prefix): (r: Prefix)
    requires p.addr.V4? && p.bits < 32
    ensures r.addr.V4? && r.bits == p.bits + 1
  {
    RawPrefix(p.addr, p.bits + 1)
  }

  function UpperHalf(p: Prefix): (r: Prefix)
    requires p.addr.V4? && p.bits < 32
    ensures r.addr.V4? && r.bits == p.bits + 1
  {
    var bits := p.bits + 1;
    var addr4 := p.addr.bytes;
    var byteIdx := (bits - 1) / 8;
    var bitIdx := 7 - (bits - 1) % 8;
    RawPrefix(V4(addr4[byteIdx := OrBit(addr4[byteIdx], bitIdx)]), bits)
  }

  function SubtractOne(p: Prefix, e: Prefix): (r: seq<Prefix>)
    decreases 128 - p.bits
  {
    if !p.addr.V4? then []
    else if !Overlaps(e, p) then [p]
    else if e.bits <= p.bits then []
    else SubtractOne(LowerHalf(p), e) + SubtractOne(UpperHalf(p), e)
  }

  /** One pass of Subtract: e taken out of every prefix, in order. */
  function SubtractEach(ps: seq<Prefix>, e: Prefix): (r: seq<Prefix>) {
    if ps == [] then [] else SubtractOne(ps[0], e) + SubtractEach(ps[1..], e)
  }

  function SubtractAll(ps: seq<Prefix>, exclude: seq<Prefix>): (r: seq<Prefix>)
    decreases |exclude|
  {
    if exclude == [] then ps else SubtractAll(SubtractEach(ps, exclude[0]), exclude[1..])
  }

  method Subtract(all: seq<Prefix>, exclude: seq<Prefix>) returns (cur: seq<Prefix>)
    ensures cur == SubtractAll(all, exclude)
  {
    cur := all;
    for i := 0 to |exclude|
      invariant SubtractAll(cur, exclude[i..]) == SubtractAll(all, exclude)
    {
      var next: seq<Prefix> := [];
      for j := 0 to |cur|
        invariant next == SubtractEach(cur[..j], exclude[i])
      {
        SubtractEachAppend(cur[..j], cur[j], exclude[i]);
        assert cur[..j] + [cur[j]] == cur[..j + 1];
        next := next + SubtractOne(cur[j], exclude[i]);
      }
      assert cur[..|cur|] == cur;
      assert exclude[i..][1..] == exclude[i + 1..];
      cur := next;
    }
  }

  datatype Refusal = NoRemoteCidrs | LocalCidrsExcludeEverything
  datatype RemoteSet = Ok(cidrs: seq<Prefix>) | Refused(why: Refusal)

  /**
   What is captured is what the remote set spans, minus network.local_cidrs,
   plus the floor; the refusals are exactly the two ways nothing of the remote
   set is left, whatever the floor.
   */
  method ApplyLocalCIDRs(cidrs: seq<Prefix>, local: seq<Prefix>, floor: seq<Prefix>)
    returns (r: RemoteSet)
    ensures r == Refused(NoRemoteCidrs) <==> cidrs == []
    ensures r.Ok? ==> r.cidrs == SubtractAll(cidrs, local) + floor
    ensures AllMasked(cidrs) && AllV4(cidrs) ==>
              (r.Refused? <==> forall a :: Covers(cidrs, a) ==> Covers(local, a))
    ensures AllMasked(cidrs) && r.Ok? ==>
              forall a :: Covers(r.cidrs, a) <==> (Covers(cidrs, a) && !Covers(local, a)) || Covers(floor, a)
    ensures AllMasked(cidrs) && AllMasked(floor) && r.Ok? ==> AllMasked(r.cidrs)
  {
    if cidrs == [] {
      return Refused(NoRemoteCidrs);
    }
    var kept := Subtract(cidrs, local);
    if AllMasked(cidrs) {
      SubtractAllShape(cidrs, local);
      forall a ensures Covers(kept, a) <==> Covers(cidrs, a) && !Covers(local, a) {
        SubtractExact(cidrs, local, a);
      }
    }
    if kept == [] {
      assert forall a :: !Covers(kept, a);
      return Refused(LocalCidrsExcludeEverything);
    }
    if kept[0].addr.V4? {
      assert Contains(kept[0], kept[0].addr);
      assert Covers(kept, kept[0].addr);
    }
    var out := kept + floor;
    forall a ensures Covers(out, a) <==> Covers(kept, a) || Covers(floor, a) {
      CoversConcat(kept, floor, a);
    }
    return Ok(out);
  }

  datatype Parsed = Cidrs(ps: seq<Prefix>) | Malformed(at: nat) | NotIPv4(at: nat)

  /**
   The entries arrive as netip parsed them (None where it could not). Every
   prefix that comes out is masked and IPv4, and spans what was written.
   */
  method ParseRemoteCIDRs(entries: seq<Option<Prefix>>) returns (r: Parsed)
    ensures r.Cidrs? <==> forall i :: 0 <= i < |entries| ==> entries[i].Some? && entries[i].value.addr.V4?
    ensures r.Cidrs? ==> |r.ps| == |entries| && AllMasked(r.ps) && AllV4(r.ps)
    ensures r.Cidrs? ==> forall i, a :: 0 <= i < |entries| ==> (Contains(r.ps[i], a) <==> Contains(entries[i].value, a))
    ensures r.Malformed? ==> FirstRefused(entries, r.at) && entries[r.at].None?
    ensures r.NotIPv4? ==> FirstRefused(entries, r.at) && entries[r.at].Some?
  {
    var out: seq<Prefix> := [];
    for i := 0 to |entries|
      invariant |out| == i && AllMasked(out) && AllV4(out)
      invariant forall k :: 0 <= k < i ==> entries[k].Some? && entries[k].value.addr.V4?
      invariant forall k, a :: 0 <= k < i ==> (Contains(out[k], a) <==> Contains(entries[k].value, a))
    {
      if entries[i].None? {
        return Malformed(i);
      }
      var p := entries[i].value;
      if !p.addr.V4? {
        return NotIPv4(i);
      }
      MaskIsCanonical(p);
      out := out + [Mask(p)];
    }
    return Cidrs(out);
  }

  /** Every entry before this one is an IPv4 prefix, and it is not. */
  predicate FirstRefused(entries: seq<Option<Prefix>>, at: nat) {
    && at < |entries|
    && (entries[at].None? || !entries[at].value.addr.V4?)
    && forall k :: 0 <= k < at ==> entries[k].Some? && entries[k].value.addr.V4?
  }

  /** netip's Masked: the bits past the mask are cleared. */
  function Mask(p: Prefix): (r: Prefix)
    requires p.addr.V4?
    ensures r.addr.V4? && r.bits == p.bits
  {
    RawPrefix(V4(seq(4, i requires 0 <= i < 4 => MaskByte(p.addr.bytes[i], p.bits - 8 * i))), p.bits)
  }

  /** Keeps the first n bits of a byte (none for n <= 0, all of them from 8 up). */
  function MaskByte(b: Byte, n: int): (r: Byte) {
    seq(8, j requires 0 <= j < 8 => j < n && b[j])
  }

  lemma MaskIsCanonical(p: Prefix)
    requires p.addr.V4?
    ensures Masked(Mask(p))
    ensures forall a :: Contains(Mask(p), a) <==> Contains(p, a)
  {
    assert forall i :: 0 <= i < 32 ==> (Bit(Mask(p).addr, i) <==> i < p.bits && Bit(p.addr, i));
  }

  lemma {:induction false} SubtractEachAppend(ps: seq<Prefix>, p: Prefix, e: Prefix)
    ensures SubtractEach(ps + [p], e) == SubtractEach(ps, e) + SubtractOne(p, e)
  {
    if ps == [] {
      assert ps + [p] == [p];
    } else {
      assert (ps + [p])[1..] == ps[1..] + [p];
      SubtractEachAppend(ps[1..], p, e);
    }
  }

  // ------------------------------------------------------------- the halving

  lemma UpperHalfBits(p: Prefix, i: nat)
    requires p.addr.V4? && p.bits < 32 && i < 32
    ensures Bit(UpperHalf(p).addr, i) <==> i == p.bits || Bit(p.addr, i)
  {
  }

  /** With the bit behind the mask clear, the halves cover exactly what the prefix covers and do not meet. */
  lemma HalvesPartition(p: Prefix)
    requires p.addr.V4? && p.bits < 32 && !Bit(p.addr, p.bits)
    ensures forall a :: Contains(p, a) <==> Contains(LowerHalf(p), a) || Contains(UpperHalf(p), a)
    ensures Disjoint(LowerHalf(p), UpperHalf(p))
    ensures Masked(p) ==> Masked(LowerHalf(p)) && Masked(UpperHalf(p))
  {
    var lo, hi := LowerHalf(p), UpperHalf(p);
    forall i | 0 <= i < 32
      ensures Bit(hi.addr, i) <==> i == p.bits || Bit(p.addr, i)
    {
      UpperHalfBits(p, i);
    }
    assert !Bit(lo.addr, p.bits) && Bit(hi.addr, p.bits);
  }

  /** Two prefixes nest or miss: the wider one spans all of the narrower or none of it. */
  lemma NestOrMiss(wide: Prefix, narrow: Prefix, a: Addr)
    requires wide.addr.V4? && wide.bits <= narrow.bits && Contains(narrow, a)
    ensures Contains(wide, a) <==> Overlaps(wide, narrow)
    ensures Overlaps(wide, narrow) <==> Overlaps(narrow, wide)
  {
  }

  // -------------------------------------------------------------- in numbers

  function Pow2(n: nat): (r: nat)
    ensures r > 0
  {
    if n == 0 then 1 else 2 * Pow2(n - 1)
  }

  /** The number spelled by the leading n bits. */
  function Leading(a: Addr, n: nat): (r: nat)
    requires a.V4? && n <= 32
  {
    if n == 0 then 0 else 2 * Leading(a, n - 1) + if Bit(a, n - 1) then 1 else 0
  }

  function Value(a: Addr): (r: nat)
    requires a.V4?
  {
    Leading(a, 32)
  }

  /** Setting the bit by byte and bit index is adding half the prefix's size. */
  lemma UpperHalfAddsHalf(p: Prefix)
    requires p.addr.V4? && p.bits < 32 && Masked(p)
    ensures Value(UpperHalf(p).addr) == Value(p.addr) + Pow2(32 - (p.bits + 1))
  {
    UpperHalfLeading(p, 32);
  }

  lemma {:induction false} UpperHalfLeading(p: Prefix, n: nat)
    requires p.addr.V4? && p.bits < 32 && Masked(p) && n <= 32
    ensures Leading(UpperHalf(p).addr, n) == Leading(p.addr, n) + if n <= p.bits then 0 else Pow2(n - p.bits - 1)
  {
    if n > 0 {
      UpperHalfLeading(p, n - 1);
      UpperHalfBits(p, n - 1);
    }
  }

  lemma {:induction false} LeadingDecides(a: Addr, b: Addr, n: nat)
    requires a.V4? && b.V4? && n <= 32
    ensures Leading(a, n) == Leading(b, n) <==> Agree(a, b, n)
  {
    if n > 0 {
      LeadingDecides(a, b, n - 1);
      assert Agree(a, b, n) <==> Agree(a, b, n - 1) && Bit(a, n - 1) == Bit(b, n - 1);
    }
  }

  lemma DoubleInside(l: nat, u: nat)
    ensures l * (2 * u) == 2 * (l * u)
  {
  }

  lemma {:induction false} Below(k: nat, l: nat, s: nat)
    requires k < l
    ensures k * s + s <= l * s
  {
    assert l * s == (l - 1) * s + s;
    if k < l - 1 {
      Below(k, l - 1, s);
    }
  }

  /** Past bit n an address adds less than one unit of bit n, and nothing if those bits are clear. */
  lemma {:induction false} LeadingSplit(a: Addr, n: nat, m: nat)
    requires a.V4? && n <= m <= 32
    ensures Leading(a, n) * Pow2(m - n) <= Leading(a, m) < Leading(a, n) * Pow2(m - n) + Pow2(m - n)
    ensures (forall i :: n <= i < m ==> !Bit(a, i)) ==> Leading(a, m) == Leading(a, n) * Pow2(m - n)
    decreases m
  {
    if n < m {
      LeadingSplit(a, n, m - 1);
      DoubleInside(Leading(a, n), Pow2(m - 1 - n));
    }
  }

  /** A masked prefix spans the 2^(32-bits) consecutive addresses that start at its own. */
  lemma ContainsIsRange(p: Prefix, a: Addr)
    requires p.addr.V4? && a.V4? && Masked(p)
    ensures Contains(p, a) <==> Value(p.addr) <= Value(a) < Value(p.addr) + Pow2(32 - p.bits)
  {
    var l, k, s := Leading(p.addr, p.bits), Leading(a, p.bits), Pow2(32 - p.bits);
    LeadingDecides(p.addr, a, p.bits);
    LeadingSplit(p.addr, p.bits, 32);
    LeadingSplit(a, p.bits, 32);
    if k < l {
      Below(k, l, s);
    } else if l < k {
      Below(l, k, s);
    }
  }

  // ------------------------------------------------------- what is left over

  lemma CoversOne(p: Prefix, a: Addr)
    ensures Covers([p], a) <==> Contains(p, a)
  {
    assert Covers([p], a) <==> Contains([p][0], a);
  }

  lemma CoversConcat(ps: seq<Prefix>, qs: seq<Prefix>, a: Addr)
    ensures Covers(ps + qs, a) <==> Covers(ps, a) || Covers(qs, a)
  {
    if Covers(ps, a) {
      var i :| 0 <= i < |ps| && Contains(ps[i], a);
      assert Contains((ps + qs)[i], a);
    }
    if Covers(qs, a) {
      var i :| 0 <= i < |qs| && Contains(qs[i], a);
      assert Contains((ps + qs)[|ps| + i], a);
    }
  }

  /**
   When e can be carved out of p: p must be clear in every bit between the two
   masks. (The one bit that may be set is the last, when e is the lower half that
   is then cut away.) A masked prefix always is; so is any that needs no halving.
   */
  predicate Carvable(p: Prefix, e: Prefix)
    requires p.addr.V4?
  {
    Overlaps(e, p) && p.bits < e.bits ==>
      forall d :: p.bits <= d < e.bits && Bit(p.addr, d) ==> d == e.bits - 1 && !Bit(e.addr, d)
  }

  lemma HalvesCarvable(p: Prefix, e: Prefix)
    requires p.addr.V4? && Overlaps(e, p) && p.bits < e.bits && !Bit(p.addr, p.bits)
    ensures Carvable(p, e) ==> Carvable(LowerHalf(p), e) && Carvable(UpperHalf(p), e)
    ensures !Carvable(p, e) ==>
              if Bit(e.addr, p.bits) then Overlaps(e, UpperHalf(p)) && !Carvable(UpperHalf(p), e)
              else Overlaps(e, LowerHalf(p)) && !Carvable(LowerHalf(p), e)
  {
    forall i | 0 <= i < 32
      ensures Bit(UpperHalf(p).addr, i) <==> i == p.bits || Bit(p.addr, i)
    {
      UpperHalfBits(p, i);
    }
  }

  /** Halving a prefix whose next bit is set gives the upper half twice. */
  lemma HalvesCoincide(p: Prefix)
    requires p.addr.V4? && p.bits < 32 && Bit(p.addr, p.bits)
    ensures UpperHalf(p) == LowerHalf(p)
    ensures forall a :: Contains(LowerHalf(p), a) <==> Contains(p, a) && Bit(a, p.bits)
  {
    var i := p.bits / 8;
    assert OrBit(p.addr.bytes[i], 7 - p.bits % 8) == p.addr.bytes[i];
    assert UpperHalf(p).addr.bytes == p.addr.bytes;
  }

  lemma {:induction false} CarvedExactly(p: Prefix, e: Prefix, a: Addr)
    requires p.addr.V4? && Carvable(p, e)
    ensures Covers(SubtractOne(p, e), a) <==> Contains(p, a) && !Contains(e, a)
    decreases 128 - p.bits
  {
    if !Overlaps(e, p) {
      CoversOne(p, a);
      if e.addr.V4? && Contains(p, a) && Contains(e, a) {
        if e.bits <= p.bits { NestOrMiss(e, p, a); } else { NestOrMiss(p, e, a); }
      }
    } else if e.bits <= p.bits {
      if Contains(p, a) { NestOrMiss(e, p, a); }
    } else {
      var lo, hi := LowerHalf(p), UpperHalf(p);
      CoversConcat(SubtractOne(lo, e), SubtractOne(hi, e), a);
      if Bit(p.addr, p.bits) {
        HalvesCoincide(p);
        assert !Overlaps(e, lo) by { assert Bit(lo.addr, p.bits) != Bit(e.addr, p.bits); }
        CoversOne(lo, a);
        LowerHalfIs(p, e, a);
      } else {
        HalvesPartition(p);
        HalvesCarvable(p, e);
        CarvedExactly(lo, e, a);
        CarvedExactly(hi, e, a);
      }
    }
  }

  /** e is the lower half of p. */
  lemma LowerHalfIs(p: Prefix, e: Prefix, a: Addr)
    requires p.addr.V4? && Overlaps(e, p) && e.bits == p.bits + 1 && !Bit(e.addr, p.bits)
    ensures Contains(e, a) <==> Contains(p, a) && !Bit(a, p.bits)
  {
  }

  function Flip(a: Addr, i: nat): (r: Addr)
    requires a.V4? && i < 32
    ensures r.V4? && forall j :: 0 <= j < 32 ==> (Bit(r, j) <==> if j == i then !Bit(a, j) else Bit(a, j))
  {
    var b := a.bytes[i / 8];
    V4(a.bytes[i / 8 := b[i % 8 := !b[i % 8]]])
  }

  /** Otherwise there is an address that should be left and is not. */
  lemma {:induction false} CarvingLoses(p: Prefix, e: Prefix) returns (a: Addr)
    requires p.addr.V4? && !Carvable(p, e)
    ensures Contains(p, a) && !Contains(e, a) && !Covers(SubtractOne(p, e), a)
    decreases 128 - p.bits
  {
    var lo, hi := LowerHalf(p), UpperHalf(p);
    if Bit(p.addr, p.bits) {
      HalvesCoincide(p);
      a := if Bit(e.addr, p.bits) then Flip(p.addr, p.bits) else Flip(e.addr, e.bits - 1);
      assert Contains(p, a) && !Bit(a, p.bits);
      assert !Contains(e, a) by {
        assert Bit(a, p.bits) != Bit(e.addr, p.bits) || Bit(a, e.bits - 1) != Bit(e.addr, e.bits - 1);
      }
    } else {
      HalvesPartition(p);
      HalvesCarvable(p, e);
      a := CarvingLoses(if Bit(e.addr, p.bits) then hi else lo, e);
    }
    SubtractOneInside(lo, e, a);
    SubtractOneInside(hi, e, a);
    CoversConcat(SubtractOne(lo, e), SubtractOne(hi, e), a);
  }

  /** The halving is exact for precisely the prefixes e can be carved out of, masked or not. */
  lemma SubtractOneExactIff(p: Prefix, e: Prefix)
    requires p.addr.V4?
    ensures (forall a :: Covers(SubtractOne(p, e), a) <==> Contains(p, a) && !Contains(e, a)) <==> Carvable(p, e)
  {
    if Carvable(p, e) {
      forall a
        ensures Covers(SubtractOne(p, e), a) <==> Contains(p, a) && !Contains(e, a)
      {
        CarvedExactly(p, e, a);
      }
    } else {
      var a := CarvingLoses(p, e);
    }
  }

  lemma SubtractOneExact(p: Prefix, e: Prefix, a: Addr)
    requires Masked(p)
    ensures Covers(SubtractOne(p, e), a) <==> Contains(p, a) && !Contains(e, a)
  {
    if p.addr.V4? {
      CarvedExactly(p, e, a);
    }
  }

  lemma {:induction false} SubtractEachExact(ps: seq<Prefix>, e: Prefix, a: Addr)
    requires AllMasked(ps)
    ensures Covers(SubtractEach(ps, e), a) <==> Covers(ps, a) && !Contains(e, a)
  {
    if ps != [] {
      SubtractOneExact(ps[0], e, a);
      SubtractEachExact(ps[1..], e, a);
      CoversConcat(SubtractOne(ps[0], e), SubtractEach(ps[1..], e), a);
      CoversConcat([ps[0]], ps[1..], a);
      assert ps == [ps[0]] + ps[1..];
      CoversOne(ps[0], a);
    }
  }

  /** An address is left exactly when some prefix spans it and no exclusion does. */
  lemma {:induction false} SubtractExact(all: seq<Prefix>, exclude: seq<Prefix>, a: Addr)
    requires AllMasked(all)
    ensures Covers(SubtractAll(all, exclude), a) <==> Covers(all, a) && !Covers(exclude, a)
    decreases |exclude|
  {
    if exclude != [] {
      var next := SubtractEach(all, exclude[0]);
      SubtractEachExact(all, exclude[0], a);
      SubtractEachShape(all, exclude[0]);
      SubtractExact(next, exclude[1..], a);
      CoversConcat([exclude[0]], exclude[1..], a);
      assert exclude == [exclude[0]] + exclude[1..];
      CoversOne(exclude[0], a);
    }
  }

  // ------------------------------------------------------------ shape, count

  lemma {:induction false} SubtractOneShape(p: Prefix, e: Prefix)
    requires Masked(p)
    ensures AllMasked(SubtractOne(p, e)) && AllV4(SubtractOne(p, e)) && PairwiseDisjoint(SubtractOne(p, e))
    ensures p.addr.V4? && Overlaps(e, p) && p.bits < e.bits ==> |SubtractOne(p, e)| == e.bits - p.bits
    ensures !(p.addr.V4? && Overlaps(e, p) && p.bits < e.bits) ==> |SubtractOne(p, e)| <= 1
    decreases 128 - p.bits
  {
    if p.addr.V4? && Overlaps(e, p) && p.bits < e.bits {
      var lo, hi := LowerHalf(p), UpperHalf(p);
      HalvesPartition(p);
      SubtractOneShape(lo, e);
      SubtractOneShape(hi, e);
      OneHalfOverlaps(p, e);
      forall a
        ensures Covers(SubtractOne(lo, e), a) ==> Covers([lo], a)
        ensures Covers(SubtractOne(hi, e), a) ==> Covers([hi], a)
        ensures Covers([lo], a) ==> !Covers([hi], a)
      {
        SubtractOneInside(lo, e, a);
        SubtractOneInside(hi, e, a);
        CoversOne(lo, a);
        CoversOne(hi, a);
      }
      ConcatDisjoint(SubtractOne(lo, e), SubtractOne(hi, e), [lo], [hi]);
    }
  }

  lemma OneHalfOverlaps(p: Prefix, e: Prefix)
    requires p.addr.V4? && Overlaps(e, p) && p.bits < e.bits && !Bit(p.addr, p.bits)
    ensures Overlaps(e, LowerHalf(p)) <==> !Overlaps(e, UpperHalf(p))
  {
    forall i | 0 <= i <= p.bits
      ensures Bit(UpperHalf(p).addr, i) <==> i == p.bits || Bit(p.addr, i)
    {
      UpperHalfBits(p, i);
    }
    assert Agree(e.addr, LowerHalf(p).addr, p.bits) && Agree(e.addr, UpperHalf(p).addr, p.bits);
  }

  lemma ConcatDisjoint(ps: seq<Prefix>, qs: seq<Prefix>, outerPs: seq<Prefix>, outerQs: seq<Prefix>)
    requires PairwiseDisjoint(ps) && PairwiseDisjoint(qs)
    requires forall a :: Covers(ps, a) ==> Covers(outerPs, a)
    requires forall a :: Covers(qs, a) ==> Covers(outerQs, a)
    requires forall a :: Covers(outerPs, a) ==> !Covers(outerQs, a)
    ensures PairwiseDisjoint(ps + qs)
  {
    var all := ps + qs;
    forall i, j, a | 0 <= i < j < |all| && Contains(all[i], a)
      ensures !Contains(all[j], a)
    {
      if i < |ps| <= j && Contains(all[j], a) {
        assert Contains(ps[i], a) && Contains(qs[j - |ps|], a);
        assert Covers(ps, a) && Covers(qs, a);
      } else if j < |ps| {
        assert Disjoint(ps[i], ps[j]);
      } else if |ps| <= i {
        assert Disjoint(qs[i - |ps|], qs[j - |ps|]);
      }
    }
  }

  /** Everything left is masked IPv4 once an exclusion has been applied; disjoint stays disjoint. */
  lemma {:induction false} SubtractEachShape(ps: seq<Prefix>, e: Prefix)
    requires AllMasked(ps)
    ensures AllMasked(SubtractEach(ps, e)) && AllV4(SubtractEach(ps, e))
    ensures PairwiseDisjoint(ps) ==> PairwiseDisjoint(SubtractEach(ps, e))
  {
    if ps != [] {
      SubtractOneShape(ps[0], e);
      SubtractEachShape(ps[1..], e);
      if PairwiseDisjoint(ps) {
        RestDisjoint(ps);
        forall a
          ensures Covers(SubtractOne(ps[0], e), a) ==> Covers([ps[0]], a)
          ensures Covers(SubtractEach(ps[1..], e), a) ==> Covers(ps[1..], a)
        {
          SubtractOneExact(ps[0], e, a);
          CoversOne(ps[0], a);
          SubtractEachExact(ps[1..], e, a);
        }
        ConcatDisjoint(SubtractOne(ps[0], e), SubtractEach(ps[1..], e), [ps[0]], ps[1..]);
      }
    }
  }

  lemma RestDisjoint(ps: seq<Prefix>)
    requires ps != [] && PairwiseDisjoint(ps)
    ensures PairwiseDisjoint(ps[1..])
    ensures forall a :: Contains(ps[0], a) ==> !Covers(ps[1..], a)
  {
    forall i, j | 0 <= i < j < |ps[1..]|
      ensures Disjoint(ps[1..][i], ps[1..][j])
    {
      assert Disjoint(ps[i + 1], ps[j + 1]);
    }
    forall a | Contains(ps[0], a)
      ensures !Covers(ps[1..], a)
    {
      assert forall i :: 0 <= i < |ps[1..]| ==> Disjoint(ps[0], ps[1..][i]);
    }
  }

  /** At most one member of a disjoint list can hold the exclusion strictly inside it. */
  lemma {:induction false} SubtractEachBound(ps: seq<Prefix>, e: Prefix)
    requires AllMasked(ps) && PairwiseDisjoint(ps)
    ensures |SubtractEach(ps, e)| <= |ps| + 31
    ensures e.addr.V4? && !Covers(ps, e.addr) ==> |SubtractEach(ps, e)| <= |ps|
  {
    if ps != [] {
      SubtractOneShape(ps[0], e);
      RestDisjoint(ps);
      SubtractEachBound(ps[1..], e);
      if ps[0].addr.V4? && Overlaps(e, ps[0]) && ps[0].bits < e.bits {
        NestOrMiss(ps[0], e, e.addr);
        assert Contains(ps[0], e.addr);
        assert Covers(ps, e.addr);
      }
      CoversConcat([ps[0]], ps[1..], e.addr);
      assert ps == [ps[0]] + ps[1..];
    }
  }

  lemma {:induction false} SubtractAllShape(all: seq<Prefix>, exclude: seq<Prefix>)
    requires AllMasked(all)
    ensures AllMasked(SubtractAll(all, exclude))
    ensures AllV4(all) || exclude != [] ==> AllV4(SubtractAll(all, exclude))
    ensures PairwiseDisjoint(all) ==> PairwiseDisjoint(SubtractAll(all, exclude))
    ensures PairwiseDisjoint(all) ==> |SubtractAll(all, exclude)| <= |all| + 31 * |exclude|
    decreases |exclude|
  {
    if exclude != [] {
      SubtractEachShape(all, exclude[0]);
      SubtractAllShape(SubtractEach(all, exclude[0]), exclude[1..]);
      if PairwiseDisjoint(all) {
        SubtractEachBound(all, exclude[0]);
      }
    }
  }

  /** Masked or not, nothing outside the prefix is ever produced. */
  lemma {:induction false} SubtractOneInside(p: Prefix, e: Prefix, a: Addr)
    ensures Covers(SubtractOne(p, e), a) ==> Contains(p, a)
    decreases 128 - p.bits
  {
    if p.addr.V4? && Overlaps(e, p) && p.bits < e.bits {
      SubtractOneInside(LowerHalf(p), e, a);
      SubtractOneInside(UpperHalf(p), e, a);
      CoversConcat(SubtractOne(LowerHalf(p), e), SubtractOne(UpperHalf(p), e), a);
      forall i | 0 <= i < p.bits
        ensures Bit(UpperHalf(p).addr, i) == Bit(p.addr, i)
      {
        UpperHalfBits(p, i);
      }
    }
  }

  /** An IPv6 prefix is dropped by the first exclusion, whatever it is, and kept when there is none. */
  lemma {:induction false} IPv6DroppedIff(p: Prefix, exclude: seq<Prefix>)
    requires p.addr.V6?
    ensures SubtractAll([p], exclude) == if exclude == [] then [p] else []
  {
    if exclude != [] {
      assert SubtractOne(p, exclude[0]) == [];
      assert SubtractEach([p], exclude[0]) == SubtractOne(p, exclude[0]) + SubtractEach([], exclude[0]);
      NothingLeft(exclude[1..]);
    }
  }

  lemma {:induction false} NothingLeft(exclude: seq<Prefix>)
    ensures SubtractAll([], exclude) == []
  {
    if exclude != [] {
      NothingLeft(exclude[1..]);
    }
  }
}
