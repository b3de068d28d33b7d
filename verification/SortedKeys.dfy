/** The order sort.Strings puts keys in, and the sorted list of a set of keys. */
module SortedKeys {

  predicate Less(a: string, b: string) {
    b != "" && (a == "" || a[0] < b[0] || (a[0] == b[0] && Less(a[1..], b[1..])))
  }

  lemma {:induction false} LessIsTotal(a: string, b: string)
    ensures a == b || Less(a, b) || Less(b, a)
    ensures !(Less(a, b) && Less(b, a)) && !Less(a, a)
  {
    if a != "" {
      if b != "" {
        LessIsTotal(a[1..], b[1..]);
        assert a == [a[0]] + a[1..] && b == [b[0]] + b[1..];
      }
      LessIsTotal(a[1..], a[1..]);
    }
  }

  lemma {:induction false} LessIsTransitive(a: string, b: string, c: string)
    requires Less(a, b) && Less(b, c)
    ensures Less(a, c)
  {
    if a != "" && a[0] == b[0] == c[0] {
      LessIsTransitive(a[1..], b[1..], c[1..]);
    }
  }

  ghost predicate Ascending(ks: seq<string>) {
    forall i, j :: 0 <= i < j < |ks| ==> Less(ks[i], ks[j])
  }

  ghost predicate Lists(ks: seq<string>, keys: set<string>) {
    Ascending(ks) && forall k :: k in ks <==> k in keys
  }

  /** A set of keys has one ascending list. */
  lemma {:induction false} AscendingIsUnique(ks: seq<string>, ls: seq<string>)
    requires Ascending(ks) && Ascending(ls) && forall k :: k in ks <==> k in ls
    ensures ks == ls
  {
    assert forall i :: 0 <= i < |ks| ==> ks[i] in ls;
    assert forall i :: 0 <= i < |ls| ==> ls[i] in ks;
    if ks != [] && ls != [] {
      LessIsTotal(ks[0], ls[0]);
      assert ks[0] == ls[0];
      RestMembers(ks);
      RestMembers(ls);
      AscendingIsUnique(ks[1..], ls[1..]);
      assert ks == [ks[0]] + ks[1..] && ls == [ls[0]] + ls[1..];
    }
  }

  lemma RestMembers(ks: seq<string>)
    requires Ascending(ks) && ks != []
    ensures Ascending(ks[1..]) && forall k :: k in ks[1..] <==> k in ks && k != ks[0]
  {
    assert ks == [ks[0]] + ks[1..];
    forall i | 0 <= i < |ks[1..]|
      ensures ks[1..][i] != ks[0]
    {
      LessIsTotal(ks[0], ks[i + 1]);
    }
  }

  /** Collect and sort, as an insertion sort. */
  method Sorted(keys: set<string>) returns (ks: seq<string>)
    ensures Lists(ks, keys)
  {
    ks := [];
    var left := keys;
    while left != {}
      invariant left <= keys && Lists(ks, keys - left)
    {
      var k :| k in left;
      ghost var before := left;
      left := left - {k};
      assert keys - left == (keys - before) + {k};
      ks := Insert(ks, k);
    }
  }

  method Insert(ks: seq<string>, k: string) returns (r: seq<string>)
    requires Ascending(ks) && k !in ks
    ensures Ascending(r) && forall x :: x in r <==> x in ks || x == k
  {
    var i := 0;
    while i < |ks| && Less(ks[i], k)
      invariant 0 <= i <= |ks|
      invariant forall j :: 0 <= j < i ==> Less(ks[j], k)
    {
      i := i + 1;
    }
    r := ks[..i] + [k] + ks[i..];
    InsertedAscends(ks, k, i);
    assert ks == ks[..i] + ks[i..];
  }

  lemma InsertedAscends(ks: seq<string>, k: string, i: nat)
    requires Ascending(ks) && k !in ks && i <= |ks|
    requires forall j :: 0 <= j < i ==> Less(ks[j], k)
    requires i < |ks| ==> !Less(ks[i], k)
    ensures Ascending(ks[..i] + [k] + ks[i..])
  {
    forall j | i <= j < |ks|
      ensures Less(k, ks[j])
    {
      LessIsTotal(ks[i], k);
      if i < j {
        LessIsTransitive(k, ks[i], ks[j]);
      }
    }
  }
}
