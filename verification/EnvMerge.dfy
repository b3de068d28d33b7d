/**
 The child's environment (internal/env/env.go and its assembly in
 internal/cli/run.go): local variables, under the task's, under the overrides.
 */
module EnvMerge {
  import opened Optional
  import opened SortedKeys

  type Vars = map<string, string>

  const CONTAINER_PATH_VARS: seq<string> := [
    "SSL_CERT_FILE", "SSL_CERT_DIR", "AWS_CA_BUNDLE", "REQUESTS_CA_BUNDLE",
    "CURL_CA_BUNDLE", "NODE_EXTRA_CA_CERTS",
    "LD_LIBRARY_PATH", "LD_PRELOAD", "DYLD_LIBRARY_PATH", "DYLD_INSERT_LIBRARIES",
    "JAVA_HOME", "GOROOT", "PYTHONHOME", "PYTHONPATH"
  ]

  const DEFAULT_EXCLUDE: seq<string> := [
    "PATH", "HOME", "HOSTNAME", "USER", "LOGNAME", "SHELL", "TMPDIR", "PWD", "OLDPWD",
    "TERM", "LANG", "LC_*", "SHLVL", "_", "AWS_EXECUTION_ENV"
  ] + CONTAINER_PATH_VARS

  const RELATIVE_URI := "AWS_CONTAINER_CREDENTIALS_RELATIVE_URI"
  const FULL_URI := "AWS_CONTAINER_CREDENTIALS_FULL_URI"

  const CONFIG_FILE := "AWS_CONFIG_FILE"
  const CREDENTIALS_FILE := "AWS_SHARED_CREDENTIALS_FILE"
  const REGION := "AWS_REGION"
  const DEFAULT_REGION := "AWS_DEFAULT_REGION"

  const METADATA_VARS: seq<string> := ["ECS_CONTAINER_METADATA_URI_V4", "ECS_CONTAINER_METADATA_URI", "ECS_AGENT_URI"]

  const AWS_CONTAINER_VARS: seq<string> := [RELATIVE_URI] + METADATA_VARS

  const LOCAL_AWS_CREDENTIAL_VARS: seq<string> := [
    "AWS_PROFILE", "AWS_DEFAULT_PROFILE",
    "AWS_ACCESS_KEY_ID", "AWS_SECRET_ACCESS_KEY", "AWS_SESSION_TOKEN",
    "AWS_CREDENTIAL_EXPIRATION",
    "AWS_WEB_IDENTITY_TOKEN_FILE", "AWS_ROLE_ARN", "AWS_ROLE_SESSION_NAME",
    FULL_URI,
    "AWS_CONTAINER_AUTHORIZATION_TOKEN", "AWS_CONTAINER_AUTHORIZATION_TOKEN_FILE",
    "AWS_ACCESS_KEY", "AWS_SECRET_KEY", "AWS_SECURITY_TOKEN"
  ]

  // ---------------------------------------------------------------- patterns

  predicate Matches(name: string, p: string) {
    if p != "" && p[|p| - 1] == '*' then p[..|p| - 1] <= name else p == name
  }

  /** A pattern that ends in a star stands for every name that begins with what precedes it; any other for itself. */
  lemma PatternMeans(name: string, stem: string)
    ensures Matches(name, stem + "*") <==> exists rest :: name == stem + rest
    ensures (stem == "" || stem[|stem| - 1] != '*') ==> (Matches(name, stem) <==> name == stem)
  {
    var p := stem + "*";
    assert p[..|p| - 1] == stem;
    if stem <= name {
      assert name == stem + name[|stem|..];
    }
  }

  /** So a star alone excludes every name: the child then gets nothing of the task's. */
  lemma StarExcludesAll(local: seq<string>, task: Vars, opts: Options)
    requires "*" in opts.exclude
    ensures Merged(local, task, opts) == Merged(local, map[], opts)
  {
    forall k | k in task
      ensures IsExcluded(k, Exclusions(opts))
    {
      PatternMeans(k, "");
      assert "" + "*" == "*" && k == "" + k;
      var i :| 0 <= i < |opts.exclude| && opts.exclude[i] == "*";
      assert Exclusions(opts)[|DEFAULT_EXCLUDE| + i] == "*";
    }
  }

  predicate IsExcluded(name: string, patterns: seq<string>) {
    exists i :: 0 <= i < |patterns| && Matches(name, patterns[i])
  }

  method Excluded(name: string, patterns: seq<string>) returns (r: bool)
    ensures r == IsExcluded(name, patterns)
  {
    for i := 0 to |patterns|
      invariant forall j :: 0 <= j < i ==> !Matches(name, patterns[j])
    {
      if Matches(name, patterns[i]) {
        return true;
      }
    }
    return false;
  }

  lemma ExcludedByEither(name: string, a: seq<string>, b: seq<string>)
    ensures IsExcluded(name, a + b) <==> IsExcluded(name, a) || IsExcluded(name, b)
  {
    if IsExcluded(name, a) {
      var i :| 0 <= i < |a| && Matches(name, a[i]);
      assert Matches(name, (a + b)[i]);
    }
    if IsExcluded(name, b) {
      var i :| 0 <= i < |b| && Matches(name, b[i]);
      assert Matches(name, (a + b)[|a| + i]);
    }
  }

  lemma ExcludedByName(name: string, patterns: seq<string>)
    requires name in patterns && name != "" && name[|name| - 1] != '*'
    ensures IsExcluded(name, patterns)
  {
    var i :| 0 <= i < |patterns| && patterns[i] == name;
    assert Matches(name, patterns[i]);
  }

  // ------------------------------------------------------------------- lines

  /** strings.Cut at the first '='. */
  function Cut(kv: string): (r: Option<(string, string)>) {
    if kv == "" then None
    else if kv[0] == '=' then Some(("", kv[1..]))
    else
      var rest := Cut(kv[1..]);
      if rest.None? then None else Some(([kv[0]] + rest.value.0, rest.value.1))
  }

  lemma {:induction false} CutKey(kv: string)
    ensures Cut(kv).Some? ==> '=' !in Cut(kv).value.0 && kv == Cut(kv).value.0 + "=" + Cut(kv).value.1
  {
    if kv != "" && kv[0] != '=' {
      CutKey(kv[1..]);
      assert kv == [kv[0]] + kv[1..];
    }
  }

  lemma {:induction false} CutJoined(k: string, v: string)
    requires '=' !in k
    ensures Cut(k + "=" + v) == Some((k, v))
  {
    if k == "" {
      assert k + "=" + v == "=" + v;
    } else {
      CutJoined(k[1..], v);
      assert (k + "=" + v)[1..] == k[1..] + "=" + v;
      assert k == [k[0]] + k[1..];
    }
  }

  /** A KEY=VALUE list read into a map: a later line beats an earlier one. */
  function Parsed(lines: seq<string>, strip: seq<string>): (r: Vars) {
    if lines == [] then map[]
    else
      var before := Parsed(lines[..|lines| - 1], strip);
      var kv := Cut(lines[|lines| - 1]);
      if kv.None? || IsExcluded(kv.value.0, strip) then before else before[kv.value.0 := kv.value.1]
  }

  method ToEnvMap(lines: seq<string>) returns (m: Vars)
    ensures m == Parsed(lines, [])
  {
    m := map[];
    for i := 0 to |lines|
      invariant m == Parsed(lines[..i], [])
    {
      assert lines[..i + 1][..i] == lines[..i];
      var kv := Cut(lines[i]);
      if kv.Some? {
        m := m[kv.value.0 := kv.value.1];
      }
    }
    assert lines[..|lines|] == lines;
  }

  // ------------------------------------------------------------------- merge

  datatype Options = Options(override: Vars, exclude: seq<string>, dropAWSContainer: bool, stripLocal: seq<string>)

  function Exclusions(opts: Options): (r: seq<string>) {
    DEFAULT_EXCLUDE + opts.exclude + if opts.dropAWSContainer then AWS_CONTAINER_VARS else []
  }

  function Kept(task: Vars, exclude: seq<string>): (r: Vars) {
    map k | k in task && !IsExcluded(k, exclude) :: task[k]
  }

  function Merged(local: seq<string>, task: Vars, opts: Options): (r: Vars) {
    Parsed(local, opts.stripLocal) + Kept(task, Exclusions(opts)) + opts.override
  }

  function Join(ks: seq<string>, m: Vars): (r: seq<string>)
    requires forall k :: k in ks ==> k in m
  {
    seq(|ks|, i requires 0 <= i < |ks| => assert ks[i] in ks; ks[i] + "=" + m[ks[i]])
  }

  /** `lines` is m, one KEY=VALUE a key, ascending. */
  ghost predicate IsListing(lines: seq<string>, m: Vars) {
    exists ks :: Lists(ks, m.Keys) && lines == Join(ks, m)
  }

  method Merge(local: seq<string>, task: Vars, opts: Options) returns (res: seq<string>)
    ensures IsListing(res, Merged(local, task, opts))
  {
    var out: Vars := map[];
    for i := 0 to |local|
      invariant out == Parsed(local[..i], opts.stripLocal)
    {
      assert local[..i + 1][..i] == local[..i];
      var kv := Cut(local[i]);
      if kv.Some? {
        var stripped := Excluded(kv.value.0, opts.stripLocal);
        if !stripped {
          out := out[kv.value.0 := kv.value.1];
        }
      }
    }
    assert local[..|local|] == local;
    var exclude := DEFAULT_EXCLUDE + opts.exclude;
    if opts.dropAWSContainer {
      exclude := exclude + AWS_CONTAINER_VARS;
    }
    assert exclude == Exclusions(opts);
    out := LayerTask(out, task, exclude);
    out := LayerOverride(out, opts.override);
    res := Write(out);
  }

  /** What the loop over the task's variables has let through once it has seen `done`. */
  function KeptOf(task: Vars, exclude: seq<string>, done: set<string>): (r: Vars) {
    map k | k in task && k in done && !IsExcluded(k, exclude) :: task[k]
  }

  lemma KeptOneMore(task: Vars, exclude: seq<string>, done: set<string>, k: string)
    requires k in task
    ensures KeptOf(task, exclude, done + {k}) ==
            if IsExcluded(k, exclude) then KeptOf(task, exclude, done) else KeptOf(task, exclude, done)[k := task[k]]
  {
  }

  method LayerTask(base: Vars, task: Vars, exclude: seq<string>) returns (out: Vars)
    ensures out == base + Kept(task, exclude)
  {
    out := base;
    var left := task.Keys;
    while left != {}
      invariant left <= task.Keys
      invariant out == base + KeptOf(task, exclude, task.Keys - left)
    {
      var k :| k in left;
      KeptOneMore(task, exclude, task.Keys - left, k);
      assert task.Keys - (left - {k}) == task.Keys - left + {k};
      left := left - {k};
      var dropped := Excluded(k, exclude);
      if !dropped {
        out := out[k := task[k]];
      }
    }
    assert KeptOf(task, exclude, task.Keys) == Kept(task, exclude);
  }

  method LayerOverride(base: Vars, override: Vars) returns (out: Vars)
    ensures out == base + override
  {
    out := base;
    var left := override.Keys;
    ghost var done: set<string> := {};
    while left != {}
      invariant done + left == override.Keys && done !! left
      invariant out == base + map k | k in override && k in done :: override[k]
    {
      var k :| k in left;
      left := left - {k};
      done := done + {k};
      out := out[k := override[k]];
    }
    assert out == base + override;
  }

  method Write(m: Vars) returns (res: seq<string>)
    ensures IsListing(res, m)
  {
    var ks := Sorted(m.Keys);
    res := [];
    for i := 0 to |ks|
      invariant |res| == i
      invariant forall j :: 0 <= j < i ==> ks[j] in m && res[j] == ks[j] + "=" + m[ks[j]]
    {
      assert ks[i] in ks;
      res := res + [ks[i] + "=" + m[ks[i]]];
    }
    assert res == Join(ks, m);
  }

  /** Go's random map order never shows: a map has one listing. */
  lemma OneListing(a: seq<string>, b: seq<string>, m: Vars)
    requires IsListing(a, m) && IsListing(b, m)
    ensures a == b
  {
    var ks :| Lists(ks, m.Keys) && a == Join(ks, m);
    var ls :| Lists(ls, m.Keys) && b == Join(ls, m);
    AscendingIsUnique(ks, ls);
  }

  // -------------------------------------------------------------- precedence

  function Get(m: Vars, k: string): (r: Option<string>) {
    if k in m then Some(m[k]) else None
  }

  ghost predicate Assigns(line: string, k: string) {
    Cut(line).Some? && Cut(line).value.0 == k
  }

  /** Line i is the last that assigns k. */
  ghost predicate LastAt(lines: seq<string>, k: string, i: int) {
    0 <= i < |lines| && Assigns(lines[i], k) && forall j :: i < j < |lines| ==> !Assigns(lines[j], k)
  }

  /** v is what the last of the lines that assign k gives it; None when no line does. */
  ghost predicate LastAssigned(lines: seq<string>, k: string, v: Option<string>) {
    match v
    case None => forall i :: 0 <= i < |lines| ==> !Assigns(lines[i], k)
    case Some(x) => exists i :: LastAt(lines, k, i) && Cut(lines[i]).value.1 == x
  }

  /** One more line: it decides if it assigns k, and changes nothing otherwise. */
  lemma OneMoreLine(lines: seq<string>, k: string, before: Option<string>)
    requires lines != [] && LastAssigned(lines[..|lines| - 1], k, before)
    ensures Assigns(lines[|lines| - 1], k) ==> LastAssigned(lines, k, Some(Cut(lines[|lines| - 1]).value.1))
    ensures !Assigns(lines[|lines| - 1], k) ==> LastAssigned(lines, k, before)
  {
    var n := |lines| - 1;
    var front := lines[..n];
    if Assigns(lines[n], k) {
      assert LastAt(lines, k, n);
    } else if before.Some? {
      var i :| LastAt(front, k, i) && Cut(front[i]).value.1 == before.value;
      assert front[i] == lines[i] && forall j :: i < j < n ==> front[j] == lines[j];
      assert LastAt(lines, k, i);
    } else {
      assert forall j :: 0 <= j < n ==> front[j] == lines[j];
    }
  }

  lemma {:induction false} ParsedPointwise(lines: seq<string>, strip: seq<string>, k: string)
    ensures IsExcluded(k, strip) ==> k !in Parsed(lines, strip)
    ensures !IsExcluded(k, strip) ==> LastAssigned(lines, k, Get(Parsed(lines, strip), k))
  {
    if lines != [] {
      var front := lines[..|lines| - 1];
      ParsedPointwise(front, strip, k);
      if !IsExcluded(k, strip) {
        OneMoreLine(lines, k, Get(Parsed(front, strip), k));
      }
    }
  }

  /**
   Name by name: the override if there is one, else the task's value unless the
   name is excluded, else what the last local line says unless it is stripped.
   */
  lemma Precedence(local: seq<string>, task: Vars, opts: Options, k: string)
    ensures k in opts.override ==> Get(Merged(local, task, opts), k) == Some(opts.override[k])
    ensures k !in opts.override && k in task && !IsExcluded(k, Exclusions(opts))
            ==> Get(Merged(local, task, opts), k) == Some(task[k])
    ensures k !in opts.override && (k !in task || IsExcluded(k, Exclusions(opts)))
            ==> if IsExcluded(k, opts.stripLocal) then k !in Merged(local, task, opts)
                else LastAssigned(local, k, Get(Merged(local, task, opts), k))
  {
    ParsedPointwise(local, opts.stripLocal, k);
  }

  lemma MergedGet(local: seq<string>, task: Vars, opts: Options, k: string)
    ensures Get(Merged(local, task, opts), k) ==
            if k in opts.override then Some(opts.override[k])
            else if k in task && !IsExcluded(k, Exclusions(opts)) then Some(task[k])
            else Get(Parsed(local, opts.stripLocal), k)
  {
  }

  // -------------------------------------------------------------- round trip

  function Restricted(m: Vars, ks: seq<string>): (r: Vars) {
    map k | k in ks && k in m :: m[k]
  }

  lemma JoinFront(ks: seq<string>, m: Vars)
    requires ks != [] && forall k :: k in ks ==> k in m
    ensures var n := |ks| - 1;
            Join(ks, m)[..n] == Join(ks[..n], m) && Join(ks, m)[n] == ks[n] + "=" + m[ks[n]]
  {
  }

  lemma RestrictedFront(m: Vars, ks: seq<string>)
    requires ks != [] && forall k :: k in ks ==> k in m
    ensures var n := |ks| - 1;
            Restricted(m, ks) == Restricted(m, ks[..n])[ks[n] := m[ks[n]]]
  {
    var n := |ks| - 1;
    assert ks == ks[..n] + [ks[n]];
  }

  lemma {:induction false} ListingParses(ks: seq<string>, m: Vars)
    requires forall k :: k in ks ==> k in m && '=' !in k
    ensures Parsed(Join(ks, m), []) == Restricted(m, ks)
  {
    if ks != [] {
      var n := |ks| - 1;
      JoinFront(ks, m);
      RestrictedFront(m, ks);
      ListingParses(ks[..n], m);
      CutJoined(ks[n], m[ks[n]]);
    }
  }

  lemma {:induction false} ParsedKeys(lines: seq<string>, strip: seq<string>)
    ensures forall k :: k in Parsed(lines, strip) ==> '=' !in k
  {
    if lines != [] {
      ParsedKeys(lines[..|lines| - 1], strip);
      CutKey(lines[|lines| - 1]);
    }
  }

  /** toEnvMap gives the map back exactly when no key holds an '='. */
  lemma ListingRoundTrip(lines: seq<string>, m: Vars)
    requires IsListing(lines, m)
    ensures Parsed(lines, []) == m <==> forall k :: k in m ==> '=' !in k
  {
    var ks :| Lists(ks, m.Keys) && lines == Join(ks, m);
    ParsedKeys(lines, []);
    if forall k :: k in m ==> '=' !in k {
      ListingParses(ks, m);
    }
  }

  /** Local lines cannot bring such a key in; the task's map and the overrides can. */
  lemma MergeRoundTrip(local: seq<string>, task: Vars, opts: Options, lines: seq<string>)
    requires IsListing(lines, Merged(local, task, opts))
    ensures Parsed(lines, []) == Merged(local, task, opts)
            <==> (forall k :: k in task && !IsExcluded(k, Exclusions(opts)) ==> '=' !in k)
                 && (forall k :: k in opts.override ==> '=' !in k)
  {
    ParsedKeys(local, opts.stripLocal);
    ListingRoundTrip(lines, Merged(local, task, opts));
    var m := Merged(local, task, opts);
    assert forall k :: k in Kept(task, Exclusions(opts)) ==> k in m;
    assert forall k :: k in opts.override ==> k in m;
  }

  /** What then happens: the key is cut at its first '=', and the rest of it joins the value. */
  lemma KeyIsCutAtEquals(k: string, rest: string, v: string, lines: seq<string>)
    requires '=' !in k && IsListing(lines, map[k + "=" + rest := v])
    ensures Parsed(lines, []) == map[k := rest + "=" + v]
  {
    var m: Vars := map[k + "=" + rest := v];
    var ks :| Lists(ks, m.Keys) && lines == Join(ks, m);
    AscendingIsUnique(ks, [k + "=" + rest]);
    assert lines == [k + "=" + rest + "=" + v];
    assert k + "=" + rest + "=" + v == k + "=" + (rest + "=" + v);
    CutJoined(k, rest + "=" + v);
    assert lines[..0] == [];
  }

  // ----------------------------------------------- reading a listing by name

  /** What a reader takes for the name of a key: everything before its first '='. */
  function NameOf(k: string): (r: string) {
    if Cut(k).Some? then Cut(k).value.0 else k
  }

  function ReadValue(k: string, v: string): (r: string) {
    if Cut(k).Some? then Cut(k).value.1 + "=" + v else v
  }

  lemma {:induction false} CutNone(k: string)
    ensures Cut(k).None? <==> '=' !in k
  {
    if k != "" && k[0] != '=' {
      CutNone(k[1..]);
      assert k == [k[0]] + k[1..];
    }
  }

  lemma CutLine(k: string, v: string)
    ensures Cut(k + "=" + v) == Some((NameOf(k), ReadValue(k, v)))
  {
    CutNone(k);
    CutKey(k);
    if Cut(k).Some? {
      var name, rest := Cut(k).value.0, Cut(k).value.1;
      assert k + "=" + v == name + "=" + (rest + "=" + v);
      CutJoined(name, rest + "=" + v);
    } else {
      CutJoined(k, v);
    }
  }

  /** Of the keys a reader takes for this name, the last in order: its line is the one that counts. */
  ghost predicate LastNamed(m: Vars, name: string, key: string) {
    && key in m && NameOf(key) == name
    && forall other :: other in m && NameOf(other) == name ==> other == key || Less(other, key)
  }

  lemma LineAssigns(ks: seq<string>, m: Vars, i: nat, name: string)
    requires i < |ks| && forall k :: k in ks ==> k in m
    ensures Assigns(Join(ks, m)[i], name) <==> NameOf(ks[i]) == name
    ensures Cut(Join(ks, m)[i]) == Some((NameOf(ks[i]), ReadValue(ks[i], m[ks[i]])))
  {
    assert ks[i] in ks;
    CutLine(ks[i], m[ks[i]]);
  }

  lemma ListingGives(lines: seq<string>, m: Vars, name: string, key: string)
    requires IsListing(lines, m) && LastNamed(m, name, key)
    ensures Get(Parsed(lines, []), name) == Some(ReadValue(key, m[key]))
  {
    var ks :| Lists(ks, m.Keys) && lines == Join(ks, m);
    var i := Position(ks, m.Keys, key);
    forall j | i < j < |ks|
      ensures !Assigns(lines[j], name)
    {
      LineAssigns(ks, m, j, name);
      LessIsTotal(key, ks[j]);
    }
    LineAssigns(ks, m, i, name);
    LastLineCounts(lines, name, i);
  }

  lemma LastLineCounts(lines: seq<string>, name: string, i: nat)
    requires LastAt(lines, name, i)
    ensures Get(Parsed(lines, []), name) == Some(Cut(lines[i]).value.1)
  {
    ParsedPointwise(lines, [], name);
  }

  lemma SomeLineCounts(lines: seq<string>, name: string) returns (i: nat)
    requires name in Parsed(lines, [])
    ensures LastAt(lines, name, i)
  {
    ParsedPointwise(lines, [], name);
    i :| LastAt(lines, name, i);
  }

  /** The index of a key in a list of keys. */
  lemma Position(ks: seq<string>, keys: set<string>, key: string) returns (i: nat)
    requires Lists(ks, keys) && key in keys
    ensures i < |ks| && ks[i] == key
    ensures forall j :: 0 <= j < |ks| ==> ks[j] in keys && (j < i ==> Less(ks[j], key)) && (i < j ==> Less(key, ks[j]))
  {
    i :| i < |ks| && ks[i] == key;
    assert forall j :: 0 <= j < |ks| ==> ks[j] in ks;
  }

  /** A key of this name stands at or before the line that counts. */
  lemma NotBehind(ks: seq<string>, m: Vars, name: string, i: nat, other: string)
    requires Lists(ks, m.Keys) && LastAt(Join(ks, m), name, i) && other in m && NameOf(other) == name
    ensures other == ks[i] || Less(other, ks[i])
  {
    var j := Position(ks, m.Keys, other);
    LineAssigns(ks, m, j, name);
    assert j <= i;
  }

  lemma GivenBy(lines: seq<string>, m: Vars, name: string) returns (key: string)
    requires IsListing(lines, m) && name in Parsed(lines, [])
    ensures LastNamed(m, name, key)
  {
    var ks :| Lists(ks, m.Keys) && lines == Join(ks, m);
    var i := SomeLineCounts(Join(ks, m), name);
    key := ks[i];
    KeyThatCounts(ks, m, name, i);
  }

  lemma KeyThatCounts(ks: seq<string>, m: Vars, name: string, i: nat)
    requires Lists(ks, m.Keys) && LastAt(Join(ks, m), name, i)
    ensures LastNamed(m, name, ks[i])
  {
    assert ks[i] in ks;
    LineAssigns(ks, m, i, name);
    forall other | other in m && NameOf(other) == name
      ensures other == ks[i] || Less(other, ks[i])
    {
      NotBehind(ks, m, name, i, other);
    }
  }

  lemma NamedIsRead(lines: seq<string>, m: Vars, key: string)
    requires IsListing(lines, m) && key in m
    ensures NameOf(key) in Parsed(lines, [])
  {
    var ks :| Lists(ks, m.Keys) && lines == Join(ks, m);
    var i :| 0 <= i < |ks| && ks[i] == key;
    LineAssigns(ks, m, i, NameOf(key));
    ParsedPointwise(lines, [], NameOf(key));
  }

  lemma {:induction false} PrefixIsLess(a: string, b: string)
    requires b != ""
    ensures Less(a, a + b)
  {
    if a != "" {
      PrefixIsLess(a[1..], b);
      assert (a + b)[1..] == a[1..] + b;
    }
  }

  lemma NameComesFirst(key: string)
    ensures NameOf(key) == key || Less(NameOf(key), key)
  {
    CutKey(key);
    if Cut(key).Some? {
      var name, rest := Cut(key).value.0, Cut(key).value.1;
      assert name + "=" + rest == name + ("=" + rest);
      PrefixIsLess(name, "=" + rest);
    }
  }

  // --------------------------------------------------------------- the child

  /**
   One run. What URL parsing decides comes in as `fullPath` (the request path of
   the task's full URI, "" when it does not name the endpoint) and `swapped` (the
   rewritten metadata URLs); `emptyConfig` is None when the file could not be made.
   */
  datatype RunInputs = RunInputs(
    task: Vars, envOverride: Vars, envExclude: seq<string>, noNetwork: bool,
    addr: string, fullPath: string, swapped: Vars, region: string, emptyConfig: Option<string>)

  /** The task advertises the relative form, which the SDKs check first. */
  predicate NamesRelative(task: Vars) {
    RELATIVE_URI in task && task[RELATIVE_URI] != ""
  }

  function ContainerCredentialsPath(r: RunInputs): (path: string)
    ensures path == "" <==> !NamesRelative(r.task) && r.fullPath == ""
    ensures NamesRelative(r.task) ==>
              path == r.task[RELATIVE_URI] || (r.task[RELATIVE_URI][0] != '/' && path == "/" + r.task[RELATIVE_URI])
    ensures NamesRelative(r.task) ==> path[0] == '/'
    ensures !NamesRelative(r.task) ==> path == r.fullPath
  {
    if NamesRelative(r.task) then
      if r.task[RELATIVE_URI][0] == '/' then r.task[RELATIVE_URI] else "/" + r.task[RELATIVE_URI]
    else r.fullPath
  }

  function TaskRegion(r: RunInputs): (result: string) {
    if REGION in r.task && r.task[REGION] != "" then r.task[REGION] else r.region
  }

  function TaskRoleEnv(r: RunInputs, emptyFile: string): (result: Vars) {
    map[CONFIG_FILE := emptyFile, CREDENTIALS_FILE := emptyFile]
    + if TaskRegion(r) != "" then map[REGION := TaskRegion(r), DEFAULT_REGION := TaskRegion(r)] else map[]
  }

  function RewrittenEndpoints(r: RunInputs): (result: Vars) {
    var path := ContainerCredentialsPath(r);
    (if path != "" then map[FULL_URI := "http://" + r.addr + path] else map[])
    + map k | k in r.swapped && k in METADATA_VARS :: r.swapped[k]
  }

  function OverrideEnv(r: RunInputs): (result: Vars) {
    RewrittenEndpoints(r)
    + if ContainerCredentialsPath(r) != "" && r.emptyConfig.Some? then TaskRoleEnv(r, r.emptyConfig.value) else map[]
  }

  function ChildOptions(r: RunInputs): (result: Options) {
    var override := r.envOverride + OverrideEnv(r);
    if ContainerCredentialsPath(r) == "" then Options(override, r.envExclude, r.noNetwork, [])
    else Options(override, r.envExclude + [RELATIVE_URI], r.noNetwork, LOCAL_AWS_CREDENTIAL_VARS + [RELATIVE_URI])
  }

  function ChildVars(local: seq<string>, r: RunInputs): (result: Vars) {
    Merged(local, r.task, ChildOptions(r))
  }

  method ChildEnv(local: seq<string>, r: RunInputs) returns (res: seq<string>)
    ensures IsListing(res, ChildVars(local, r))
  {
    var override := LayerOverride(r.envOverride, OverrideEnv(r));
    var opts := Options(override, r.envExclude, r.noNetwork, []);
    if ContainerCredentialsPath(r) != "" {
      opts := opts.(exclude := r.envExclude + [RELATIVE_URI], stripLocal := LOCAL_AWS_CREDENTIAL_VARS + [RELATIVE_URI]);
    }
    res := Merge(local, r.task, opts);
  }

  lemma CredentialVarsStripped(r: RunInputs, k: string)
    requires ContainerCredentialsPath(r) != "" && (k in LOCAL_AWS_CREDENTIAL_VARS || k == RELATIVE_URI)
    ensures IsExcluded(k, ChildOptions(r).stripLocal)
  {
    assert forall i :: 0 <= i < |LOCAL_AWS_CREDENTIAL_VARS| ==>
      LOCAL_AWS_CREDENTIAL_VARS[i] != "" && LOCAL_AWS_CREDENTIAL_VARS[i][|LOCAL_AWS_CREDENTIAL_VARS[i]| - 1] != '*';
    ExcludedByName(k, LOCAL_AWS_CREDENTIAL_VARS + [RELATIVE_URI]);
  }

  /** With a task role, no credential variable of the child depends on the developer's environment. */
  lemma LocalIdentityHidden(local: seq<string>, other: seq<string>, r: RunInputs, k: string)
    requires ContainerCredentialsPath(r) != "" && (k in LOCAL_AWS_CREDENTIAL_VARS || k == RELATIVE_URI)
    ensures Get(ChildVars(local, r), k) == Get(ChildVars(other, r), k)
    ensures k in ChildVars(local, r) ==> k in ChildOptions(r).override || k in r.task
  {
    CredentialVarsStripped(r, k);
    ParsedPointwise(local, ChildOptions(r).stripLocal, k);
    ParsedPointwise(other, ChildOptions(r).stripLocal, k);
  }

  lemma OtherNames(r: RunInputs, file: string)
    ensures FULL_URI !in METADATA_VARS && RELATIVE_URI !in METADATA_VARS
    ensures FULL_URI !in TaskRoleEnv(r, file) && RELATIVE_URI !in TaskRoleEnv(r, file)
  {
    assert |FULL_URI| == 34 && |RELATIVE_URI| == 38;
    assert forall i :: 0 <= i < |METADATA_VARS| ==> |METADATA_VARS[i]| < 34;
    assert |CONFIG_FILE| < 34 && |CREDENTIALS_FILE| < 34;
    assert |REGION| < 34 && |DEFAULT_REGION| < 34;
  }

  lemma RunSetsFullNotRelative(r: RunInputs)
    requires ContainerCredentialsPath(r) != ""
    ensures Get(OverrideEnv(r), FULL_URI) == Some("http://" + r.addr + ContainerCredentialsPath(r))
    ensures RELATIVE_URI !in OverrideEnv(r)
  {
    assert |FULL_URI| != |RELATIVE_URI|;
    OtherNames(r, if r.emptyConfig.Some? then r.emptyConfig.value else "");
  }

  /**
   With a task role the child is pointed at the loopback endpoint whatever
   env.override says, and the relative form, which would win over it, is there
   exactly when env.override names it.
   */
  lemma TaskRoleApplies(local: seq<string>, r: RunInputs)
    requires ContainerCredentialsPath(r) != ""
    ensures Get(ChildVars(local, r), FULL_URI) == Some("http://" + r.addr + ContainerCredentialsPath(r))
    ensures Get(ChildVars(local, r), RELATIVE_URI) == Get(r.envOverride, RELATIVE_URI)
  {
    var opts := ChildOptions(r);
    RunSetsFullNotRelative(r);
    CredentialVarsStripped(r, RELATIVE_URI);
    ChildExclusions(r, RELATIVE_URI);
    Precedence(local, r.task, opts, FULL_URI);
    Precedence(local, r.task, opts, RELATIVE_URI);
  }

  lemma RoleNamesApart()
    ensures CONFIG_FILE != CREDENTIALS_FILE && REGION != DEFAULT_REGION
    ensures CONFIG_FILE != REGION && CONFIG_FILE != DEFAULT_REGION
    ensures CREDENTIALS_FILE != REGION && CREDENTIALS_FILE != DEFAULT_REGION
  {
    assert |CONFIG_FILE| == 15 && |CREDENTIALS_FILE| == 27 && |REGION| == 10 && |DEFAULT_REGION| == 18;
  }

  /** What the run sets for the role, and the region it works in. */
  lemma RoleSets(r: RunInputs, f: string, region: string)
    requires ContainerCredentialsPath(r) != "" && r.emptyConfig == Some(f)
    requires region == if REGION in r.task && r.task[REGION] != "" then r.task[REGION] else r.region
    ensures Get(OverrideEnv(r), CONFIG_FILE) == Some(f) && Get(OverrideEnv(r), CREDENTIALS_FILE) == Some(f)
    ensures region != "" ==> Get(OverrideEnv(r), REGION) == Get(OverrideEnv(r), DEFAULT_REGION) == Some(region)
  {
    RoleEnvSets(r, f, region);
    assert forall k :: k in TaskRoleEnv(r, f) ==> Get(OverrideEnv(r), k) == Get(TaskRoleEnv(r, f), k);
  }

  lemma RoleEnvSets(r: RunInputs, f: string, region: string)
    requires region == if REGION in r.task && r.task[REGION] != "" then r.task[REGION] else r.region
    ensures var m := TaskRoleEnv(r, f);
            && Get(m, CONFIG_FILE) == Some(f) && Get(m, CREDENTIALS_FILE) == Some(f)
            && (region != "" ==> Get(m, REGION) == Get(m, DEFAULT_REGION) == Some(region))
  {
    RoleNamesApart();
  }

  /**
   With a task role and an empty file to point at, the developer's shared config
   cannot answer for the child: both names of it are that file, whatever the local
   environment, the task and env.override say; and the region is the task's own, or
   the run's.
   */
  lemma SharedConfigHidden(local: seq<string>, r: RunInputs, f: string, region: string)
    requires ContainerCredentialsPath(r) != "" && r.emptyConfig == Some(f)
    requires region == if REGION in r.task && r.task[REGION] != "" then r.task[REGION] else r.region
    ensures Get(ChildVars(local, r), CONFIG_FILE) == Some(f)
    ensures Get(ChildVars(local, r), CREDENTIALS_FILE) == Some(f)
    ensures region != "" ==> Get(ChildVars(local, r), REGION) == Some(region)
    ensures region != "" ==> Get(ChildVars(local, r), DEFAULT_REGION) == Some(region)
  {
    RoleSets(r, f, region);
    RunWins(local, r, CONFIG_FILE);
    RunWins(local, r, CREDENTIALS_FILE);
    RunWins(local, r, REGION);
    RunWins(local, r, DEFAULT_REGION);
  }

  /** What the run itself sets reaches the child, over everything else. */
  lemma RunWins(local: seq<string>, r: RunInputs, k: string)
    ensures k in OverrideEnv(r) ==> Get(ChildVars(local, r), k) == Get(OverrideEnv(r), k)
  {
    MergedGet(local, r.task, ChildOptions(r), k);
  }

  /** Each metadata endpoint that could be rewritten points at the loopback one. */
  lemma EndpointsRewritten(local: seq<string>, r: RunInputs, k: string)
    requires k in METADATA_VARS && k in r.swapped
    ensures Get(ChildVars(local, r), k) == Some(r.swapped[k])
  {
    RunWins(local, r, k);
    MetadataApart(r, k);
  }

  lemma MetadataApart(r: RunInputs, k: string)
    requires k in METADATA_VARS && k in r.swapped
    ensures Get(OverrideEnv(r), k) == Some(r.swapped[k])
  {
    EndpointNames(k);
    RoleNames(r, if r.emptyConfig.Some? then r.emptyConfig.value else "", k);
  }

  lemma EndpointNames(k: string)
    requires k in METADATA_VARS
    ensures k != "" && k[0] == 'E'
  {
    assert METADATA_VARS[0][0] == 'E' && METADATA_VARS[1][0] == 'E' && METADATA_VARS[2][0] == 'E';
  }

  lemma RoleNames(r: RunInputs, file: string, k: string)
    ensures k in TaskRoleEnv(r, file) ==> k != "" && k[0] == 'A'
  {
    assert CONFIG_FILE[0] == 'A' && CREDENTIALS_FILE[0] == 'A' && REGION[0] == 'A' && DEFAULT_REGION[0] == 'A';
  }

  /** Without a task role the run sets nothing but those endpoints. */
  lemma NoRoleSetsNothing(r: RunInputs, k: string)
    requires ContainerCredentialsPath(r) == ""
    ensures k in OverrideEnv(r) <==> k in METADATA_VARS && k in r.swapped
  {
  }

  /** Without a task role the developer keeps the identity they had. */
  lemma LocalIdentityKept(local: seq<string>, r: RunInputs, k: string)
    requires ContainerCredentialsPath(r) == "" && k !in r.task && k !in r.envOverride && k !in METADATA_VARS
    ensures LastAssigned(local, k, Get(ChildVars(local, r), k))
  {
    Precedence(local, r.task, ChildOptions(r), k);
  }

  /** What `tetherd env` merges for the same inputs. */
  function PrintedMerge(r: RunInputs): (result: Vars) {
    Merged([], r.task, Options(r.envOverride, r.envExclude, true, []))
  }

  lemma SameMerge(local: seq<string>, r: RunInputs, k: string)
    requires k !in OverrideEnv(r)
    ensures k in PrintedMerge(r) ==> Get(ChildVars(local, r), k) == Get(PrintedMerge(r), k)
    ensures k in ChildVars(local, r) && k !in PrintedMerge(r) ==> FromElsewhere(local, r, k)
  {
    var opts := ChildOptions(r);
    PrintedExclusions(r, k);
    ChildExclusions(r, k);
    MergedGet([], r.task, Options(r.envOverride, r.envExclude, true, []), k);
    MergedGet(local, r.task, opts, k);
    assert Get(opts.override, k) == Get(r.envOverride, k);
  }

  /** Left from the local environment or, with the network on, a container endpoint variable of the task. */
  predicate FromElsewhere(local: seq<string>, r: RunInputs, k: string) {
    k in Parsed(local, ChildOptions(r).stripLocal) || (!r.noNetwork && k in AWS_CONTAINER_VARS && k in r.task)
  }

  lemma NoEqualsInConstants()
    ensures '=' !in FULL_URI
    ensures forall k :: k in AWS_CONTAINER_VARS ==> '=' !in k
  {
    NoEqualsInURIs();
    NoEqualsInMetadata();
    assert forall k :: k in AWS_CONTAINER_VARS ==> k == RELATIVE_URI || k in METADATA_VARS;
  }

  lemma NoEqualsInURIs()
    ensures '=' !in FULL_URI && '=' !in RELATIVE_URI
  {
  }

  lemma NoEqualsInMetadata()
    ensures forall k :: k in METADATA_VARS ==> '=' !in k
  {
    assert '=' !in METADATA_VARS[0];
    assert '=' !in METADATA_VARS[1];
    assert '=' !in METADATA_VARS[2];
  }

  lemma NoEqualsInRole(r: RunInputs, file: string)
    ensures forall k :: k in TaskRoleEnv(r, file) ==> '=' !in k
  {
    assert '=' !in CONFIG_FILE && '=' !in CREDENTIALS_FILE;
    assert '=' !in REGION && '=' !in DEFAULT_REGION;
  }

  lemma NoEqualsElsewhere(local: seq<string>, r: RunInputs, k: string)
    requires k in OverrideEnv(r) || FromElsewhere(local, r, k)
    ensures '=' !in k
  {
    ParsedKeys(local, ChildOptions(r).stripLocal);
    NoEqualsInConstants();
    NoEqualsInRole(r, if r.emptyConfig.Some? then r.emptyConfig.value else "");
    assert k in METADATA_VARS ==> k in AWS_CONTAINER_VARS;
  }

  /**
   `tetherd env` prints what `tetherd run` injects, for every name, a key with an
   '=' in it or not: what it prints is what whoever reads the child's environment
   finds there, unless the run itself sets the name; and a name found there beyond
   those is left from the local environment or (with the network on) a container
   endpoint variable of the task.
   */
  lemma PrintedIsInjected(local: seq<string>, r: RunInputs, printed: seq<string>, child: seq<string>, k: string)
    requires IsListing(printed, PrintedMerge(r)) && IsListing(child, ChildVars(local, r)) && k !in OverrideEnv(r)
    ensures k in Parsed(printed, []) ==> Get(Parsed(child, []), k) == Get(Parsed(printed, []), k)
    ensures k in Parsed(child, []) && k !in Parsed(printed, []) ==> FromElsewhere(local, r, k)
  {
    if k in Parsed(printed, []) {
      var key := GivenBy(printed, PrintedMerge(r), k);
      LastInChild(local, r, k, key);
      ListingGives(printed, PrintedMerge(r), k, key);
      ListingGives(child, ChildVars(local, r), k, key);
    } else if k in Parsed(child, []) {
      var key := GivenBy(child, ChildVars(local, r), k);
      if key in PrintedMerge(r) {
        NamedIsRead(printed, PrintedMerge(r), key);
      } else {
        OnlyInChild(local, r, key);
        if key in OverrideEnv(r) {
          assert false;
        }
        SameMerge(local, r, key);
      }
    }
  }

  /** Keys only the child has hold no '=', so they are their own names. */
  lemma OnlyInChild(local: seq<string>, r: RunInputs, key: string)
    requires key in ChildVars(local, r) && key !in PrintedMerge(r)
    ensures NameOf(key) == key
  {
    if key !in OverrideEnv(r) {
      SameMerge(local, r, key);
    }
    NoEqualsElsewhere(local, r, key);
    CutNone(key);
  }

  lemma LastInChild(local: seq<string>, r: RunInputs, k: string, key: string)
    requires LastNamed(PrintedMerge(r), k, key) && k !in OverrideEnv(r)
    ensures LastNamed(ChildVars(local, r), k, key) && ChildVars(local, r)[key] == PrintedMerge(r)[key]
  {
    if key in OverrideEnv(r) {
      NoEqualsElsewhere(local, r, key);
      CutNone(key);
    }
    SameMerge(local, r, key);
    forall other | other in ChildVars(local, r) && NameOf(other) == k
      ensures other == key || Less(other, key)
    {
      if other !in PrintedMerge(r) {
        OnlyInChild(local, r, other);
        NameComesFirst(key);
      }
    }
  }

  predicate AlwaysExcluded(r: RunInputs, k: string) {
    IsExcluded(k, DEFAULT_EXCLUDE) || IsExcluded(k, r.envExclude)
  }

  lemma PrintedExclusions(r: RunInputs, k: string)
    ensures IsExcluded(k, Exclusions(Options(r.envOverride, r.envExclude, true, [])))
            <==> AlwaysExcluded(r, k) || k in AWS_CONTAINER_VARS
  {
    ExcludedByEither(k, DEFAULT_EXCLUDE + r.envExclude, AWS_CONTAINER_VARS);
    ExcludedByEither(k, DEFAULT_EXCLUDE, r.envExclude);
    ContainerVarsAreNames(k);
  }

  lemma ChildExclusions(r: RunInputs, k: string)
    ensures IsExcluded(k, Exclusions(ChildOptions(r)))
            <==> AlwaysExcluded(r, k) || (r.noNetwork && k in AWS_CONTAINER_VARS)
                 || (ContainerCredentialsPath(r) != "" && k == RELATIVE_URI)
  {
    var exclude := ChildOptions(r).exclude;
    ExcludedByEither(k, DEFAULT_EXCLUDE + exclude, if r.noNetwork then AWS_CONTAINER_VARS else []);
    ExcludedByEither(k, DEFAULT_EXCLUDE, exclude);
    ExcludedByEither(k, r.envExclude, [RELATIVE_URI]);
    ContainerVarsAreNames(k);
  }

  lemma ContainerVarsAreNames(k: string)
    ensures IsExcluded(k, AWS_CONTAINER_VARS) <==> k in AWS_CONTAINER_VARS
    ensures IsExcluded(k, [RELATIVE_URI]) <==> k == RELATIVE_URI
  {
    assert forall i :: 0 <= i < |AWS_CONTAINER_VARS| ==>
      AWS_CONTAINER_VARS[i] != "" && AWS_CONTAINER_VARS[i][|AWS_CONTAINER_VARS[i]| - 1] != '*';
    assert [RELATIVE_URI][0] == AWS_CONTAINER_VARS[0];
    if IsExcluded(k, AWS_CONTAINER_VARS) {
      var i :| 0 <= i < |AWS_CONTAINER_VARS| && Matches(k, AWS_CONTAINER_VARS[i]);
      assert k == AWS_CONTAINER_VARS[i];
    }
    if k in AWS_CONTAINER_VARS {
      ExcludedByName(k, AWS_CONTAINER_VARS);
    }
  }
}
