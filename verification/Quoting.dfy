/**
 Printing the task's environment (internal/cli/env.go): values quoted so that a
 reader gets them back, and secret values that leave no trace.
 */
module Quoting {
  import opened Optional
  import opened SortedKeys

  // ------------------------------------------------------------------- shell

  /** strings.ReplaceAll(v, `'`, `'"'"'`) */
  function CloseAndReopen(v: string): (r: string) {
    if v == "" then "" else (if v[0] == '\'' then "'\"'\"'" else [v[0]]) + CloseAndReopen(v[1..])
  }

  function ShellQuote(v: string): (r: string) {
    "'" + CloseAndReopen(v) + "'"
  }

  datatype Quotes = Bare | Single | Double

  /** One word and what stands behind it. */
  datatype Word = Word(value: string, rest: string)

  /**
   How a POSIX shell reads one word (sections 2.2.1 to 2.2.3 of the Shell
   Command Language in IEEE Std 1003.1). It ends at a blank, a newline or the end
   of the text outside quotes. None is a word that does not end, or one in which
   something would be expanded or operated on.
   */
  function ReadWord(s: string, q: Quotes): (r: Option<Word>)
    ensures r.Some? ==> |r.value.rest| <= |s|
  {
    if s == "" then if q == Bare then Some(Word("", "")) else None
    else
      match q
      case Bare =>
        if s[0] in " \t\n" then Some(Word("", s))
        else if s[0] == '\'' then ReadWord(s[1..], Single)
        else if s[0] == '"' then ReadWord(s[1..], Double)
        else if s[0] == '\\' then
          if |s| == 1 then None
          else if s[1] == '\n' then ReadWord(s[2..], Bare)
          else Then(s[1], ReadWord(s[2..], Bare))
        else if s[0] in "|&;<>()$`*?[#~" then None
        else Then(s[0], ReadWord(s[1..], Bare))
      case Single =>
        if s[0] == '\'' then ReadWord(s[1..], Bare) else Then(s[0], ReadWord(s[1..], Single))
      case Double =>
        if s[0] == '"' then ReadWord(s[1..], Bare)
        else if s[0] == '$' || s[0] == '`' then None
        else if s[0] == '\\' && |s| > 1 && s[1] in "$`\"\\" then Then(s[1], ReadWord(s[2..], Double))
        else if s[0] == '\\' && |s| > 1 && s[1] == '\n' then ReadWord(s[2..], Double)
        else Then(s[0], ReadWord(s[1..], Double))
  }

  function Then(c: char, w: Option<Word>): (r: Option<Word>)
    ensures r.Some? <==> w.Some?
    ensures r.Some? ==> r.value == Word([c] + w.value.value, w.value.rest)
  {
    if w.None? then None else Some(w.value.(value := [c] + w.value.value))
  }

  predicate EndsWord(s: string) {
    s == "" || s[0] in " \t\n"
  }

  lemma {:induction false} ReopenedReadsBack(v: string, rest: string)
    requires EndsWord(rest)
    ensures ReadWord(CloseAndReopen(v) + ("'" + rest), Single) == Some(Word(v, rest))
  {
    var end := "'" + rest;
    if v == "" {
      assert CloseAndReopen(v) + end == end;
      assert end[1..] == rest;
    } else {
      ReopenedReadsBack(v[1..], rest);
      FirstReopened(v, end);
      var tail := CloseAndReopen(v[1..]) + end;
      assert v == [v[0]] + v[1..];
      if v[0] == '\'' {
        QuoteReopens(tail);
      } else {
        assert ([v[0]] + tail)[1..] == tail;
      }
    }
  }

  lemma FirstReopened(v: string, end: string)
    requires v != ""
    ensures CloseAndReopen(v) + end ==
            (if v[0] == '\'' then "'\"'\"'" else [v[0]]) + (CloseAndReopen(v[1..]) + end)
  {
  }

  /** Inside single quotes, '"'"' is one quote character, and the quotes are open again. */
  lemma QuoteReopens(tail: string)
    ensures ReadWord("'\"'\"'" + tail, Single) == Then('\'', ReadWord(tail, Single))
  {
    var s := "'\"'\"'" + tail;
    assert s[1..] == "\"'\"'" + tail;
    assert s[1..][1..] == "'\"'" + tail;
    assert s[1..][1..][1..] == "\"'" + tail;
    assert s[1..][1..][1..][1..] == "'" + tail;
    assert s[1..][1..][1..][1..][1..] == tail;
    assert ReadWord(s[1..][1..][1..][1..], Bare) == ReadWord(tail, Single);
    assert ReadWord(s[1..][1..][1..], Double) == ReadWord(tail, Single);
    assert ReadWord(s[1..][1..], Double) == Then('\'', ReadWord(tail, Single));
  }

  /** Any value at all reads back as itself, as one word, with nothing expanded. */
  lemma ShellQuoteReadsBack(v: string, rest: string)
    requires EndsWord(rest)
    ensures ReadWord(ShellQuote(v) + rest, Bare) == Some(Word(v, rest))
  {
    ReopenedReadsBack(v, rest);
    var s := ShellQuote(v) + rest;
    assert s[0] == '\'' && s[1..] == CloseAndReopen(v) + ("'" + rest);
  }

  // ------------------------------------------------------------------ dotenv

  /** unicode.IsSpace */
  predicate IsSpace(c: char) {
    c in "\t\n\r \U{0B}\U{0C}\U{85}\U{A0}\U{1680}\U{2028}\U{2029}\U{202F}\U{205F}\U{3000}"
    || '\U{2000}' <= c <= '\U{200A}'
  }

  function TrimLeft(v: string): (r: string) {
    if v != "" && IsSpace(v[0]) then TrimLeft(v[1..]) else v
  }

  function TrimRight(v: string): (r: string) {
    if v != "" && IsSpace(v[|v| - 1]) then TrimRight(v[..|v| - 1]) else v
  }

  function TrimSpace(v: string): (r: string) {
    TrimRight(TrimLeft(v))
  }

  predicate NeedsDotenvQuotes(v: string) {
    v == "" || '\n' in v || '\r' in v || '"' in v || '#' in v || TrimSpace(v) != v
  }

  function EscapeRune(c: char): (r: string) {
    match c
    case '\\' => "\\\\"
    case '"' => "\\\""
    case '\n' => "\\n"
    case '\r' => "\\r"
    case _ => [c]
  }

  function Escape(v: string): (r: string) {
    if v == "" then "" else EscapeRune(v[0]) + Escape(v[1..])
  }

  function Dotenv(v: string): (r: string) {
    if NeedsDotenvQuotes(v) then "\"" + Escape(v) + "\"" else v
  }

  method DotenvQuote(v: string) returns (b: string)
    ensures b == Dotenv(v)
  {
    if !NeedsDotenvQuotes(v) {
      return v;
    }
    b := "\"";
    for i := 0 to |v|
      invariant b + Escape(v[i..]) == "\"" + Escape(v)
    {
      assert v[i..][1..] == v[i + 1..];
      assert b + (EscapeRune(v[i]) + Escape(v[i + 1..])) == (b + EscapeRune(v[i])) + Escape(v[i + 1..]);
      match v[i] {
        case '\\' => b := b + "\\\\";
        case '"' => b := b + "\\\"";
        case '\n' => b := b + "\\n";
        case '\r' => b := b + "\\r";
        case _ => b := b + [v[i]];
      }
    }
    assert Escape(v[|v|..]) == "";
    b := b + "\"";
  }

  /** What dotenv readers do with a quoted value, from behind the opening quote. */
  function Unescape(s: string): (r: Option<string>) {
    if s == "" then None
    else if s[0] == '"' then if |s| == 1 then Some("") else None
    else if s[0] == '\\' then
      if |s| == 1 then None
      else if s[1] == 'n' then Prepend('\n', Unescape(s[2..]))
      else if s[1] == 'r' then Prepend('\r', Unescape(s[2..]))
      else Prepend(s[1], Unescape(s[2..]))
    else Prepend(s[0], Unescape(s[1..]))
  }

  function Prepend(c: char, rest: Option<string>): (r: Option<string>) {
    if rest.None? then None else Some([c] + rest.value)
  }

  function BeforeComment(s: string): (r: string) {
    if s == "" || s[0] == '#' then "" else [s[0]] + BeforeComment(s[1..])
  }

  /** The text between single quotes, from behind the opening one; None if it is not just that. */
  function Literal(s: string): (r: Option<string>) {
    if s != "" && s[|s| - 1] == '\'' && '\'' !in s[..|s| - 1] then Some(s[..|s| - 1]) else None
  }

  /** Readers differ in whether single quotes quote. */
  datatype Dialect = DoubleQuotesOnly | BothQuotes

  /** A value without quotes ends at a comment and loses the space around it. */
  function DotenvRead(s: string, d: Dialect): (r: Option<string>) {
    if s != "" && s[0] == '"' then Unescape(s[1..])
    else if s != "" && s[0] == '\'' && d == BothQuotes then Literal(s[1..])
    else Some(TrimSpace(BeforeComment(s)))
  }

  lemma {:induction false} UnescapeEscaped(v: string)
    ensures Unescape(Escape(v) + "\"") == Some(v)
  {
    if v == "" {
      assert Escape(v) + "\"" == "\"";
    } else {
      UnescapeEscaped(v[1..]);
      var rest := Escape(v[1..]) + "\"";
      var s := EscapeRune(v[0]) + rest;
      assert Escape(v) + "\"" == s;
      assert v == [v[0]] + v[1..];
      if |EscapeRune(v[0])| == 2 {
        assert s[2..] == rest;
      } else {
        assert s[1..] == rest;
      }
    }
  }

  lemma {:induction false} NoCommentToCut(v: string)
    requires '#' !in v
    ensures BeforeComment(v) == v
  {
    if v != "" {
      NoCommentToCut(v[1..]);
      assert v == [v[0]] + v[1..];
    }
  }

  lemma {:induction false} EscapedIsOneLine(v: string)
    ensures '\n' !in Escape(v) && '\r' !in Escape(v)
  {
    if v != "" {
      EscapedIsOneLine(v[1..]);
    }
  }

  /** The value is printed bare and opens with a single quote. */
  predicate LooksQuoted(v: string) {
    !NeedsDotenvQuotes(v) && v[0] == '\''
  }

  lemma QuotedReadsBack(v: string, d: Dialect)
    requires NeedsDotenvQuotes(v)
    ensures DotenvRead(Dotenv(v), d) == Some(v) && '\n' !in Dotenv(v) && '\r' !in Dotenv(v)
  {
    var s := Dotenv(v);
    UnescapeEscaped(v);
    EscapedIsOneLine(v);
    assert s[0] == '"' && s[1..] == Escape(v) + "\"";
  }

  lemma BareReadsBack(v: string, d: Dialect)
    requires !NeedsDotenvQuotes(v)
    ensures DotenvRead(v, d) == Some(v) <==> d == DoubleQuotesOnly || v[0] != '\''
  {
    NoCommentToCut(v);
    assert v[0] in v;
    if v[0] == '\'' && Literal(v[1..]).Some? {
      assert |Literal(v[1..]).value| < |v|;
    }
  }

  /**
   Every value is printed on one line. It reads back as itself with a reader that
   takes a bare value as it stands; with one to which single quotes are quotes too,
   if and only if it is not a bare value that opens with one.
   */
  lemma DotenvReadsBack(v: string, d: Dialect)
    ensures DotenvRead(Dotenv(v), d) == Some(v) <==> d == DoubleQuotesOnly || !LooksQuoted(v)
    ensures '\n' !in Dotenv(v) && '\r' !in Dotenv(v)
  {
    if NeedsDotenvQuotes(v) {
      QuotedReadsBack(v, d);
    } else {
      BareReadsBack(v, d);
    }
  }

  // ------------------------------------------------------------- the listing

  const MASKED_VALUE := "***"

  datatype Format = DotenvFormat | ShellFormat | JsonFormat | OtherFormat

  /** JSON is written by the standard encoder from the masked map. */
  datatype Listing = Text(text: string) | Json(vars: map<string, string>) | UnknownFormat

  function Shown(vars: map<string, string>, secrets: set<string>, showAll: bool, k: string): (r: string)
    requires k in vars
  {
    if !showAll && k in secrets then MASKED_VALUE else vars[k]
  }

  function Line(shell: bool, k: string, v: string): (r: string) {
    if shell then "export " + k + "=" + ShellQuote(v) + "\n" else k + "=" + Dotenv(v) + "\n"
  }

  /** One line per key, in the order given. */
  function Lines(shell: bool, ks: seq<string>, vars: map<string, string>): (r: string)
    requires forall k :: k in ks ==> k in vars
  {
    if ks == [] then "" else Line(shell, ks[0], vars[ks[0]]) + Lines(shell, ks[1..], vars)
  }

  function MaskedVars(vars: map<string, string>, secrets: set<string>, showAll: bool): (r: map<string, string>) {
    map k | k in vars :: Shown(vars, secrets, showAll, k)
  }

  /** r is a map printed in a format, its keys in ascending order. */
  ghost predicate Prints(r: Listing, vars: map<string, string>, format: Format) {
    match format
    case DotenvFormat => exists ks :: Lists(ks, vars.Keys) && r == Text(Lines(false, ks, vars))
    case ShellFormat => exists ks :: Lists(ks, vars.Keys) && r == Text(Lines(true, ks, vars))
    case JsonFormat => r == Json(vars)
    case OtherFormat => r == UnknownFormat
  }

  method FormatEnv(vars: map<string, string>, secrets: set<string>, format: Format, showAll: bool) returns (r: Listing)
    ensures Prints(r, MaskedVars(vars, secrets, showAll), format)
  {
    ghost var masked := MaskedVars(vars, secrets, showAll);
    assert masked.Keys == vars.Keys;
    var ks := Sorted(vars.Keys);
    match format {
      case DotenvFormat =>
        var text := WriteLines(false, ks, vars, secrets, showAll);
        return Text(text);
      case ShellFormat =>
        var text := WriteLines(true, ks, vars, secrets, showAll);
        return Text(text);
      case JsonFormat =>
        var out: map<string, string> := map[];
        for i := 0 to |ks|
          invariant forall k :: k in out <==> k in ks[..i]
          invariant forall k :: k in out ==> k in vars && out[k] == Shown(vars, secrets, showAll, k)
        {
          assert ks[..i + 1] == ks[..i] + [ks[i]];
          assert ks[i] in ks;
          out := out[ks[i] := Shown(vars, secrets, showAll, ks[i])];
        }
        assert ks[..|ks|] == ks;
        assert out == MaskedVars(vars, secrets, showAll);
        return Json(out);
      case OtherFormat =>
        return UnknownFormat;
    }
  }

  method WriteLine(shell: bool, k: string, v: string) returns (l: string)
    ensures l == Line(shell, k, v)
  {
    if shell {
      l := "export " + k + "=" + ShellQuote(v) + "\n";
    } else {
      var quoted := DotenvQuote(v);
      l := k + "=" + quoted + "\n";
    }
  }

  lemma Joined(a: string, b: string, c: string)
    ensures a + (b + c) == a + b + c
  {
  }

  lemma {:induction false} LinesAppend(shell: bool, ks: seq<string>, k: string, vars: map<string, string>)
    requires k in vars && forall x :: x in ks ==> x in vars
    ensures Lines(shell, ks + [k], vars) == Lines(shell, ks, vars) + Line(shell, k, vars[k])
  {
    var last := Line(shell, k, vars[k]);
    if ks == [] {
      assert ks + [k] == [k] && [k][1..] == [];
    } else {
      assert (ks + [k])[0] == ks[0] && (ks + [k])[1..] == ks[1..] + [k];
      LinesAppend(shell, ks[1..], k, vars);
      Joined(Line(shell, ks[0], vars[ks[0]]), Lines(shell, ks[1..], vars), last);
    }
  }

  lemma LinesStep(shell: bool, ks: seq<string>, i: nat, vars: map<string, string>)
    requires i < |ks| && forall k :: k in ks ==> k in vars
    ensures Lines(shell, ks[..i + 1], vars) == Lines(shell, ks[..i], vars) + Line(shell, ks[i], vars[ks[i]])
  {
    assert ks[..i + 1] == ks[..i] + [ks[i]];
    LinesAppend(shell, ks[..i], ks[i], vars);
  }

  method WriteLines(shell: bool, ks: seq<string>, vars: map<string, string>, secrets: set<string>, showAll: bool)
    returns (w: string)
    requires forall k :: k in ks ==> k in vars
    ensures w == Lines(shell, ks, MaskedVars(vars, secrets, showAll))
  {
    w := "";
    ghost var shown := MaskedVars(vars, secrets, showAll);
    for i := 0 to |ks|
      invariant w == Lines(shell, ks[..i], shown)
    {
      assert ks[i] in ks;
      var v := Shown(vars, secrets, showAll, ks[i]);
      LinesStep(shell, ks, i, shown);
      var l := WriteLine(shell, ks[i], v);
      assert l == Line(shell, ks[i], shown[ks[i]]);
      w := w + l;
    }
    assert ks[..|ks|] == ks;
  }

  /** A map has one printed form in each format: the order Go reads a map in never shows. */
  lemma OnePrintedForm(r: Listing, q: Listing, vars: map<string, string>, format: Format)
    requires Prints(r, vars, format) && Prints(q, vars, format)
    ensures r == q
  {
    if format == DotenvFormat || format == ShellFormat {
      var shell := format == ShellFormat;
      var ks :| Lists(ks, vars.Keys) && r == Text(Lines(shell, ks, vars));
      var ls :| Lists(ls, vars.Keys) && q == Text(Lines(shell, ls, vars));
      AscendingIsUnique(ks, ls);
    }
  }

  /**
   Without --reveal, two environments that differ only in secret values print the
   same, in every format: nothing of a secret's value is in the output.
   */
  method SecretsLeaveNoTrace(
    a: map<string, string>, b: map<string, string>, secrets: set<string>, format: Format)
    returns (r: Listing, q: Listing)
    requires a.Keys == b.Keys && forall k :: k in a && k !in secrets ==> a[k] == b[k]
    ensures r == q && Prints(r, MaskedVars(a, secrets, false), format)
  {
    r := FormatEnv(a, secrets, format, false);
    q := FormatEnv(b, secrets, format, false);
    assert MaskedVars(a, secrets, false) == MaskedVars(b, secrets, false);
    OnePrintedForm(r, q, MaskedVars(a, secrets, false), format);
  }

  // ----------------------------------------------------- reading a file back

  function IndexOf(s: string, c: char): (i: nat)
    ensures i <= |s| && c !in s[..i] && (i < |s| ==> s[i] == c)
  {
    if s == "" || s[0] == c then 0 else 1 + IndexOf(s[1..], c)
  }

  lemma {:induction false} IndexBehind(a: string, c: char, b: string)
    requires c !in a
    ensures IndexOf(a + [c] + b, c) == |a|
  {
    if a == "" {
      assert a + [c] + b == [c] + b;
    } else {
      assert (a + [c] + b)[1..] == a[1..] + [c] + b;
      IndexBehind(a[1..], c, b);
    }
  }

  datatype Assignment = Assignment(key: string, value: Option<string>)

  /** A name a dotenv reader takes as one: it is not a comment, and there is no space in it. */
  predicate DotenvKey(k: string) {
    k != "" && k[0] != '#' && '=' !in k && forall i :: 0 <= i < |k| ==> !IsSpace(k[i])
  }

  /** One line: the first '=' ends the key, which loses the space around it. Other lines are passed over. */
  function ReadLine(line: string, d: Dialect): (r: seq<Assignment>)
    ensures forall x :: x in r ==> DotenvKey(x.key)
  {
    var eq := IndexOf(line, '=');
    var key := TrimSpace(line[..eq]);
    if eq < |line| && DotenvKey(key) then [Assignment(key, DotenvRead(line[eq + 1..], d))] else []
  }

  /** A dotenv file, line by line. */
  function ReadDotenv(text: string, d: Dialect): (r: seq<Assignment>)
    ensures forall x :: x in r ==> DotenvKey(x.key)
    decreases |text|
  {
    if text == "" then []
    else
      var n := IndexOf(text, '\n');
      ReadLine(text[..n], d) + if n < |text| then ReadDotenv(text[n + 1..], d) else []
  }

  function Assignments(ks: seq<string>, vars: map<string, string>): (r: seq<Assignment>)
    requires forall k :: k in ks ==> k in vars
  {
    if ks == [] then [] else [Assignment(ks[0], Some(vars[ks[0]]))] + Assignments(ks[1..], vars)
  }

  /** The same keys with what a reader makes of the values. */
  function AsRead(ks: seq<string>, vars: map<string, string>, d: Dialect): (r: seq<Assignment>)
    requires forall k :: k in ks ==> k in vars
  {
    if ks == [] then [] else [Assignment(ks[0], DotenvRead(Dotenv(vars[ks[0]]), d))] + AsRead(ks[1..], vars, d)
  }

  lemma NothingToTrim(k: string)
    requires DotenvKey(k)
    ensures TrimSpace(k) == k && '\n' !in k
  {
    assert !IsSpace(k[0]) && !IsSpace(k[|k| - 1]);
    assert forall i :: 0 <= i < |k| ==> k[i] != '\n';
  }

  lemma LineReads(k: string, shown: string, rest: string, d: Dialect)
    requires DotenvKey(k) && '\n' !in shown
    ensures ReadDotenv(k + "=" + shown + "\n" + rest, d) == [Assignment(k, DotenvRead(shown, d))] + ReadDotenv(rest, d)
  {
    var line := k + ['='] + shown;
    var text := line + ['\n'] + rest;
    NothingToTrim(k);
    IndexBehind(line, '\n', rest);
    IndexBehind(k, '=', shown);
    assert text[..|line|] == line && text[|line| + 1..] == rest;
    assert line[..|k|] == k && line[|k| + 1..] == shown;
    assert k + "=" + shown + "\n" + rest == text;
  }

  lemma {:induction false} DotenvLinesRead(ks: seq<string>, vars: map<string, string>, d: Dialect)
    requires forall k :: k in ks ==> k in vars && DotenvKey(k)
    ensures ReadDotenv(Lines(false, ks, vars), d) == AsRead(ks, vars, d)
  {
    if ks != [] {
      DotenvLinesRead(ks[1..], vars, d);
      DotenvReadsBack(vars[ks[0]], d);
      LineReads(ks[0], Dotenv(vars[ks[0]]), Lines(false, ks[1..], vars), d);
    }
  }

  lemma {:induction false} KeysAssigned(ks: seq<string>, vars: map<string, string>)
    requires forall k :: k in ks ==> k in vars
    ensures forall k :: k in ks ==> Assignment(k, Some(vars[k])) in Assignments(ks, vars)
  {
    if ks != [] {
      KeysAssigned(ks[1..], vars);
      assert forall k :: k in ks ==> k == ks[0] || k in ks[1..];
    }
  }

  lemma {:induction false} ReadAsAssignedIff(ks: seq<string>, vars: map<string, string>, d: Dialect)
    requires forall k :: k in ks ==> k in vars
    ensures AsRead(ks, vars, d) == Assignments(ks, vars) <==>
            forall k :: k in ks ==> DotenvRead(Dotenv(vars[k]), d) == Some(vars[k])
  {
    if ks != [] {
      ReadAsAssignedIff(ks[1..], vars, d);
      assert forall k :: k in ks <==> k == ks[0] || k in ks[1..];
      var a, b := AsRead(ks, vars, d), Assignments(ks, vars);
      assert a[1..] == AsRead(ks[1..], vars, d) && b[1..] == Assignments(ks[1..], vars);
      assert a == [a[0]] + a[1..] && b == [b[0]] + b[1..];
    }
  }

  /** The listing can be taken apart again: its keys are names to a reader, and its values are what they look like. */
  ghost predicate Readable(ks: seq<string>, vars: map<string, string>, d: Dialect)
    requires forall k :: k in ks ==> k in vars
  {
    forall k :: k in ks ==> DotenvKey(k) && (d == DoubleQuotesOnly || !LooksQuoted(vars[k]))
  }

  /**
   The whole file reads back as exactly the variables printed - no value can forge
   or split a line - if and only if the keys are names to a dotenv reader and, where
   single quotes quote, no bare value opens with one.
   */
  lemma {:induction false} DotenvFileReadsBack(ks: seq<string>, vars: map<string, string>, d: Dialect)
    requires forall k :: k in ks ==> k in vars
    ensures ReadDotenv(Lines(false, ks, vars), d) == Assignments(ks, vars) <==> Readable(ks, vars, d)
  {
    if forall k :: k in ks ==> DotenvKey(k) {
      DotenvLinesRead(ks, vars, d);
      ReadAsAssignedIff(ks, vars, d);
      forall k | k in ks
        ensures DotenvRead(Dotenv(vars[k]), d) == Some(vars[k]) <==> d == DoubleQuotesOnly || !LooksQuoted(vars[k])
      {
        DotenvReadsBack(vars[k], d);
      }
    } else {
      KeysAssigned(ks, vars);
    }
  }

  const EXPORT := "export "

  /** A name the shell can export (Name, in section 3 of the Base Definitions in IEEE Std 1003.1). */
  predicate IsName(k: string) {
    k != "" && !('0' <= k[0] <= '9')
    && forall i :: 0 <= i < |k| ==>
         'a' <= k[i] <= 'z' || 'A' <= k[i] <= 'Z' || '0' <= k[i] <= '9' || k[i] == '_'
  }

  /** What a shell that reads the listing exports; a value may span lines. None where it would do anything else. */
  function ReadExports(text: string): (r: Option<seq<Assignment>>)
    decreases |text|
  {
    if text == "" then Some([])
    else if !(EXPORT <= text) then None
    else
      var body := text[|EXPORT|..];
      var eq := IndexOf(body, '=');
      if eq == |body| || !IsName(body[..eq]) then None
      else
        var word := ReadWord(body[eq + 1..], Bare);
        if word.None? || word.value.rest == "" || word.value.rest[0] != '\n' then None
        else
          var more := ReadExports(word.value.rest[1..]);
          if more.None? then None else Some([Assignment(body[..eq], Some(word.value.value))] + more.value)
  }

  lemma ExportReads(k: string, v: string, rest: string)
    requires IsName(k) && ReadExports(rest).Some?
    ensures ReadExports(Line(true, k, v) + rest) == Some([Assignment(k, Some(v))] + ReadExports(rest).value)
  {
    var word := ShellQuote(v) + ("\n" + rest);
    var body := k + ['='] + word;
    ExportShape(k, v, rest);
    NamesHaveNoEquals(k);
    IndexBehind(k, '=', word);
    assert body[..|k|] == k && body[|k| + 1..] == word;
    ShellQuoteReadsBack(v, "\n" + rest);
    assert ("\n" + rest)[1..] == rest;
  }

  lemma ExportShape(k: string, v: string, rest: string)
    ensures var text := Line(true, k, v) + rest;
            EXPORT <= text && text[|EXPORT|..] == k + ['='] + (ShellQuote(v) + ("\n" + rest))
  {
    var body := k + ['='] + (ShellQuote(v) + ("\n" + rest));
    assert Line(true, k, v) + rest == EXPORT + body;
    assert (EXPORT + body)[|EXPORT|..] == body;
  }

  lemma NamesHaveNoEquals(k: string)
    requires IsName(k)
    ensures '=' !in k
  {
  }

  lemma {:induction false} ExportsNamesOnly(text: string)
    ensures ReadExports(text).Some? ==> forall x :: x in ReadExports(text).value ==> IsName(x.key)
    decreases |text|
  {
    if ReadExports(text).Some? && text != "" {
      var body := text[|EXPORT|..];
      var word := ReadWord(body[IndexOf(body, '=') + 1..], Bare);
      ExportsNamesOnly(word.value.rest[1..]);
    }
  }

  /** The same for `export` lines, whose values may span lines: exact if and only if every key is a name. */
  lemma {:induction false} ExportsReadBack(ks: seq<string>, vars: map<string, string>)
    requires forall k :: k in ks ==> k in vars
    ensures ReadExports(Lines(true, ks, vars)) == Some(Assignments(ks, vars)) <==> forall k :: k in ks ==> IsName(k)
  {
    if forall k :: k in ks ==> IsName(k) {
      ExportLinesRead(ks, vars);
    } else {
      ExportsNamesOnly(Lines(true, ks, vars));
      KeysAssigned(ks, vars);
    }
  }

  lemma {:induction false} ExportLinesRead(ks: seq<string>, vars: map<string, string>)
    requires forall k :: k in ks ==> k in vars && IsName(k)
    ensures ReadExports(Lines(true, ks, vars)) == Some(Assignments(ks, vars))
  {
    if ks != [] {
      ExportLinesRead(ks[1..], vars);
      ExportReads(ks[0], vars[ks[0]], Lines(true, ks[1..], vars));
    }
  }

  // ------------------------------------------------------- what a reader gets

  lemma {:induction false} AssignmentsMembers(ks: seq<string>, vars: map<string, string>, x: Assignment)
    requires forall k :: k in ks ==> k in vars
    ensures x in Assignments(ks, vars) <==> x.key in ks && x.value == Some(vars[x.key])
  {
    if ks != [] {
      AssignmentsMembers(ks[1..], vars, x);
      assert x.key in ks <==> x.key == ks[0] || x.key in ks[1..];
    }
  }

  /** What is to be read for a variable: its value, or the mask if it is a secret and not to be revealed. */
  ghost predicate ReadsAs(x: Assignment, vars: map<string, string>, secrets: set<string>, showAll: bool) {
    && x.key in vars
    && (showAll || x.key !in secrets ==> x.value == Some(vars[x.key]))
    && (!showAll && x.key in secrets ==> x.value == Some("***"))
  }

  lemma MaskedMembers(
    ks: seq<string>, vars: map<string, string>, secrets: set<string>, showAll: bool, x: Assignment)
    requires Lists(ks, vars.Keys)
    ensures x in Assignments(ks, MaskedVars(vars, secrets, showAll)) <==> ReadsAs(x, vars, secrets, showAll)
  {
    AssignmentsMembers(ks, MaskedVars(vars, secrets, showAll), x);
  }

  /** Reading the dotenv output gives every variable its value, the secrets the mask, and nothing else. */
  method DotenvOutputReads(vars: map<string, string>, secrets: set<string>, showAll: bool) returns (r: Listing)
    requires forall k :: k in vars ==> DotenvKey(k)
    ensures r.Text? && forall x :: x in ReadDotenv(r.text, DoubleQuotesOnly) <==> ReadsAs(x, vars, secrets, showAll)
  {
    r := FormatEnv(vars, secrets, DotenvFormat, showAll);
    ghost var masked := MaskedVars(vars, secrets, showAll);
    assert masked.Keys == vars.Keys;
    ghost var ks :| Lists(ks, masked.Keys) && r == Text(Lines(false, ks, masked));
    DotenvFileReadsBack(ks, masked, DoubleQuotesOnly);
    forall x
      ensures x in ReadDotenv(r.text, DoubleQuotesOnly) <==> ReadsAs(x, vars, secrets, showAll)
    {
      MaskedMembers(ks, vars, secrets, showAll, x);
    }
  }

  /** The same for a shell that reads the shell output. */
  method ShellOutputReads(vars: map<string, string>, secrets: set<string>, showAll: bool) returns (r: Listing)
    requires forall k :: k in vars ==> IsName(k)
    ensures r.Text? && ReadExports(r.text).Some?
    ensures forall x :: x in ReadExports(r.text).value <==> ReadsAs(x, vars, secrets, showAll)
  {
    r := FormatEnv(vars, secrets, ShellFormat, showAll);
    ghost var masked := MaskedVars(vars, secrets, showAll);
    assert masked.Keys == vars.Keys;
    ghost var ks :| Lists(ks, masked.Keys) && r == Text(Lines(true, ks, masked));
    ExportsReadBack(ks, masked);
    forall x
      ensures x in ReadExports(r.text).value <==> ReadsAs(x, vars, secrets, showAll)
    {
      MaskedMembers(ks, vars, secrets, showAll, x);
    }
  }

  /** And for the JSON output: the same keys, each with what is to be read. */
  method JsonOutputReads(vars: map<string, string>, secrets: set<string>, showAll: bool) returns (r: Listing)
    ensures r.Json? && r.vars.Keys == vars.Keys
    ensures forall k :: k in vars ==> ReadsAs(Assignment(k, Some(r.vars[k])), vars, secrets, showAll)
  {
    r := FormatEnv(vars, secrets, JsonFormat, showAll);
  }
}
