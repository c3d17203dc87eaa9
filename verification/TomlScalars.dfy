/** What the reference reader makes of the scalars, lists and keys that the serializer writes. */
module TomlScalars {
  import opened Wrappers
  import opened TomlLexer
  import opened TomlSyntax
  import opened TomlWriter

  // ---------- strings ----------

  /** The escapes a string needs, character by character. */
  function Encode(s: string): string {
    if s == "" then "" else EncodeChar(s[0]) + Encode(s[1..])
  }

  function EncodeChar(c: char): string {
    if c == '\\' then "\\\\" else if c == '\n' then "\\n" else if c == '"' then "\\\"" else [c]
  }

  /** The stages of the source's replacement chain behind the first one. */
  function Tail(s: string): string {
    Replace(Replace(Replace(Unix(s), '\r', "\n"), '\n', "\\n"), '"', "\\\"")
  }

  lemma {:induction false} ReplaceAppend(a: string, b: string, c: char, with: string)
    ensures Replace(a + b, c, with) == Replace(a, c, with) + Replace(b, c, with)
  {
    if a == "" {
      assert a + b == b;
    } else {
      assert (a + b)[1..] == a[1..] + b;
      ReplaceAppend(a[1..], b, c, with);
      Assoc(if a[0] == c then with else [a[0]], Replace(a[1..], c, with), Replace(b, c, with));
    }
  }

  lemma {:induction false} ReplaceOne(a: char, c: char, with: string)
    ensures Replace([a], c, with) == if a == c then with else [a]
  {
    assert Replace([a][1..], c, with) == "";
  }

  /** One character that is not part of a CRLF goes through the chain on its own. */
  lemma {:induction false} TailCons(c: char, s: string)
    requires !(c == '\r' && s != "" && s[0] == '\n')
    ensures Tail([c] + s) ==
      (if c == '\r' || c == '\n' then "\\n" else if c == '"' then "\\\"" else [c]) + Tail(s)
  {
    assert ([c] + s)[1..] == s;
    assert Unix([c] + s) == [c] + Unix(s);
    NewlinesCons(c, Unix(s));
  }

  lemma {:induction false} NewlinesCons(c: char, u: string)
    ensures Replace(Replace(Replace([c] + u, '\r', "\n"), '\n', "\\n"), '"', "\\\"") ==
      (if c == '\r' || c == '\n' then "\\n" else if c == '"' then "\\\"" else [c]) +
      Replace(Replace(Replace(u, '\r', "\n"), '\n', "\\n"), '"', "\\\"")
  {
    var r := Replace(u, '\r', "\n");
    var n := Replace(r, '\n', "\\n");
    var c1 := if c == '\r' then '\n' else c;
    var c2 := if c1 == '\n' then "\\n" else [c1];
    ReplaceAppend([c], u, '\r', "\n");
    ReplaceOne(c, '\r', "\n");
    ReplaceAppend([c1], r, '\n', "\\n");
    ReplaceOne(c1, '\n', "\\n");
    ReplaceAppend(c2, n, '"', "\\\"");
    if c1 == '\n' {
      assert c2 == ['\\'] + ['n'];
      ReplaceAppend(['\\'], ['n'], '"', "\\\"");
      ReplaceOne('\\', '"', "\\\"");
      ReplaceOne('n', '"', "\\\"");
    } else {
      ReplaceOne(c1, '"', "\\\"");
    }
  }

  /** CRLF and CR become one newline first: the chain writes the folded string, escaped character by character. */
  lemma {:induction false} EscapedIsEncoded(s: string)
    ensures Escaped(s) == Encode(Folded(s))
    decreases |s|
  {
    if s != "" {
      if |s| >= 2 && s[0] == '\r' && s[1] == '\n' {
        EscapedIsEncoded(s[2..]);
        CrlfBoth(s);
      } else {
        EscapedIsEncoded(s[1..]);
        FoldedCons(s);
        EscapedCons(s);
      }
    }
  }

  lemma {:induction false} EscapedCons(s: string)
    requires s != "" && !(|s| >= 2 && s[0] == '\r' && s[1] == '\n')
    ensures Escaped(s) == EncodeChar(if s[0] == '\r' then '\n' else s[0]) + Escaped(s[1..])
  {
    var b := Replace(s[1..], '\\', "\\\\");
    ReplaceHead(s[1..], '\\', "\\\\");
    if s[0] == '\\' {
      DoubledHead(s, b);
      TailBackslash(b);
    } else {
      assert Replace(s, '\\', "\\\\") == [s[0]] + b;
      TailCons(s[0], b);
    }
  }

  lemma {:induction false} DoubledHead(s: string, b: string)
    requires s != "" && s[0] == '\\' && b == Replace(s[1..], '\\', "\\\\")
    ensures Replace(s, '\\', "\\\\") == ['\\'] + (['\\'] + b)
  {
  }

  lemma {:induction false} TailBackslash(b: string)
    ensures Tail(['\\'] + (['\\'] + b)) == "\\\\" + Tail(b)
  {
    TailCons('\\', ['\\'] + b);
    TailCons('\\', b);
    Assoc("\\", "\\", Tail(b));
  }

  lemma {:induction false} ReplaceHead(s: string, c: char, with: string)
    requires c == '\\' && with == "\\\\"
    ensures var b := Replace(s, c, with); (b == "" <==> s == "") && (s != "" ==> (b[0] == '\n' <==> s[0] == '\n'))
  {
  }

  lemma {:induction false} FoldedCons(s: string)
    requires s != "" && !(|s| >= 2 && s[0] == '\r' && s[1] == '\n')
    ensures Folded(s) == [if s[0] == '\r' then '\n' else s[0]] + Folded(s[1..])
    ensures Encode(Folded(s)) == EncodeChar(if s[0] == '\r' then '\n' else s[0]) + Encode(Folded(s[1..]))
  {
    assert Unix(s) == [s[0]] + Unix(s[1..]);
    ReplaceAppend([s[0]], Unix(s[1..]), '\r', "\n");
    ReplaceOne(s[0], '\r', "\n");
    assert Folded(s)[1..] == Folded(s[1..]);
  }

  lemma {:induction false} CrlfBoth(s: string)
    requires |s| >= 2 && s[0] == '\r' && s[1] == '\n'
    ensures Escaped(s) == "\\n" + Escaped(s[2..])
    ensures Encode(Folded(s)) == "\\n" + Encode(Folded(s[2..]))
  {
    var b := Replace(s[2..], '\\', "\\\\");
    assert s == ['\r'] + (['\n'] + s[2..]);
    ReplaceAppend(['\r'], ['\n'] + s[2..], '\\', "\\\\");
    ReplaceAppend(['\n'], s[2..], '\\', "\\\\");
    ReplaceOne('\r', '\\', "\\\\");
    ReplaceOne('\n', '\\', "\\\\");
    var e := Replace(s, '\\', "\\\\");
    assert e == ['\r'] + (['\n'] + b);
    assert e[2..] == b && Unix(e) == ['\n'] + Unix(b);
    NewlinesCons('\n', Unix(b));
    assert Unix(s) == ['\n'] + Unix(s[2..]);
    ReplaceAppend(['\n'], Unix(s[2..]), '\r', "\n");
    ReplaceOne('\n', '\r', "\n");
    assert Folded(s) == ['\n'] + Folded(s[2..]);
    assert Folded(s)[1..] == Folded(s[2..]);
  }

  /** An escaped string reads back as itself when it is clean, and does not read at all otherwise. */
  lemma {:induction false} EncodeReads(s: string, rest: string)
    ensures OneLineString(Encode(s) + "\"" + rest, Basic) == if Clean(s) then Some((s, rest)) else None
    decreases |s|
  {
    var t := Encode(s) + "\"" + rest;
    if s == "" {
      assert t == "\"" + rest && t[1..] == rest;
    } else {
      var u := Encode(s[1..]) + "\"" + rest;
      EncodeReads(s[1..], rest);
      CleanCons(s);
      assert t == EncodeChar(s[0]) + u by {
        Assoc(EncodeChar(s[0]), Encode(s[1..]), "\"");
        Assoc(EncodeChar(s[0]), Encode(s[1..]) + "\"", rest);
      }
      assert [s[0]] + s[1..] == s;
      if |EncodeChar(s[0])| == 2 {
        assert t[0] == '\\' && t[1..][0] == EncodeChar(s[0])[1] && t[1..][1..] == u;
      } else {
        assert t[0] == s[0] && t[1..] == u;
      }
    }
  }

  lemma {:induction false} CleanCons(s: string)
    requires s != ""
    ensures Clean(s) <==> ((s[0] == '\n' || s[0] == '\t' || !IsControl(s[0])) && Clean(s[1..]))
  {
    if Clean(s[1..]) && (s[0] == '\n' || s[0] == '\t' || !IsControl(s[0])) {
      forall i | 0 <= i < |s| ensures s[i] == '\n' || s[i] == '\t' || !IsControl(s[i]) {
        assert i > 0 ==> s[i] == s[1..][i - 1];
      }
    }
  }

  /**
    A formatted string is read as the string with its CRLF and CR folded to LF, if that holds no other control
    character than LF and TAB; if it does, the text is not TOML.
   */
  lemma {:induction false} FormatTextReads(s: string, rest: string)
    ensures var t := FormatText(s) + rest;
      t[0] == '"' && OneLineString(t[1..], Basic) == if Clean(Folded(s)) then Some((Folded(s), rest)) else None
  {
    EscapedIsEncoded(s);
    EncodeReads(Folded(s), rest);
    var t := FormatText(s) + rest;
    assert t == "\"" + (Encode(Folded(s)) + "\"" + rest);
    assert t[1..] == Encode(Folded(s)) + "\"" + rest;
  }

  lemma {:induction false} CleanFolds(s: string)
    requires Clean(s)
    ensures Folded(s) == s
  {
    if s != "" {
      CleanCons(s);
      CleanFolds(s[1..]);
      FoldedCons(s);
    }
  }

  /** The exact condition for a string value to survive: no CR and no control character but LF and TAB. */
  lemma {:induction false} FormatTextRoundTrip(s: string)
    ensures ParseValue(FormatText(s)) == Some((Str(s), "")) <==> Clean(s)
  {
    var t := FormatText(s);
    FormatTextReads(s, "");
    assert t + "" == t;
    TextNotMulti(s, "");
    if Clean(s) {
      CleanFolds(s);
    } else if Clean(Folded(s)) {
      assert Folded(s) != s;
    }
  }

  lemma {:induction false} TextNotMulti(s: string, rest: string)
    requires rest == "" || rest[0] != '"'
    ensures !OpensMulti(FormatText(s) + rest, Basic) && !OpensMulti(FormatText(s) + rest, Literal)
  {
    var t := FormatText(s) + rest;
    EscapedIsEncoded(s);
    var f := Folded(s);
    if f == "" {
      assert t == "\"" + "" + "\"" + rest && (|t| >= 3 ==> t[2] == rest[0]);
    } else {
      assert Encode(f) == EncodeChar(f[0]) + Encode(f[1..]);
      assert t[1] == EncodeChar(f[0])[0] != '"';
    }
  }

  // ---------- integers ----------

  lemma {:induction false} NatTextReads(n: nat)
    ensures NatText(n) != "" && Digits(NatText(n)) == Some(n)
    ensures n > 0 ==> NatText(n)[0] != '0'
    ensures n == 0 ==> |NatText(n)| == 1
    ensures forall i :: 0 <= i < |NatText(n)| ==> IsDigit(NatText(n)[i])
    decreases n
  {
    var t := NatText(n);
    var digit := ['0' + (n % 10) as char];
    assert Digits("") == Some(0);
    if n < 10 {
      assert t[..|t| - 1] == "";
    } else {
      NatTextReads(n / 10);
      assert t[..|t| - 1] == NatText(n / 10) && t[|t| - 1] == digit[0];
    }
  }

  lemma {:induction false} NaturalReads(n: nat)
    ensures var t := NatText(n); Natural(t) == Some(n) && t != "" && IsDigit(t[0])
    ensures forall i :: 0 <= i < |NatText(n)| ==> IsTokenChar(NatText(n)[i])
  {
    NatTextReads(n);
  }

  lemma {:induction false} IntTextReads(n: int)
    ensures IntText(n) != "" && Token(IntText(n)) == Some(Int(n))
    ensures forall i :: 0 <= i < |IntText(n)| ==> IsTokenChar(IntText(n)[i])
  {
    var t := IntText(n);
    if n < 0 {
      var d := NatText(-n);
      NaturalReads(-n);
      assert t[0] == '-' && t[1..] == d;
      DigitsOnly(t);
      NegativeToken(t, -n);
    } else {
      NaturalReads(n);
      PositiveToken(t, n);
    }
  }

  lemma {:induction false} PositiveToken(t: string, n: nat)
    requires t != "" && IsDigit(t[0]) && Natural(t) == Some(n)
    ensures Token(t) == Some(Int(n))
  {
    assert t != "true" && t != "false";
  }

  lemma {:induction false} NegativeToken(t: string, n: nat)
    requires t != "" && t[0] == '-' && Natural(t).None? && Natural(t[1..]) == Some(n)
    ensures Token(t) == Some(Int(0 - n))
  {
    assert t != "true" && t != "false";
  }

  lemma {:induction false} DigitsOnly(t: string)
    ensures Digits(t).Some? ==> forall i :: 0 <= i < |t| ==> IsDigit(t[i])
  {
    if t != "" {
      DigitsOnly(t[..|t| - 1]);
      assert forall i :: 0 <= i < |t| - 1 ==> t[..|t| - 1][i] == t[i];
    }
  }

  lemma {:induction false} TokenLengthIs(t: string, rest: string)
    requires forall i :: 0 <= i < |t| ==> IsTokenChar(t[i])
    requires rest == "" || !IsTokenChar(rest[0])
    ensures TokenLength(t + rest) == |t|
  {
    if t == "" {
      assert t + rest == rest;
    } else {
      assert (t + rest)[0] == t[0] && (t + rest)[1..] == t[1..] + rest;
      TokenLengthIs(t[1..], rest);
    }
  }

  lemma {:induction false} TokenReads(t: string, v: Value, rest: string)
    requires t != "" && Token(t) == Some(v) && forall i :: 0 <= i < |t| ==> IsTokenChar(t[i])
    requires rest == "" || !IsTokenChar(rest[0])
    ensures ParseValue(t + rest) == Some((v, rest))
  {
    TokenLengthIs(t, rest);
    var s := t + rest;
    assert s[0] == t[0] && IsTokenChar(t[0]);
    assert s[..|t|] == t && s[|t|..] == rest;
  }

  // ---------- values ----------

  function ValueOf(d: Data): Value
    requires IsScalar(d) || d.Texts?
  {
    match d
    case Text(s) => Str(s)
    case Number(n) => Int(n)
    case Fraction(t) => Other(t)
    case Flag(b) => Bool(b)
    case Texts(items) => List(Strs(items))
  }

  function Strs(items: seq<string>): seq<Value> {
    if items == [] then [] else [Str(items[0])] + Strs(items[1..])
  }

  predicate Ends(rest: string) {
    rest == "" || (!IsTokenChar(rest[0]) && rest[0] != '"')
  }

  lemma {:induction false} ScalarReads(d: Data, rest: string)
    requires IsScalar(d) && Legible(d) && Ends(rest)
    ensures ParseValue(FormatScalar(d) + rest) == Some((ValueOf(d), rest))
  {
    match d
    case Text(s) =>
      FormatTextReads(s, rest);
      TextNotMulti(s, rest);
      CleanFolds(s);
    case Number(n) =>
      IntTextReads(n);
      TokenReads(IntText(n), Int(n), rest);
    case Fraction(t) =>
      TokenReads(t, Other(t), rest);
    case Flag(b) =>
      TokenReads(FormatScalar(d), Bool(b), rest);
  }

  /** The text of a written list behind its opening bracket. */
  function ListText(items: seq<string>, rest: string): string {
    "\n" + Join(Indented(items), ",\n") + "\n]" + rest
  }

  lemma {:induction false} ListTextCons(items: seq<string>, rest: string)
    requires items != []
    ensures ListText(items, rest) ==
      "\n    " + (FormatText(items[0]) + (if |items| == 1 then "\n]" + rest else "," + ListText(items[1..], rest)))
  {
    var f := FormatText(items[0]);
    var all, more := Indented(items), Indented(items[1..]);
    assert all[0] == "    " + f && all[1..] == more;
    assert "\n    " == "\n" + "    ";
    if |items| == 1 {
      JoinOne(all);
      Regroup("\n", "    ", f, "\n]", rest);
    } else {
      assert ",\n" == "," + "\n";
      JoinMore(all, ",\n");
      RegroupMore("\n", "    ", f, ",", Join(more, ",\n"), "\n]", rest);
    }
  }

  lemma {:induction false} JoinOne(parts: seq<string>)
    requires |parts| == 1
    ensures Join(parts, ",\n") == parts[0]
  {
  }

  lemma {:induction false} JoinMore(parts: seq<string>, sep: string)
    requires |parts| > 1
    ensures Join(parts, sep) == parts[0] + sep + Join(parts[1..], sep)
  {
  }

  lemma {:induction false} Regroup(a: string, b: string, f: string, c: string, rest: string)
    ensures a + (b + f) + c + rest == (a + b) + (f + (c + rest))
  {
  }

  lemma {:induction false} RegroupMore(a: string, b: string, f: string, comma: string, j: string, c: string, rest: string)
    ensures a + (b + f + (comma + a) + j) + c + rest == (a + b) + (f + (comma + (a + j + c + rest)))
  {
  }

  /** The items of a written list, from the first one on. */
  lemma {:induction false} ItemsRead(items: seq<string>, rest: string)
    requires items != [] && forall i :: 0 <= i < |items| ==> Clean(items[i])
    ensures ParseItems(ListText(items, rest)) == Some((Strs(items), rest))
  {
    var tail := if |items| == 1 then "\n]" + rest else "," + ListText(items[1..], rest);
    ListTextCons(items, rest);
    BlanksSkipped(FormatText(items[0]) + tail);
    ScalarReads(Text(items[0]), tail);
    if |items| == 1 {
      ListEnds(rest);
      LastItem(ListText(items, rest), FormatText(items[0]) + tail, Str(items[0]), tail, rest);
      assert Strs(items[1..]) == [] && Strs(items) == [Str(items[0])];
    } else {
      assert tail[1..] == ListText(items[1..], rest);
      ItemsRead(items[1..], rest);
      NextItem(ListText(items, rest), FormatText(items[0]) + tail, Str(items[0]), tail);
    }
  }

  lemma {:induction false} ListEnds(rest: string)
    ensures SkipTrivia("\n]" + rest) == Some("]" + rest)
  {
    assert ("\n]" + rest)[1..] == "]" + rest;
  }

  lemma {:induction false} LastItem(s: string, t: string, v: Value, tail: string, rest: string)
    requires SkipTrivia(s) == Some(t) && t != "" && t[0] != ']' && ParseValue(t) == Some((v, tail))
    requires SkipTrivia(tail) == Some("]" + rest)
    ensures ParseItems(s) == Some(([v], rest))
  {
    assert ("]" + rest)[1..] == rest;
  }

  lemma {:induction false} NextItem(s: string, t: string, v: Value, tail: string)
    requires SkipTrivia(s) == Some(t) && t != "" && t[0] != ']' && ParseValue(t) == Some((v, tail))
    requires tail != "" && tail[0] == ',' && ParseItems(tail[1..]).Some?
    ensures ParseItems(s) == Some(([v] + ParseItems(tail[1..]).value.0, ParseItems(tail[1..]).value.1))
  {
  }

  lemma {:induction false} BlanksSkipped(t: string)
    requires t != "" && t[0] == '"'
    ensures SkipTrivia("\n    " + t) == Some(t)
  {
    var s := "\n    " + t;
    assert s[1..] == "    " + t;
    assert s[1..][1..] == "   " + t;
    assert s[1..][1..][1..] == "  " + t;
    assert s[1..][1..][1..][1..] == " " + t;
    assert s[1..][1..][1..][1..][1..] == t;
    assert SkipTrivia(" " + t) == Some(t);
    assert SkipTrivia("   " + t) == Some(t);
  }

  lemma {:induction false} ValueReads(d: Data, rest: string)
    requires (IsScalar(d) || d.Texts?) && Legible(d) && Ends(rest)
    ensures ParseValue(FormatValue(d) + rest) == Some((ValueOf(d), rest))
  {
    if d.Texts? {
      ListValueReads(d.items, rest);
    } else {
      ScalarReads(d, rest);
    }
  }

  lemma {:induction false} ListValueReads(items: seq<string>, rest: string)
    requires forall i :: 0 <= i < |items| ==> Clean(items[i])
    ensures ParseValue(FormatStringList(items) + rest) == Some((List(Strs(items)), rest))
  {
    if items == [] {
      var body := "]" + rest;
      assert body[1..] == rest && SkipTrivia(body) == Some(body);
      ListReads(FormatStringList(items) + rest, body, [], rest);
    } else {
      ItemsRead(items, rest);
      Bracketed(Join(Indented(items), ",\n"), rest);
      ListReads(FormatStringList(items) + rest, ListText(items, rest), Strs(items), rest);
    }
  }

  lemma {:induction false} Bracketed(j: string, rest: string)
    ensures "[\n" + j + "\n]" + rest == "[" + ("\n" + j + "\n]" + rest)
  {
  }

  lemma {:induction false} ListReads(s: string, body: string, items: seq<Value>, rest: string)
    requires s == "[" + body && ParseItems(body) == Some((items, rest))
    ensures ParseValue(s) == Some((List(items), rest))
  {
    assert s[0] == '[' && s[1..] == body;
  }

  // ---------- keys and headers ----------

  lemma {:induction false} BareLengthIs(k: string, rest: string)
    requires forall i :: 0 <= i < |k| ==> IsBareKey(k[i])
    requires rest == "" || !IsBareKey(rest[0])
    ensures BareLength(k + rest) == |k|
  {
    if k == "" {
      assert k + rest == rest;
    } else {
      assert (k + rest)[0] == k[0] && (k + rest)[1..] == k[1..] + rest;
      BareLengthIs(k[1..], rest);
    }
  }

  lemma {:induction false} KeyReads(k: string, rest: string)
    requires Clean(k) && (rest == "" || !IsBareKey(rest[0]))
    ensures ParseKey(FormatKey(k) + rest) == Some((k, rest))
  {
    var s := FormatKey(k) + rest;
    if IsBare(k) {
      BareLengthIs(k, rest);
      assert s[0] == k[0] && IsBareKey(k[0]);
      assert s[..|k|] == k && s[|k|..] == rest;
    } else {
      FormatTextReads(k, rest);
      CleanFolds(k);
    }
  }

  /** No key starts with a character that a blank, a bracket or a comment could start with. */
  lemma {:induction false} KeyStart(k: string, rest: string)
    ensures var s := FormatKey(k) + rest;
      s != "" && SkipWs(s) == s && s[0] != '[' && s[0] != '#' && s[0] != '\n' && s[0] != '.'
  {
    var s := FormatKey(k) + rest;
    if IsBare(k) {
      assert s[0] == k[0] && IsBareKey(k[0]);
    } else {
      assert s[0] == '"';
    }
  }

  lemma {:induction false} PathReads(path: seq<string>, rest: string)
    requires path != [] && forall i :: 0 <= i < |path| ==> Clean(path[i])
    requires rest != "" && rest[0] == ']'
    ensures ParsePath(FormatTableName(path) + rest) == Some((path, rest))
  {
    var s := FormatTableName(path) + rest;
    if |path| == 1 {
      assert FormatTableName(path) == FormatKey(path[0]);
      assert [path[0]] == path && SkipWs(rest) == rest;
      KeyReads(path[0], rest);
    } else {
      var more := FormatTableName(path[1..]) + rest;
      assert FormatKeys(path)[1..] == FormatKeys(path[1..]);
      assert s == FormatKey(path[0]) + ("." + more) by {
        NameCons(path, rest);
      }
      KeyReads(path[0], "." + more);
      assert ("." + more)[1..] == more;
      NameStart(path[1..], rest);
      PathReads(path[1..], rest);
      PathCons(s, path[0], "." + more, more, path[1..], rest);
      assert [path[0]] + path[1..] == path;
    }
  }

  lemma {:induction false} NameCons(path: seq<string>, rest: string)
    requires |path| > 1
    ensures FormatTableName(path) + rest == FormatKey(path[0]) + ("." + (FormatTableName(path[1..]) + rest))
  {
    assert FormatKeys(path)[1..] == FormatKeys(path[1..]);
    var k, j := FormatKey(path[0]), FormatTableName(path[1..]);
    assert FormatTableName(path) == k + "." + j;
    assert k + "." + j + rest == k + ("." + (j + rest));
  }

  lemma {:induction false} PathCons(s: string, k: string, t: string, more: string, path: seq<string>, rest: string)
    requires ParseKey(s) == Some((k, t)) && t == "." + more && SkipWs(more) == more && ParsePath(more) == Some((path, rest))
    ensures ParsePath(s) == Some(([k] + path, rest))
  {
    assert t[1..] == more && SkipWs(t) == t;
  }

  lemma {:induction false} NameStart(path: seq<string>, rest: string)
    requires path != []
    ensures var s := FormatTableName(path) + rest;
      s != "" && SkipWs(s) == s && s[0] != '[' && s[0] != '#' && s[0] != '\n' && s[0] != '.'
  {
    var s := FormatTableName(path) + rest;
    if |path| == 1 {
      KeyStart(path[0], rest);
    } else {
      var more := "." + Join(FormatKeys(path)[1..], ".") + rest;
      assert s == FormatKey(path[0]) + more;
      KeyStart(path[0], more);
    }
  }
}
