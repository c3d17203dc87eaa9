/**
  The line-incremental TOML lexer of config/operator_config_transaction.py and the one-pass lexer it must agree with.

  `Scan` is the reference: a single pass over a whole document that carries an escape flag through basic strings and
  ends a comment at its newline.  `AdvanceLexicalState` is the source's loop: it is handed one line at a time, keeps
  only the open multi-line quote and the bracket depths between lines, and decides whether a closing quote run is
  escaped by counting the backslashes in front of it.
 */
module TomlLexer {
  import opened Wrappers

  datatype Quote = Basic | Literal

  function Mark(q: Quote): char {
    if q.Basic? then '"' else '\''
  }

  predicate IsQuote(c: char) {
    c == '"' || c == '\''
  }

  // ---------- the reference: one pass over the document ----------

  datatype Mode =
    | Plain
    | Comment
    | OneLine(q: Quote, escaped: bool)
    | Multi(q: Quote, escaped: bool)

  datatype Lex = Lex(mode: Mode, square: nat, curly: nat)

  const NEUTRAL := Lex(Plain, 0, 0)

  /** The number of copies of `c` at the front of `s`. */
  function Run(s: string, c: char): (n: nat)
    ensures n <= |s|
    ensures n < |s| ==> s[n] != c
    ensures forall i :: 0 <= i < n ==> s[i] == c
  {
    if s != "" && s[0] == c then 1 + Run(s[1..], c) else 0
  }

  predicate OpensMulti(s: string, q: Quote) {
    |s| >= 3 && s[0] == s[1] == s[2] == Mark(q)
  }

  /** One token of the reference lexer: how many characters it takes and the state after it; None is a lexical error. */
  function Step(s: string, d: Lex): (r: Option<(nat, Lex)>)
    requires s != ""
    ensures r.Some? ==> 1 <= r.value.0 <= |s|
  {
    var c := s[0];
    match d.mode
    case Comment =>
      Some((1, if c == '\n' then d.(mode := Plain) else d))
    case OneLine(q, escaped) =>
      if c == '\n' then None
      else if escaped then Some((1, d.(mode := OneLine(q, false))))
      else if q.Basic? && c == '\\' then Some((1, d.(mode := OneLine(q, true))))
      else if c == Mark(q) then Some((1, d.(mode := Plain)))
      else Some((1, d))
    case Multi(q, escaped) =>
      if escaped then Some((1, d.(mode := Multi(q, false))))
      else if Run(s, Mark(q)) >= 3 then Some((Run(s, Mark(q)), d.(mode := Plain)))
      else Some((1, d.(mode := Multi(q, q.Basic? && c == '\\'))))
    case Plain =>
      if c == '#' then Some((1, d.(mode := Comment)))
      else if OpensMulti(s, Basic) then Some((3, d.(mode := Multi(Basic, false))))
      else if OpensMulti(s, Literal) then Some((3, d.(mode := Multi(Literal, false))))
      else if c == '"' then Some((1, d.(mode := OneLine(Basic, false))))
      else if c == '\'' then Some((1, d.(mode := OneLine(Literal, false))))
      else if c == '[' then Some((1, d.(square := d.square + 1)))
      else if c == ']' then if d.square == 0 then None else Some((1, d.(square := d.square - 1)))
      else if c == '{' then Some((1, d.(curly := d.curly + 1)))
      else if c == '}' then if d.curly == 0 then None else Some((1, d.(curly := d.curly - 1)))
      else Some((1, d))
  }

  function Scan(s: string, d: Lex): Option<Lex> {
    if s == "" then Some(d)
    else
      var r := Step(s, d);
      if r.None? then None else Scan(s[r.value.0..], r.value.1)
  }

  lemma {:induction false} ScanStep(s: string, d: Lex, r: Option<(nat, Lex)>)
    requires s != "" && r == Step(s, d)
    ensures Scan(s, d) == if r.None? then None else Scan(s[r.value.0..], r.value.1)
  {
  }

  /** Nothing at the start of `b` can extend a token that began in `a`. */
  predicate NoStraddle(a: string, b: string) {
    b == "" || !IsQuote(b[0]) || (a != "" && !IsQuote(a[|a| - 1]))
  }

  lemma {:induction false} RunAppend(a: string, b: string, c: char)
    requires a != "" && IsQuote(c) && NoStraddle(a, b)
    ensures Run(a + b, c) == Run(a, c)
  {
    assert (a + b)[1..] == a[1..] + b;
    if a[0] == c {
      if |a| == 1 {
        assert a[1..] == "";
        assert (a + b)[1..] == b;
      } else {
        RunAppend(a[1..], b, c);
      }
    }
  }

  lemma {:induction false} OpensAppend(a: string, b: string, q: Quote)
    requires a != "" && NoStraddle(a, b)
    ensures OpensMulti(a + b, q) <==> OpensMulti(a, q)
  {
    if |a| == 1 && |b| > 0 {
      assert (a + b)[1] == b[0];
    } else if |a| == 2 && |b| > 0 {
      assert (a + b)[2] == b[0];
    }
  }

  lemma {:induction false} StepAppend(a: string, b: string, d: Lex)
    requires a != "" && NoStraddle(a, b)
    ensures Step(a + b, d) == Step(a, d)
  {
    assert (a + b)[0] == a[0];
    match d.mode
    case Comment =>
    case OneLine(_, _) =>
    case Multi(q, _) =>
      RunAppend(a, b, Mark(q));
    case Plain =>
      OpensAppend(a, b, Basic);
      OpensAppend(a, b, Literal);
  }

  /** Scanning a document in two pieces is scanning it at once. */
  lemma {:induction false} ScanAppend(a: string, b: string, d: Lex)
    requires NoStraddle(a, b)
    ensures Scan(a + b, d) == (var m := Scan(a, d); if m.None? then None else Scan(b, m.value))
    decreases |a|
  {
    if a == "" {
      assert a + b == b;
    } else {
      StepAppend(a, b, d);
      var r := Step(a, d);
      if r.Some? {
        var n := r.value.0;
        assert (a + b)[n..] == a[n..] + b;
        if n == |a| {
          assert a[n..] + b == b;
        } else {
          ScanAppend(a[n..], b, r.value.1);
        }
      }
    }
  }

  // ---------- what is carried from one line to the next ----------

  datatype Carry = Carry(quote: Option<Quote>, square: nat, curly: nat)

  const OUTSIDE := Carry(None, 0, 0)

  function Enter(c: Carry): Lex {
    Lex(if c.quote.None? then Plain else Multi(c.quote.value, false), c.square, c.curly)
  }

  /** The state at the end of a line; a one-line string still open there is an error. */
  function Leave(r: Option<Lex>): Option<Carry> {
    match r
    case None => None
    case Some(d) =>
      match d.mode
      case Plain => Some(Carry(None, d.square, d.curly))
      case Comment => Some(Carry(None, d.square, d.curly))
      case OneLine(_, _) => None
      case Multi(q, _) => Some(Carry(Some(q), d.square, d.curly))
  }

  function Advance(line: string, c: Carry): Option<Carry> {
    Leave(Scan(line, Enter(c)))
  }

  function Fold(lines: seq<string>, c: Carry): Option<Carry> {
    if lines == [] then Some(c)
    else
      var m := Advance(lines[0], c);
      if m.None? then None else Fold(lines[1..], m.value)
  }

  function Concat(lines: seq<string>): string {
    if lines == [] then "" else lines[0] + Concat(lines[1..])
  }

  /** A physical line: a newline can only be its last character. */
  predicate IsLine(line: string) {
    line != "" && forall i :: 0 <= i < |line| - 1 ==> line[i] != '\n'
  }

  predicate Ended(line: string) {
    line != "" && line[|line| - 1] == '\n'
  }

  /** What `splitlines(keepends=True)` yields for a document whose only line breaks are LF and CRLF. */
  predicate IsSplit(lines: seq<string>) {
    && (forall i :: 0 <= i < |lines| ==> IsLine(lines[i]))
    && (forall i :: 0 <= i < |lines| - 1 ==> Ended(lines[i]))
  }

  lemma {:induction false} AfterNewline(s: string, d: Lex)
    requires Ended(s) && Scan(s, d).Some?
    ensures var e := Scan(s, d).value; e.mode.Plain? || (e.mode.Multi? && !e.mode.escaped)
    decreases |s|
  {
    var r := Step(s, d).value;
    if |s[r.0..]| > 0 {
      AfterNewline(s[r.0..], r.1);
    } else {
      assert Scan(s[r.0..], r.1) == Some(r.1);
      assert s[r.0 - 1] == '\n';
    }
  }

  /**
    The line-by-line fold is the one-pass lexer: it stops with an error exactly when the one pass does (or ends inside
    a one-line string), and otherwise arrives at the same open quote and the same depths.
   */
  lemma {:induction false} FoldIsOnePass(lines: seq<string>, c: Carry)
    requires IsSplit(lines)
    ensures Fold(lines, c) == Leave(Scan(Concat(lines), Enter(c)))
  {
    if lines != [] {
      var rest := Concat(lines[1..]);
      if |lines| == 1 {
        assert Concat(lines) == lines[0] + "" == lines[0];
        var m := Advance(lines[0], c);
        assert m.Some? ==> Fold(lines[1..], m.value) == m;
      } else {
        ScanAppend(lines[0], rest, Enter(c));
        var m := Scan(lines[0], Enter(c));
        if m.Some? {
          AfterNewline(lines[0], Enter(c));
          FoldIsOnePass(lines[1..], Leave(m).value);
          assert Enter(Leave(m).value) == m.value;
        }
      }
    }
  }

  lemma {:induction false} FoldAppend(a: seq<string>, b: seq<string>, c: Carry)
    ensures Fold(a + b, c) == (var m := Fold(a, c); if m.None? then None else Fold(b, m.value))
  {
    if a == [] {
      assert a + b == b;
    } else {
      assert (a + b)[1..] == a[1..] + b;
      var m := Advance(a[0], c);
      if m.Some? {
        FoldAppend(a[1..], b, m.value);
      }
    }
  }

  // ---------- the source's loop ----------

  /** The number of backslashes that stand directly in front of position `i`. */
  function Backslashes(line: string, i: nat): (n: nat)
    requires i <= |line|
  {
    if i > 0 && line[i - 1] == '\\' then 1 + Backslashes(line, i - 1) else 0
  }

  method IsUnescapedQuoteRun(line: string, index: nat) returns (unescaped: bool)
    requires index <= |line|
    ensures unescaped <==> Backslashes(line, index) % 2 == 0
  {
    var backslashes := 0;
    var cursor: int := index - 1;
    while cursor >= 0 && line[cursor] == '\\'
      invariant -1 <= cursor < |line|
      invariant backslashes + Backslashes(line, cursor + 1) == Backslashes(line, index)
    {
      backslashes := backslashes + 1;
      cursor := cursor - 1;
    }
    unescaped := backslashes % 2 == 0;
  }

  /** The inner loop of the source: the position behind a run of quotes. */
  method RunEnd(line: string, index: nat, c: char) returns (end: nat)
    requires index <= |line|
    ensures end == index + Run(line[index..], c) <= |line|
  {
    end := index;
    while end < |line| && line[end] == c
      invariant index <= end <= |line|
      invariant end - index + Run(line[end..], c) == Run(line[index..], c)
    {
      assert line[end..][1..] == line[end + 1..];
      end := end + 1;
    }
  }

  function StartsWith(line: string, prefix: string, index: nat): bool
    requires index <= |line|
  {
    index + |prefix| <= |line| && line[index..index + |prefix|] == prefix
  }

  lemma {:induction false} StartsWithMark(line: string, index: nat, q: Quote)
    requires index <= |line|
    ensures StartsWith(line, [Mark(q), Mark(q), Mark(q)], index) <==> OpensMulti(line[index..], q)
    ensures OpensMulti(line[index..], q) <==> Run(line[index..], Mark(q)) >= 3
  {
    var s := line[index..];
    if index + 3 <= |line| {
      assert line[index..index + 3] == [s[0], s[1], s[2]];
    }
    if OpensMulti(s, q) {
      assert s[1..][1..] == s[2..] && s[2..][1..] == s[3..];
      assert Run(s[2..], Mark(q)) >= 1 && Run(s[1..], Mark(q)) >= 2;
    }
  }

  class TomlLexicalState {
    var multilineQuote: Option<Quote>
    var squareDepth: int
    var curlyDepth: int

    constructor ()
      ensures squareDepth == 0 && curlyDepth == 0 && multilineQuote == None
    {
      multilineQuote := None;
      squareDepth := 0;
      curlyDepth := 0;
    }

    ghost predicate Valid()
      reads this
    {
      squareDepth >= 0 && curlyDepth >= 0
    }

    ghost function Value(): Carry
      reads this
      requires Valid()
    {
      Carry(multilineQuote, squareDepth, curlyDepth)
    }

    predicate IsOutside()
      reads this
    {
      multilineQuote.None? && squareDepth == 0 && curlyDepth == 0
    }
  }

  /** The reference reads its next token at position `index` of the line. */
  lemma {:induction false} ScanAt(line: string, index: nat, d: Lex, next: nat, e: Lex, whole: Option<Lex>)
    requires index < |line| && whole == Scan(line[index..], d)
    ensures line[index..] != ""
    ensures Step(line[index..], d).None? ==> whole.None?
    ensures Step(line[index..], d) == Some((next - index, e)) ==> index < next <= |line| && whole == Scan(line[next..], e)
  {
    ScanStep(line[index..], d, Step(line[index..], d));
    if Step(line[index..], d) == Some((next - index, e)) {
      assert line[index..][next - index..] == line[next..];
    }
  }

  /** Inside a multi-line string: the delimiter test with backslash lookback is the test with an escape flag. */
  lemma {:induction false} MultiAt(line: string, index: nat, q: Quote, flag: bool, d: Lex)
    requires index < |line| && d.mode == Multi(q, flag)
    requires flag ==> q.Basic?
    requires q.Basic? ==> (flag <==> Backslashes(line, index) % 2 == 1)
    ensures line[index..] != ""
    ensures var s := line[index..];
      Step(s, d) ==
        if StartsWith(line, [Mark(q), Mark(q), Mark(q)], index) && (q.Literal? || Backslashes(line, index) % 2 == 0)
        then Some((Run(s, Mark(q)), d.(mode := Plain)))
        else Some((1, d.(mode := Multi(q, !flag && q.Basic? && line[index] == '\\'))))
    ensures q.Basic? ==>
      ((!flag && line[index] == '\\') <==> Backslashes(line, index + 1) % 2 == 1)
  {
    StartsWithMark(line, index, q);
  }

  /** Outside every string: which token the reference reads at `index`. */
  lemma {:induction false} PlainAt(line: string, index: nat, d: Lex)
    requires index < |line| && d.mode.Plain? && line[index] != '#'
    ensures line[index..] != ""
    ensures var r := Step(line[index..], d); var c := line[index];
      r == if StartsWith(line, "\"\"\"", index) then Some((3, d.(mode := Multi(Basic, false))))
           else if StartsWith(line, "\'\'\'", index) then Some((3, d.(mode := Multi(Literal, false))))
           else if c == '"' then Some((1, d.(mode := OneLine(Basic, false))))
           else if c == '\'' then Some((1, d.(mode := OneLine(Literal, false))))
           else if c == '[' then Some((1, d.(square := d.square + 1)))
           else if c == ']' then if d.square == 0 then None else Some((1, d.(square := d.square - 1)))
           else if c == '{' then Some((1, d.(curly := d.curly + 1)))
           else if c == '}' then if d.curly == 0 then None else Some((1, d.(curly := d.curly - 1)))
           else Some((1, d))
  {
    StartsWithMark(line, index, Basic);
    StartsWithMark(line, index, Literal);
  }

  /** `here` is the reference's state at `index` as the source's variables describe it. */
  ghost predicate Tracks(line: string, index: nat, here: Lex, localQuote: Option<Quote>, escaped: bool, c: Carry)
    requires index <= |line|
  {
    && here.square == c.square && here.curly == c.curly
    && match here.mode
       case Comment => false
       case Plain => localQuote.None? && c.quote.None? && !escaped
       case OneLine(q, e) => localQuote == Some(q) && c.quote.None? && escaped == e && (e ==> q.Basic?)
       case Multi(q, e) => localQuote.None? && c.quote == Some(q) && !escaped && (e ==> q.Basic?) &&
                           (q.Basic? ==> (e <==> Backslashes(line, index) % 2 == 1))
  }

  /** The source's branch for a position inside a multi-line string. */
  method AdvanceInMulti(line: string, index: nat, state: TomlLexicalState, ghost here: Lex) returns (next: nat)
    requires index < |line| && state.Valid() && here.mode.Multi?
    requires Tracks(line, index, here, None, false, state.Value())
    modifies state
    ensures state.Valid() && index < next <= |line|
    ensures var r := Step(line[index..], here);
      r.Some? && next == index + r.value.0 && Tracks(line, next, r.value.1, None, false, state.Value())
  {
    var q := state.multilineQuote.value;
    MultiAt(line, index, q, here.mode.escaped, here);
    var closes := StartsWith(line, [Mark(q), Mark(q), Mark(q)], index);
    if closes && q.Basic? {
      closes := IsUnescapedQuoteRun(line, index);
    }
    if closes {
      state.multilineQuote := None;
      next := RunEnd(line, index, Mark(q));
    } else {
      next := index + 1;
    }
  }

  /** The source's branch for a position outside every string and comment; `ok` is false where it raises. */
  method AdvanceOutside(line: string, index: nat, state: TomlLexicalState, ghost here: Lex)
    returns (ok: bool, next: nat, localQuote: Option<Quote>)
    requires index < |line| && state.Valid() && here.mode.Plain? && line[index] != '#'
    requires Tracks(line, index, here, None, false, state.Value())
    modifies state
    ensures var r := Step(line[index..], here);
      && (ok <==> r.Some?)
      && (ok ==> state.Valid() && next == index + r.value.0 <= |line| &&
                 Tracks(line, next, r.value.1, localQuote, false, state.Value()))
  {
    PlainAt(line, index, here);
    localQuote := None;
    ok := true;
    next := index + 1;
    if StartsWith(line, "\"\"\"", index) {
      state.multilineQuote := Some(Basic);
      assert line[index..index + 3][2] == '"';
      next := index + 3;
    } else if StartsWith(line, "\'\'\'", index) {
      state.multilineQuote := Some(Literal);
      next := index + 3;
    } else if line[index] == '"' {
      localQuote := Some(Basic);
    } else if line[index] == '\'' {
      localQuote := Some(Literal);
    } else if line[index] == '[' {
      state.squareDepth := state.squareDepth + 1;
    } else if line[index] == ']' {
      state.squareDepth := state.squareDepth - 1;
      ok := state.squareDepth >= 0;
    } else if line[index] == '{' {
      state.curlyDepth := state.curlyDepth + 1;
    } else if line[index] == '}' {
      state.curlyDepth := state.curlyDepth - 1;
      ok := state.curlyDepth >= 0;
    }
  }

  /** The source's two branches for a position inside a one-line string. */
  method AdvanceInString(c: char, quote: Quote, escaped: bool) returns (localQuote: Option<Quote>, escaped': bool)
    requires escaped ==> quote.Basic?
    ensures escaped' ==> quote.Basic? && localQuote.Some?
    ensures forall s: string, d: Lex :: s != "" && s[0] == c && c != '\n' && d.mode == OneLine(quote, escaped) ==>
      Step(s, d) == Some((1, d.(mode := if localQuote.Some? then OneLine(localQuote.value, escaped') else Plain)))
    ensures localQuote.Some? ==> localQuote.value == quote
    ensures c == '\n' ==> localQuote.Some?
  {
    localQuote, escaped' := Some(quote), escaped;
    if quote.Basic? {
      if escaped {
        escaped' := false;
      } else if c == '\\' {
        escaped' := true;
      } else if c == '"' {
        localQuote := None;
      }
    } else if c == '\'' {
      localQuote := None;
    }
  }

  /** One turn of the source's loop, away from a comment; `ok` is false where it raises. */
  method AdvanceOne(line: string, index: nat, state: TomlLexicalState, quote: Option<Quote>, escaped: bool, ghost here: Lex)
    returns (ok: bool, next: nat, localQuote: Option<Quote>, escaped': bool, ghost here': Lex)
    requires IsLine(line) && index < |line| && state.Valid()
    requires Tracks(line, index, here, quote, escaped, state.Value())
    requires here.mode.Plain? ==> line[index] != '#'
    modifies state
    ensures ok ==> state.Valid() && index < next <= |line| && Tracks(line, next, here', localQuote, escaped', state.Value())
    ensures var r := Step(line[index..], here);
      if here.mode.OneLine? && line[index] == '\n'
      then r.None? && ok && here'.mode.OneLine? && next == |line|
      else (ok <==> r.Some?) && (ok ==> r == Some((next - index, here')))
  {
    localQuote, escaped', ok := None, false, true;
    ghost var step := Step(line[index..], here);
    here' := if step.Some? then step.value.1 else here;
    if state.multilineQuote.Some? {
      next := AdvanceInMulti(line, index, state, here);
    } else if quote.Some? {
      localQuote, escaped' := AdvanceInString(line[index], quote.value, escaped);
      here' := here.(mode := if localQuote.Some? then OneLine(localQuote.value, escaped') else Plain);
      next := index + 1;
    } else {
      ok, next, localQuote := AdvanceOutside(line, index, state, here);
    }
  }

  /**
    The source's loop over one line.  It raises (`ok` is false) exactly when the reference finds a lexical error in
    the line, and otherwise leaves the state object holding what the reference carries to the next line.
   */
  method AdvanceLexicalState(line: string, state: TomlLexicalState) returns (ok: bool)
    requires IsLine(line) && state.Valid()
    modifies state
    ensures ok <==> Advance(line, old(state.Value())).Some?
    ensures ok ==> state.Valid() && Some(state.Value()) == Advance(line, old(state.Value()))
  {
    var index := 0;
    var localQuote: Option<Quote> := None;
    var escaped := false;
    ghost var here := Enter(state.Value());  // the reference's state at `index`
    ghost var whole := Scan(line, here);
    ghost var broken := false;               // a one-line string has met the newline
    assert line[0..] == line;
    while index < |line|
      invariant index <= |line| && state.Valid()
      invariant Tracks(line, index, here, localQuote, escaped, state.Value())
      invariant broken ==> whole.None? && index == |line| && here.mode.OneLine?
      invariant !broken ==> whole == Scan(line[index..], here)
    {
      ghost var at, was := index, here;
      if state.multilineQuote.None? && localQuote.None? && line[index] == '#' {
        CommentToEnd(line[index..], here);
        break;
      }
      broken := here.mode.OneLine? && line[index] == '\n';
      ok, index, localQuote, escaped, here := AdvanceOne(line, index, state, localQuote, escaped, here);
      ScanAt(line, at, was, index, here, whole);
      if !ok {
        return;
      }
    }
    if localQuote.Some? {
      return false;
    }
    ok := true;
  }

  /** A comment swallows the rest of its line, so the source may stop reading there. */
  lemma {:induction false} CommentToEnd(s: string, d: Lex)
    requires s != "" && (d.mode.Comment? || (d.mode.Plain? && s[0] == '#'))
    requires forall i :: 0 <= i < |s| - 1 ==> s[i] != '\n'
    ensures Leave(Scan(s, d)) == Some(Carry(None, d.square, d.curly))
    decreases |s|
  {
    var r := Step(s, d).value;
    if |s| == 1 {
      assert Scan(s[r.0..], r.1) == Some(r.1);
    } else {
      CommentToEnd(s[1..], r.1);
    }
  }
}
