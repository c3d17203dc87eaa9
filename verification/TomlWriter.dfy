/**
  The serializer of config/toml_writer.py: the text of one scalar, of a list of strings, of a key, of a table with its
  sub-tables and arrays of tables, and of the whole public config.
 */
module TomlWriter {
  import opened Text
  import opened Wrappers
  import opened TomlLexer
  import opened TomlSyntax

  /** What `str` makes of a float: a token that TOML reads as a float. */
  predicate IsFloatText(t: string) {
    t != "" && IsFloat(t) && Token(t) == Some(Other(t)) && forall i :: 0 <= i < |t| ==> IsTokenChar(t[i])
  }

  type FloatText = t: string | IsFloatText(t) witness "inf"

  /** What the serializer can write; a dictionary is the sequence of its items in insertion order. */
  datatype Data =
    | Text(s: string)
    | Number(n: int)
    | Fraction(t: FloatText)
    | Flag(b: bool)
    | Texts(items: seq<string>)
    | Table(entries: seq<Entry>)
    | Tables(tables: seq<Data>)

  datatype Entry = Entry(key: string, value: Data)

  type Entries = seq<Entry>

  // ---------- scalars ----------

  /** `text.replace(c, with)` for a one-character pattern. */
  function Replace(text: string, c: char, with: string): string {
    if text == "" then "" else (if text[0] == c then with else [text[0]]) + Replace(text[1..], c, with)
  }

  /** The source folds CRLF and CR to LF before it escapes; this is the string it actually writes. */
  function Folded(s: string): string {
    Replace(Unix(s), '\r', "\n")
  }

  /** The body of a formatted string: five replacements, one after the other. */
  function Escaped(s: string): string {
    Replace(Replace(Replace(Unix(Replace(s, '\\', "\\\\")), '\r', "\n"), '\n', "\\n"), '"', "\\\"")
  }

  function FormatText(s: string): string {
    "\"" + Escaped(s) + "\""
  }

  function NatText(n: nat): string
    decreases n
  {
    var digit := ['0' + (n % 10) as char];
    if n < 10 then digit else NatText(n / 10) + digit
  }

  function IntText(n: int): string {
    if n < 0 then "-" + NatText(-n) else NatText(n)
  }

  predicate IsScalar(d: Data) {
    d.Text? || d.Number? || d.Fraction? || d.Flag?
  }

  function FormatScalar(d: Data): string
    requires IsScalar(d)
  {
    match d
    case Text(s) => FormatText(s)
    case Number(n) => IntText(n)
    case Fraction(t) => t
    case Flag(b) => if b then "true" else "false"
  }

  /** `sep.join(parts)` */
  function Join(parts: seq<string>, sep: string): string {
    if parts == [] then ""
    else if |parts| == 1 then parts[0]
    else parts[0] + sep + Join(parts[1..], sep)
  }

  function Indented(items: seq<string>): (r: seq<string>)
    ensures |r| == |items|
  {
    if items == [] then [] else ["    " + FormatText(items[0])] + Indented(items[1..])
  }

  function FormatStringList(items: seq<string>): string {
    if items == [] then "[]" else "[\n" + Join(Indented(items), ",\n") + "\n]"
  }

  function FormatValue(d: Data): string
    requires IsScalar(d) || d.Texts?
  {
    if d.Texts? then FormatStringList(d.items) else FormatScalar(d)
  }

  // ---------- keys and headers ----------

  predicate IsBare(key: string) {
    key != "" && forall i :: 0 <= i < |key| ==> IsBareKey(key[i])
  }

  function FormatKey(key: string): string {
    if IsBare(key) then key else FormatText(key)
  }

  function FormatKeys(path: seq<string>): (r: seq<string>)
    ensures |r| == |path|
  {
    if path == [] then [] else [FormatKey(path[0])] + FormatKeys(path[1..])
  }

  function FormatTableName(path: seq<string>): string {
    Join(FormatKeys(path), ".")
  }

  function AssignLine(key: string, d: Data): string
    requires IsScalar(d) || d.Texts?
  {
    FormatKey(key) + " = " + FormatValue(d)
  }

  // ---------- tables ----------

  function Front<T>(s: seq<T>): seq<T>
    requires s != []
  {
    s[..|s| - 1]
  }

  /** The lines below a header: scalars and string lists, then nested tables, then arrays of tables. */
  function BodyLines(path: seq<string>, entries: Entries): seq<string>
    decreases entries, 3
  {
    ScalarLines(entries) + NestedLines(path, entries) + ArrayLines(path, entries)
  }

  function ScalarLines(entries: Entries): seq<string> {
    if entries == [] then [] else ScalarLines(Front(entries)) + ScalarLine(Last(entries))
  }

  function ScalarLine(e: Entry): seq<string> {
    if IsScalar(e.value) || e.value.Texts? then [AssignLine(e.key, e.value)] else []
  }

  function NestedLines(path: seq<string>, entries: Entries): seq<string>
    decreases entries, 2
  {
    if entries == [] then [] else NestedLines(path, Front(entries)) + NestedLine(path, Last(entries))
  }

  function NestedLine(path: seq<string>, e: Entry): seq<string>
    decreases e
  {
    if e.value.Table? then [""] + TableLines(path + [e.key], e.value.entries) else []
  }

  function ArrayLines(path: seq<string>, entries: Entries): seq<string>
    decreases entries, 2
  {
    if entries == [] then [] else ArrayLines(path, Front(entries)) + ArrayLine(path, Last(entries))
  }

  function ArrayLine(path: seq<string>, e: Entry): seq<string>
    decreases e
  {
    if e.value.Tables? then ItemLines(path + [e.key], e.value.tables) else []
  }

  function ItemLines(path: seq<string>, items: seq<Data>): seq<string>
    decreases items
  {
    if items == [] then [] else ItemLines(path, Front(items)) + ItemLine(path, Last(items))
  }

  function ItemLine(path: seq<string>, item: Data): seq<string>
    decreases item
  {
    if item.Table? then ["", "[[" + FormatTableName(path) + "]]"] + BodyLines(path, item.entries) else []
  }

  function TableLines(path: seq<string>, entries: Entries): seq<string>
    decreases entries, 4
  {
    ["[" + FormatTableName(path) + "]"] + BodyLines(path, entries)
  }

  // ---------- what the source accepts faithfully ----------

  /** Every character can stand in a basic string, escaped or not, and survives the folding of line breaks. */
  predicate Clean(s: string) {
    forall i :: 0 <= i < |s| ==> s[i] == '\n' || s[i] == '\t' || !IsControl(s[i])
  }

  predicate Distinct(entries: Entries) {
    forall i, j :: 0 <= i < j < |entries| ==> entries[i].key != entries[j].key
  }

  /** What the serializer makes of any data: an array of tables has items, and they hold no array of tables themselves. */
  predicate Shaped(d: Data)
    decreases d
  {
    match d
    case Table(entries) => ShapedEntries(entries)
    case Tables(items) => items != [] && forall i :: 0 <= i < |items| ==> ShapedItem(items[i])
    case _ => true
  }

  predicate ShapedEntries(entries: Entries)
    decreases entries
  {
    forall i :: 0 <= i < |entries| ==> Shaped(entries[i].value)
  }

  predicate ShapedItem(d: Data)
    decreases d
  {
    d.Table? && ShapedEntries(d.entries) && forall i :: 0 <= i < |d.entries| ==> !d.entries[i].value.Tables?
  }

  /** Besides, every string and every key is clean: the written lines can be read. */
  predicate Legible(d: Data)
    decreases d
  {
    match d
    case Text(s) => Clean(s)
    case Texts(items) => forall i :: 0 <= i < |items| ==> Clean(items[i])
    case Table(entries) => LegibleEntries(entries)
    case Tables(items) => items != [] && forall i :: 0 <= i < |items| ==> LegibleItem(items[i])
    case _ => true
  }

  predicate LegibleEntries(entries: Entries)
    decreases entries
  {
    forall i :: 0 <= i < |entries| ==> Clean(entries[i].key) && Legible(entries[i].value)
  }

  predicate LegibleItem(d: Data)
    decreases d
  {
    d.Table? && LegibleEntries(d.entries) && forall i :: 0 <= i < |d.entries| ==> !d.entries[i].value.Tables?
  }

  /** And no table has a key twice: the lines that are read build a tree. */
  predicate Writable(d: Data)
    decreases d
  {
    match d
    case Text(s) => Clean(s)
    case Texts(items) => forall i :: 0 <= i < |items| ==> Clean(items[i])
    case Table(entries) => WritableEntries(entries)
    case Tables(items) => items != [] && forall i :: 0 <= i < |items| ==> WritableItem(items[i])
    case _ => true
  }

  predicate WritableEntries(entries: Entries)
    decreases entries
  {
    Distinct(entries) && forall i :: 0 <= i < |entries| ==> Clean(entries[i].key) && Writable(entries[i].value)
  }

  predicate WritableItem(d: Data)
    decreases d
  {
    d.Table? && WritableEntries(d.entries) && forall i :: 0 <= i < |d.entries| ==> !d.entries[i].value.Tables?
  }

  // ---------- the kinds of entries ----------

  datatype Kind = ScalarKind | NestedKind | ArrayKind

  function KindOf(d: Data): Kind {
    if d.Table? then NestedKind else if d.Tables? then ArrayKind else ScalarKind
  }

  /** The entries of one kind, in order. */
  function Of(entries: Entries, kind: Kind): (r: Entries)
    ensures forall e :: e in r ==> e in entries && KindOf(e.value) == kind
  {
    if entries == [] then []
    else Of(Front(entries), kind) + (if KindOf(Last(entries).value) == kind then [Last(entries)] else [])
  }

  lemma {:induction false} ScalarLinesOf(entries: Entries)
    ensures ScalarLines(Of(entries, ScalarKind)) == ScalarLines(entries)
  {
    if entries != [] {
      ScalarLinesOf(Front(entries));
      OfLast(entries, ScalarKind);
    }
  }

  lemma {:induction false} NestedLinesOf(path: seq<string>, entries: Entries)
    ensures NestedLines(path, Of(entries, NestedKind)) == NestedLines(path, entries)
  {
    if entries != [] {
      NestedLinesOf(path, Front(entries));
      OfLast(entries, NestedKind);
    }
  }

  lemma {:induction false} ArrayLinesOf(path: seq<string>, entries: Entries)
    ensures ArrayLines(path, Of(entries, ArrayKind)) == ArrayLines(path, entries)
  {
    if entries != [] {
      ArrayLinesOf(path, Front(entries));
      OfLast(entries, ArrayKind);
    }
  }

  lemma {:induction false} OfLast(entries: Entries, kind: Kind)
    requires entries != []
    ensures var r := Of(entries, kind);
      if KindOf(Last(entries).value) == kind
      then r != [] && Front(r) == Of(Front(entries), kind) && Last(r) == Last(entries)
      else r == Of(Front(entries), kind)
  {
  }

  lemma {:induction false} Prefix<T>(s: seq<T>, i: nat)
    requires i < |s|
    ensures s[..i + 1] != [] && Front(s[..i + 1]) == s[..i] && Last(s[..i + 1]) == s[i]
  {
  }

  lemma {:induction false} WritableIsLegible(d: Data)
    requires Writable(d)
    ensures Legible(d)
    decreases d
  {
    match d
    case Table(entries) => WritableAreLegible(entries);
    case Tables(items) =>
      forall i | 0 <= i < |items| ensures LegibleItem(items[i]) {
        WritableAreLegible(items[i].entries);
      }
    case _ =>
  }

  lemma {:induction false} WritableAreLegible(entries: Entries)
    requires WritableEntries(entries)
    ensures LegibleEntries(entries)
    decreases entries
  {
    forall i | 0 <= i < |entries| ensures Legible(entries[i].value) {
      WritableIsLegible(entries[i].value);
    }
  }

  lemma {:induction false} WritableMember(entries: Entries, e: Entry)
    requires WritableEntries(entries) && e in entries
    ensures Clean(e.key) && Writable(e.value)
  {
    var i :| 0 <= i < |entries| && entries[i] == e;
    assert Writable(entries[i].value);
  }

  lemma {:induction false} Assoc<T>(a: seq<T>, b: seq<T>, c: seq<T>)
    ensures a + b + c == a + (b + c)
  {
  }

  lemma {:induction false} NoArrays(path: seq<string>, entries: Entries)
    requires forall i :: 0 <= i < |entries| ==> !entries[i].value.Tables?
    ensures ArrayLines(path, entries) == []
  {
    if entries != [] {
      NoArrays(path, Front(entries));
    }
  }

  // ---------- the whole config ----------

  /** The sections of a config: tables and scalars. */
  predicate Sections(data: Entries) {
    forall i :: 0 <= i < |data| ==> data[i].value.Table? || IsScalar(data[i].value)
  }

  function SectionLines(section: Entry): seq<string>
    requires section.value.Table? || IsScalar(section.value)
  {
    if section.value.Table? then TableLines([section.key], section.value.entries)
    else [FormatKey(section.key) + " = " + FormatScalar(section.value)]
  }

  /** The sections of the config, a blank line between two of them. */
  function ConfigLines(data: Entries): seq<string>
    requires Sections(data)
  {
    if data == [] then []
    else ConfigLines(Front(data)) + (if |data| > 1 then [""] else []) + SectionLines(Last(data))
  }
}
