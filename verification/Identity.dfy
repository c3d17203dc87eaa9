/** Model keys and references of config/llm_identity.py; Unicode folding and the digest are parameters. */
module Identity {
  import opened Text
  import opened Wrappers

  predicate IsLower(c: char) {
    'a' <= c <= 'z'
  }

  predicate IsAlnum(c: char) {
    IsLower(c) || '0' <= c <= '9'
  }

  predicate IsKeyChar(c: char) {
    IsAlnum(c) || c == '.' || c == '_' || c == '-'
  }

  predicate IsIdChar(c: char) {
    IsAlnum(c) || c == '_' || c == '-'
  }

  predicate IsEdge(c: char) {
    c == '_' || c == '.' || c == '-'
  }

  // ---------- provider ids ----------

  /** `[a-z][a-z0-9_-]{0,63}` */
  predicate ValidProviderId(s: string) {
    && 1 <= |s| <= 64 && IsLower(s[0])
    && forall i :: 0 <= i < |s| ==> IsIdChar(s[i])
  }

  function ValidateProviderId(s: string): Option<string> {
    if ValidProviderId(Strip(s)) then Some(Strip(s)) else None
  }

  // ---------- model keys ----------

  /** `[a-z0-9][a-z0-9._-]*` */
  predicate SafeKey(s: string) {
    s != "" && IsAlnum(s[0]) && forall i :: 0 <= i < |s| ==> IsKeyChar(s[i])
  }

  /** `re.sub` of every run of other characters by one `_`; `inRun` is true behind a character that has been replaced. */
  function Slug(s: string, keep: char -> bool, inRun: bool): (r: string)
    ensures forall i :: 0 <= i < |r| ==> keep(r[i]) || r[i] == '_'
  {
    if s == "" then ""
    else if keep(s[0]) then [s[0]] + Slug(s[1..], keep, false)
    else if inRun then Slug(s[1..], keep, true)
    else "_" + Slug(s[1..], keep, true)
  }

  predicate All(s: string, p: char -> bool) {
    forall i :: 0 <= i < |s| ==> p(s[i])
  }

  /** A text of characters to keep is its own slug. */
  lemma {:induction false} SlugKeeps(s: string, keep: char -> bool)
    requires All(s, keep)
    ensures Slug(s, keep, false) == s
  {
    if s != "" {
      SlugKeeps(s[1..], keep);
      assert s == [s[0]] + s[1..];
    }
  }

  lemma {:induction false} RunEnds(run: string, rest: string, keep: char -> bool)
    requires All(run, c => !keep(c)) && (rest == "" || keep(rest[0]))
    ensures Slug(run + rest, keep, true) == Slug(rest, keep, false)
  {
    if run == "" {
      assert run + rest == rest;
    } else {
      assert (run + rest)[1..] == run[1..] + rest;
      RunEnds(run[1..], rest, keep);
    }
  }

  lemma {:induction false} RunAlone(run: string, rest: string, keep: char -> bool)
    requires run != "" && All(run, c => !keep(c)) && (rest == "" || keep(rest[0]))
    ensures Slug(run + rest, keep, false) == "_" + Slug(rest, keep, false)
  {
    assert (run + rest)[1..] == run[1..] + rest;
    RunEnds(run[1..], rest, keep);
  }

  lemma {:induction false} SlugAppend(a: string, t: string, keep: char -> bool, inRun: bool)
    ensures Slug(a + t, keep, inRun) == Slug(a, keep, inRun) + Slug(t, keep, if a == "" then inRun else !keep(a[|a| - 1]))
  {
    if a == "" {
      assert a + t == t;
    } else {
      FirstOfTwo(a, t);
      var behind := !keep(a[|a| - 1]);
      assert |a| > 1 ==> a[1..][|a| - 2] == a[|a| - 1];
      SlugAppend(a[1..], t, keep, !keep(a[0]));
      assert Slug(a[1..] + t, keep, !keep(a[0])) == Slug(a[1..], keep, !keep(a[0])) + Slug(t, keep, behind);
      SlugStep(a + t, keep, inRun);
      SlugStep(a, keep, inRun);
      JoinThree(SlugOne(a[0], keep, inRun), Slug(a[1..], keep, !keep(a[0])), Slug(t, keep, behind));
    }
  }

  lemma {:induction false} JoinThree(a: string, b: string, c: string)
    ensures a + (b + c) == (a + b) + c
  {
  }

  /** What one character becomes. */
  function SlugOne(c: char, keep: char -> bool, inRun: bool): string {
    if keep(c) then [c] else if inRun then "" else "_"
  }

  lemma {:induction false} FirstOfTwo(a: string, t: string)
    requires a != ""
    ensures (a + t)[0] == a[0] && (a + t)[1..] == a[1..] + t
  {
  }

  /** A run of other characters, wherever it stands, becomes one `_`. */
  lemma {:induction false} RunBecomesBar(a: string, run: string, b: string, keep: char -> bool)
    requires run != "" && All(run, c => !keep(c)) && (a == "" || keep(a[|a| - 1])) && (b == "" || keep(b[0]))
    ensures Slug(a + run + b, keep, false) == Slug(a, keep, false) + "_" + Slug(b, keep, false)
  {
    assert a + run + b == a + (run + b);
    SlugAppend(a, run + b, keep, false);
    RunAlone(run, b, keep);
  }

  lemma {:induction false} SlugStep(s: string, keep: char -> bool, inRun: bool)
    requires s != ""
    ensures Slug(s, keep, inRun) == SlugOne(s[0], keep, inRun) + Slug(s[1..], keep, !keep(s[0]))
  {
  }

  /** `strip` of certain characters */
  function StripEdges(s: string, edge: char -> bool): (r: string)
    ensures forall i :: 0 <= i < |r| ==> r[i] in s
    ensures r != "" ==> !edge(r[0]) && !edge(r[|r| - 1])
    decreases |s|
  {
    if s == "" then ""
    else if edge(s[0]) then StripEdges(s[1..], edge)
    else if edge(s[|s| - 1]) then StripEdges(s[..|s| - 1], edge)
    else s
  }

  lemma {:induction false} FirstOfThree(a: string, b: string, c: string)
    requires a != ""
    ensures (a + b + c)[0] == a[0] && (a + b + c)[1..] == a[1..] + b + c
  {
  }

  lemma {:induction false} LastOfThree(a: string, b: string, c: string)
    requires c != ""
    ensures var s := a + b + c; s[|s| - 1] == c[|c| - 1] && s[..|s| - 1] == a + b + c[..|c| - 1]
  {
  }

  /** Only such characters are taken off, at both ends. */
  lemma {:induction false} StrippedIs(s: string, edge: char -> bool, front: string, core: string, back: string)
    requires s == front + core + back && All(front, edge) && All(back, edge)
    requires core == "" || (!edge(core[0]) && !edge(core[|core| - 1]))
    ensures StripEdges(s, edge) == core
    decreases |front| + |back|
  {
    if front != "" {
      FirstOfThree(front, core, back);
      StrippedIs(front[1..] + core + back, edge, front[1..], core, back);
    } else if back == "" {
      assert s == core;
    } else if core == "" {
      assert s == back;
      assert back[1..] == "" + core + back[1..];
      StrippedIs(back[1..], edge, "", core, back[1..]);
    } else {
      LastOfThree(front, core, back);
      assert s[0] == core[0];
      StrippedIs(front + core + back[..|back| - 1], edge, front, core, back[..|back| - 1]);
    }
  }

  /** `fold` is NFKC followed by lower-casing; `digest` the first eight hexadecimal digits of SHA-256. */
  function MakeModelKey(raw: string, fold: string -> string, digest: string -> string, maxLength: nat): Option<string> {
    if maxLength < 10 || Strip(raw) == "" then None
    else if SafeKey(raw) && |raw| <= maxLength then Some(raw)
    else
      var stripped := StripEdges(Slug(fold(raw), IsKeyChar, false), IsEdge);
      var slug := if stripped == "" then "model" else stripped;
      Some(Take(slug, maxLength - 9) + "~" + digest(raw))
  }

  function Take(s: string, n: nat): string {
    if |s| <= n then s else s[..n]
  }

  ghost predicate IsDigest(digest: string -> string) {
    forall raw: string :: |digest(raw)| == 8 && forall i :: 0 <= i < 8 ==> IsAlnum(digest(raw)[i])
  }

  lemma {:induction false} SlugShape(text: string)
    ensures var s := StripEdges(Slug(text, IsKeyChar, false), IsEdge); SafeKey(if s == "" then "model" else s)
  {
    var t := Slug(text, IsKeyChar, false);
    var s := StripEdges(t, IsEdge);
    forall i | 0 <= i < |s| ensures IsKeyChar(s[i]) {
      assert s[i] in t;
    }
  }

  /** A digested key: a safe stem, a tilde and the digest. */
  lemma {:induction false} DigestedShape(raw: string, fold: string -> string, digest: string -> string, maxLength: nat) returns (stem: string)
    requires IsDigest(digest) && maxLength >= 10 && Strip(raw) != "" && !(SafeKey(raw) && |raw| <= maxLength)
    ensures SafeKey(stem) && |stem| <= maxLength - 9
    ensures MakeModelKey(raw, fold, digest, maxLength) == Some(stem + "~" + digest(raw))
  {
    var s := StripEdges(Slug(fold(raw), IsKeyChar, false), IsEdge);
    SlugShape(fold(raw));
    stem := Take(if s == "" then "model" else s, maxLength - 9);
  }

  /** What every key satisfies. */
  predicate IsModelKey(key: string, maxLength: nat) {
    && 0 < |key| <= maxLength && IsAlnum(key[0]) && !IsSpace(key[|key| - 1])
    && forall i :: 0 <= i < |key| ==> IsKeyChar(key[i]) || key[i] == '~'
  }

  /**
    No key at all for a limit below ten or a blank id; else the id itself if that is a short safe key; else the slug of the
    folded id without `_`, `.` and `-` at its ends, or `model` if nothing is left, cut to make room for a tilde and the digest.
   */
  lemma {:induction false} KeyExactly(raw: string, fold: string -> string, digest: string -> string, maxLength: nat,
                                      front: string, core: string, back: string)
    requires Slug(fold(raw), IsKeyChar, false) == front + core + back && All(front, IsEdge) && All(back, IsEdge)
    requires core == "" || (!IsEdge(core[0]) && !IsEdge(core[|core| - 1]))
    ensures MakeModelKey(raw, fold, digest, maxLength).None? <==> maxLength < 10 || Strip(raw) == ""
    ensures maxLength >= 10 && Strip(raw) != "" && SafeKey(raw) && |raw| <= maxLength ==>
      MakeModelKey(raw, fold, digest, maxLength) == Some(raw)
    ensures maxLength >= 10 && Strip(raw) != "" && !(SafeKey(raw) && |raw| <= maxLength) ==>
      exists stem :: MakeModelKey(raw, fold, digest, maxLength) == Some(stem + "~" + digest(raw)) &&
                     stem <= (if core == "" then "model" else core) &&
                     (|stem| == maxLength - 9 || (|stem| < maxLength - 9 && stem == if core == "" then "model" else core))
  {
    StrippedIs(Slug(fold(raw), IsKeyChar, false), IsEdge, front, core, back);
    if maxLength >= 10 && Strip(raw) != "" && !(SafeKey(raw) && |raw| <= maxLength) {
      var slug := if core == "" then "model" else core;
      var stem := Take(slug, maxLength - 9);
      TakeExactly(slug, maxLength - 9, stem);
      assert MakeModelKey(raw, fold, digest, maxLength) == Some(stem + "~" + digest(raw));
    }
  }

  /** Keys keep the length limit and hold no slash; a key without `~` is the upstream id itself. */
  lemma {:induction false} KeyShape(raw: string, fold: string -> string, digest: string -> string, maxLength: nat, key: string)
    requires IsDigest(digest) && MakeModelKey(raw, fold, digest, maxLength) == Some(key)
    ensures IsModelKey(key, maxLength) && '/' !in key
    ensures '~' in key <==> !(SafeKey(raw) && |raw| <= maxLength)
    ensures '~' !in key ==> key == raw
  {
    if !(SafeKey(raw) && |raw| <= maxLength) {
      var stem := DigestedShape(raw, fold, digest, maxLength);
      TildeShape(stem, digest(raw), maxLength);
    }
    NoSlash(key, maxLength);
  }

  lemma {:induction false} TildeShape(stem: string, d: string, maxLength: nat)
    requires SafeKey(stem) && |stem| <= maxLength - 9 && |d| == 8 && forall i :: 0 <= i < 8 ==> IsAlnum(d[i])
    ensures var key := stem + "~" + d; IsModelKey(key, maxLength) && '~' in key
  {
    var key := stem + "~" + d;
    assert key[|stem|] == '~' && key[|key| - 1] == d[7];
    forall i | 0 <= i < |key| ensures IsKeyChar(key[i]) || key[i] == '~' {
      if i > |stem| {
        assert key[i] == d[i - |stem| - 1];
      }
    }
  }

  lemma {:induction false} NoSlash(key: string, maxLength: nat)
    requires IsModelKey(key, maxLength)
    ensures '/' !in key
  {
  }

  /** The id is not its own key. */
  predicate Digested(raw: string, maxLength: nat) {
    !(SafeKey(raw) && |raw| <= maxLength)
  }

  /** What stands in front of the tilde of a digested key. */
  function Stem(raw: string, fold: string -> string, maxLength: nat): string
    requires maxLength >= 10
  {
    var stripped := StripEdges(Slug(fold(raw), IsKeyChar, false), IsEdge);
    Take(if stripped == "" then "model" else stripped, maxLength - 9)
  }

  /**
    Exactly when two upstream ids share a key: they are the same, or both are digested, with the same eight characters
    and the same stem.  In particular a plain key is never shared.
   */
  lemma {:induction false} SameKeyExactly(a: string, b: string, fold: string -> string, digest: string -> string, maxLength: nat)
    requires IsDigest(digest)
    requires MakeModelKey(a, fold, digest, maxLength).Some? && MakeModelKey(b, fold, digest, maxLength).Some?
    ensures MakeModelKey(a, fold, digest, maxLength) == MakeModelKey(b, fold, digest, maxLength) <==>
      a == b || (Digested(a, maxLength) && Digested(b, maxLength) && digest(a) == digest(b) &&
                 Stem(a, fold, maxLength) == Stem(b, fold, maxLength))
  {
    var x, y := MakeModelKey(a, fold, digest, maxLength).value, MakeModelKey(b, fold, digest, maxLength).value;
    KeyShape(a, fold, digest, maxLength, x);
    KeyShape(b, fold, digest, maxLength, y);
    if x == y && '~' in x {
      var s, t := Stem(a, fold, maxLength), Stem(b, fold, maxLength);
      assert x == (s + "~") + digest(a) && y == (t + "~") + digest(b) && |digest(a)| == 8 == |digest(b)|;
      LastEight(s + "~", digest(a), t + "~", digest(b));
      assert (s + "~")[..|s|] == s && (t + "~")[..|t|] == t;
    }
  }

  lemma {:induction false} LastEight(x: string, a: string, y: string, b: string)
    requires x + a == y + b && |a| == |b|
    ensures a == b && x == y
  {
    assert |x| == |y|;
    assert (x + a)[|x|..] == a && (y + b)[|y|..] == b;
  }

  // ---------- suggested provider ids ----------

  predicate IsBar(c: char) {
    c == '_'
  }

  function IdBase(source: string): string {
    var stripped := StripEdges(Slug(source, IsIdChar, false), IsBar);
    var base := if stripped == "" then "provider" else stripped;
    if IsLower(base[0]) then base else "provider_" + base
  }

  /** `suggest_provider_id`; `mark` is the first eight hexadecimal digits of the fingerprint. */
  function SuggestProviderId(source: string, mark: string, existing: seq<string>): string {
    var base := IdBase(source);
    if base !in existing then Take(base, 64) else Take(base, 55) + "_" + mark
  }

  predicate IsMark(mark: string) {
    |mark| == 8 && forall i :: 0 <= i < 8 ==> IsAlnum(mark[i])
  }

  predicate IdShape(base: string) {
    base != "" && IsLower(base[0]) && forall i :: 0 <= i < |base| ==> IsIdChar(base[i])
  }

  lemma {:induction false} BaseShape(source: string)
    ensures IdShape(IdBase(source))
  {
    var slug := Slug(source, IsIdChar, false);
    var stripped := StripEdges(slug, IsBar);
    forall i | 0 <= i < |stripped| ensures IsIdChar(stripped[i]) {
      assert stripped[i] in slug;
    }
  }

  /** The first 64 characters of the base, unless it is taken: then the first 55, a bar and the mark. */
  lemma {:induction false} SuggestedExactly(source: string, mark: string, existing: seq<string>, id: string)
    requires IsMark(mark)
    ensures IdBase(source) !in existing ==>
      (id == SuggestProviderId(source, mark, existing) <==> id <= IdBase(source) && (|id| == 64 || (|id| < 64 && id == IdBase(source))))
    ensures IdBase(source) in existing ==>
      (id == SuggestProviderId(source, mark, existing) <==>
        exists stem :: id == stem + "_" + mark && stem <= IdBase(source) && (|stem| == 55 || (|stem| < 55 && stem == IdBase(source))))
  {
    var base := IdBase(source);
    TakeExactly(base, 64, id);
    if base in existing {
      TakeExactly(base, 55, Take(base, 55));
      forall stem | stem <= base && (|stem| == 55 || (|stem| < 55 && stem == base)) ensures stem == Take(base, 55) {
        TakeExactly(base, 55, stem);
      }
    }
  }

  lemma {:induction false} TakeExactly(s: string, n: nat, t: string)
    ensures t == Take(s, n) <==> t <= s && (|t| == n || (|t| < n && t == s))
  {
  }

  /** The base: the slug of the source without bars at its ends, behind `provider_` if it does not start with a letter. */
  lemma {:induction false} BaseExactly(source: string, front: string, core: string, back: string)
    requires Slug(source, IsIdChar, false) == front + core + back && All(front, IsBar) && All(back, IsBar)
    requires core == "" || (!IsBar(core[0]) && !IsBar(core[|core| - 1]))
    ensures core == "" ==> IdBase(source) == "provider"
    ensures core != "" ==> IdBase(source) == if IsLower(core[0]) then core else "provider_" + core
  {
    StrippedIs(Slug(source, IsIdChar, false), IsBar, front, core, back);
  }

  /** What is suggested passes `validate_provider_id` unchanged. */
  lemma {:induction false} SuggestedIsValid(source: string, mark: string, existing: seq<string>)
    requires IsMark(mark)
    ensures ValidProviderId(SuggestProviderId(source, mark, existing))
    ensures ValidateProviderId(SuggestProviderId(source, mark, existing)) == Some(SuggestProviderId(source, mark, existing))
  {
    BaseShape(source);
    var id := SuggestProviderId(source, mark, existing);
    var stem := Take(IdBase(source), 55);
    forall i | 0 <= i < |id| ensures IsIdChar(id[i]) {
      if IdBase(source) in existing && i > |stem| {
        assert id[i] == mark[i - |stem| - 1];
      }
    }
    ProviderStripped(id);
  }

  // ---------- references ----------

  const KEY_LIMIT := 96

  function MakeModelRef(provider: string, key: string): Option<string> {
    var p := ValidateProviderId(provider);
    var k := Strip(key);
    if p.None? || k == "" || '/' in k || |k| > KEY_LIMIT then None else Some(p.value + "/" + k)
  }

  /** Where the first slash is, or the end. */
  function SlashAt(s: string): (n: nat)
    ensures n <= |s| && (n < |s| ==> s[n] == '/')
    ensures forall i :: 0 <= i < n ==> s[i] != '/'
  {
    if s == "" || s[0] == '/' then 0 else 1 + SlashAt(s[1..])
  }

  function SplitModelRef(ref: string): Option<(string, string)> {
    var s := Strip(ref);
    var n := SlashAt(s);
    if n == |s| then None
    else
      var canonical := MakeModelRef(s[..n], s[n + 1..]);
      if canonical.None? then None
      else
        var m := SlashAt(canonical.value);
        if m == |canonical.value| then None else Some((canonical.value[..m], canonical.value[m + 1..]))
  }

  lemma {:induction false} SlashIs(p: string, k: string)
    requires '/' !in p
    ensures SlashAt(p + "/" + k) == |p|
    ensures (p + "/" + k)[..|p|] == p && (p + "/" + k)[|p| + 1..] == k
  {
    var s := p + "/" + k;
    assert s[|p|] == '/';
    assert forall i :: 0 <= i < |p| ==> s[i] == p[i];
  }

  lemma {:induction false} StripNothing(s: string)
    requires s == "" || (!IsSpace(s[0]) && !IsSpace(s[|s| - 1]))
    ensures Strip(s) == s
  {
  }

  lemma {:induction false} StripTwice(s: string)
    ensures Strip(s) == "" || (!IsSpace(Strip(s)[0]) && !IsSpace(Strip(s)[|Strip(s)| - 1]))
    ensures Strip(Strip(s)) == Strip(s)
  {
    var r := RStrip(s);
    LStripped(r);
    StripNothing(LStrip(r));
  }

  lemma {:induction false} LStripped(s: string)
    ensures LStrip(s) == "" || (!IsSpace(LStrip(s)[0]) && LStrip(s)[|LStrip(s)| - 1] == s[|s| - 1])
    ensures |LStrip(s)| <= |s|
  {
    if s != "" && IsSpace(s[0]) {
      LStripped(s[1..]);
    }
  }

  predicate ValidModelKey(k: string) {
    k != "" && '/' !in k && |k| <= KEY_LIMIT && !IsSpace(k[0]) && !IsSpace(k[|k| - 1])
  }

  lemma {:induction false} ProviderStripped(p: string)
    requires ValidProviderId(p)
    ensures Strip(p) == p && '/' !in p && !IsSpace(p[0])
  {
    StripNothing(p);
  }

  /** Splitting a reference made from a valid provider id and key gives both back. */
  lemma {:induction false} RefRoundTrip(p: string, k: string)
    requires ValidProviderId(p) && ValidModelKey(k)
    ensures MakeModelRef(p, k) == Some(p + "/" + k)
    ensures SplitModelRef(p + "/" + k) == Some((p, k))
  {
    ProviderStripped(p);
    StripNothing(k);
    var ref := p + "/" + k;
    assert ref[0] == p[0] && ref[|ref| - 1] == k[|k| - 1];
    StripNothing(ref);
    SlashIs(p, k);
  }

  /** At the default length every generated key can be put into a reference and got back. */
  lemma {:induction false} KeyRefRoundTrip(p: string, raw: string, fold: string -> string, digest: string -> string, key: string)
    requires ValidProviderId(p) && IsDigest(digest) && MakeModelKey(raw, fold, digest, KEY_LIMIT) == Some(key)
    ensures MakeModelRef(p, key).Some? && SplitModelRef(MakeModelRef(p, key).value) == Some((p, key))
  {
    KeyShape(raw, fold, digest, KEY_LIMIT, key);
    RefRoundTrip(p, key);
  }

  /** Whatever splits has a valid provider id and key, and making a reference of them splits the same way. */
  lemma {:induction false} SplitIsValid(ref: string)
    requires SplitModelRef(ref).Some?
    ensures var (p, k) := SplitModelRef(ref).value;
      ValidProviderId(p) && ValidModelKey(k) && MakeModelRef(p, k).Some? && SplitModelRef(MakeModelRef(p, k).value) == Some((p, k))
  {
    var s := Strip(ref);
    var n := SlashAt(s);
    var p, k := Strip(s[..n]), Strip(s[n + 1..]);
    StripTwice(s[n + 1..]);
    ProviderStripped(p);
    SlashIs(p, k);
    RefRoundTrip(p, k);
  }

  /** References are injective. */
  lemma {:induction false} RefsInjective(p: string, k: string, q: string, l: string)
    requires ValidProviderId(p) && ValidModelKey(k) && ValidProviderId(q) && ValidModelKey(l)
    requires p + "/" + k == q + "/" + l
    ensures p == q && k == l
  {
    RefRoundTrip(p, k);
    RefRoundTrip(q, l);
  }

  /** `make_model_key` at its default length, as a function of the upstream id. */
  function DefaultKeys(fold: string -> string, digest: string -> string): string -> Option<string> {
    (upstreamId: string) => MakeModelKey(upstreamId, fold, digest, KEY_LIMIT)
  }

  /** Keys can be put into references. */
  ghost predicate ValidKeys(keyOf: string -> Option<string>) {
    forall u: string :: keyOf(u).Some? ==> ValidModelKey(keyOf(u).value)
  }

  lemma {:induction false} KeysAreValid(fold: string -> string, digest: string -> string)
    requires IsDigest(digest)
    ensures ValidKeys(DefaultKeys(fold, digest))
  {
    var keyOf := DefaultKeys(fold, digest);
    forall u: string | keyOf(u).Some? ensures ValidModelKey(keyOf(u).value) {
      KeyShape(u, fold, digest, KEY_LIMIT, keyOf(u).value);
    }
  }
}
