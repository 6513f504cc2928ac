/**
 * The condition-code resolver of `obter_codigos_condicao_saude.py`: text
 * normalisation, the preset alias index, first-occurrence deduplication of
 * codes and matches, the LIKE patterns and code shapes, and the three-way
 * outcome (preset, database, fallback) with the database as an oracle.
 */
module ConditionCodes {
  import opened Wrappers
  import opened Text
  import opened Sql
  import opened Guard

  // ---------------------------------------------------------------- text normalisation

  /** Characters of combining class other than 0 in the block U+0300..U+036F (U+034F has class 0). */
  predicate IsCombining(c: char) {
    '\U{300}' <= c <= '\U{36F}' && c != '\U{34F}'
  }

  predicate IsAscii(c: char) { c < '\U{80}' }

  /**
   * NFKD decomposition followed by removal of combining marks, for one
   * character of Latin-1 or of the combining block. ASCII and every other
   * character is kept as it is.
   */
  function Fold(c: char): (r: string)
    ensures IsAscii(c) ==> r == [c]
    ensures IsCombining(c) ==> r == []
    ensures |r| <= 3
  {
    if c < '\U{A0}' then [c]
    // no-break space and the spacing accents decompose to a space (plus a mark)
    else if c == '\U{A0}' || c == '\U{A8}' || c == '\U{AF}' || c == '\U{B4}' || c == '\U{B8}' then " "
    else if c == '\U{AA}' then "a"
    else if c == '\U{BA}' then "o"
    else if c == '\U{B9}' then "1"
    else if c == '\U{B2}' then "2"
    else if c == '\U{B3}' then "3"
    else if c == '\U{B5}' then ['\U{3BC}']
    else if c == '\U{BC}' then ['1', '\U{2044}', '4']
    else if c == '\U{BD}' then ['1', '\U{2044}', '2']
    else if c == '\U{BE}' then ['3', '\U{2044}', '4']
    else if '\U{C0}' <= c <= '\U{C5}' then "A"
    else if c == '\U{C7}' then "C"
    else if '\U{C8}' <= c <= '\U{CB}' then "E"
    else if '\U{CC}' <= c <= '\U{CF}' then "I"
    else if c == '\U{D1}' then "N"
    else if '\U{D2}' <= c <= '\U{D6}' then "O"
    else if '\U{D9}' <= c <= '\U{DC}' then "U"
    else if c == '\U{DD}' then "Y"
    else if '\U{E0}' <= c <= '\U{E5}' then "a"
    else if c == '\U{E7}' then "c"
    else if '\U{E8}' <= c <= '\U{EB}' then "e"
    else if '\U{EC}' <= c <= '\U{EF}' then "i"
    else if c == '\U{F1}' then "n"
    else if '\U{F2}' <= c <= '\U{F6}' then "o"
    else if '\U{F9}' <= c <= '\U{FC}' then "u"
    else if c == '\U{FD}' || c == '\U{FF}' then "y"
    else if IsCombining(c) then ""
    else [c]
  }

  /** `unicodedata.normalize("NFKD", s)` with the combining marks dropped. */
  function FoldAll(s: string): (r: string)
    ensures (forall i | 0 <= i < |s| :: IsAscii(s[i])) ==> r == s
  {
    if s == [] then [] else Fold(s[0]) + FoldAll(s[1..])
  }

  /** The class `[^a-z0-9\\s]` of line 159 keeps lower-case letters, digits and the backslash. */
  predicate Kept(c: char) {
    IsLowerAlnum(c) || c == '\\'
  }

  /** Every character outside the kept class becomes a space. */
  function Mask(s: string): (r: string)
    ensures |r| == |s|
    ensures forall i | 0 <= i < |s| :: r[i] == (if Kept(s[i]) then s[i] else ' ')
  {
    seq(|s|, i requires 0 <= i < |s| => if Kept(s[i]) then s[i] else ' ')
  }

  /** Number of leading `s` characters. */
  function RunOfS(s: string): (n: nat)
    ensures n <= |s|
    ensures forall i | 0 <= i < n :: s[i] == 's'
    ensures n < |s| ==> s[n] != 's'
  {
    if s != [] && s[0] == 's' then 1 + RunOfS(s[1..]) else 0
  }

  /** A backslash directly followed by `s`: where the pattern `\\s+` starts a match. */
  predicate BackslashSAt(s: string, i: int) {
    0 <= i && i + 1 < |s| && s[i] == '\\' && s[i + 1] == 's'
  }

  /**
   * `re.sub(r"\\s+", rep, s)`: every backslash followed by a run of `s`
   * characters is replaced by `rep`, scanning left to right.
   */
  function ReplaceBackslashS(s: string, rep: string): (r: string)
    ensures forall i | 0 <= i < |r| :: r[i] in s || r[i] in rep
    ensures (forall i | 0 <= i < |s| :: !BackslashSAt(s, i)) ==> r == s
    ensures 's' !in rep && r != [] && r[0] == 's' ==> s != [] && s[0] == 's'
    decreases |s|
  {
    if s == [] then []
    else if BackslashSAt(s, 0) then rep + ReplaceBackslashS(s[1 + RunOfS(s[1..])..], rep)
    else
      assert forall i | 0 <= i < |s| - 1 :: BackslashSAt(s[1..], i) == BackslashSAt(s, i + 1);
      [s[0]] + ReplaceBackslashS(s[1..], rep)
  }

  /** The characters `_normalize_text` can leave: `a-z`, `0-9`, the space and the backslash. */
  predicate NormalChar(c: char) {
    Kept(c) || c == ' '
  }

  /** `_normalize_text`: fold, lower-case, mask, replace backslash-s runs by a space, strip. */
  function NormalizeText(value: Option<string>): (r: string)
    ensures value.None? ==> r == ""
    ensures forall i | 0 <= i < |r| :: NormalChar(r[i])
    ensures NoEdgeSpace(r)
  {
    if value.None? then ""
    else
      var masked := Mask(Lower(FoldAll(value.value)));
      var replaced := ReplaceBackslashS(masked, " ");
      ReplaceKeepsNormal(masked);
      StripKeepsNormal(replaced);
      Strip(replaced)
  }

  /** The replacement only brings in spaces, so normal characters stay normal. */
  lemma ReplaceKeepsNormal(s: string)
    requires forall i | 0 <= i < |s| :: NormalChar(s[i])
    ensures forall i | 0 <= i < |ReplaceBackslashS(s, " ")| :: NormalChar(ReplaceBackslashS(s, " ")[i])
  {
    var r := ReplaceBackslashS(s, " ");
    forall i | 0 <= i < |r| ensures NormalChar(r[i]) {
      if r[i] in s {
        var j :| 0 <= j < |s| && s[j] == r[i];
      }
    }
  }

  /** Stripping keeps a slice, so normal characters stay normal. */
  lemma StripKeepsNormal(s: string)
    requires forall i | 0 <= i < |s| :: NormalChar(s[i])
    ensures forall i | 0 <= i < |Strip(s)| :: NormalChar(Strip(s)[i])
  {
    StripSlice(s);
    var k := StripStart(s);
    forall i | 0 <= i < |Strip(s)| ensures NormalChar(Strip(s)[i]) {
      assert Strip(s)[i] == s[k + i];
    }
  }

  /** Stripping keeps a slice, so no backslash before an `s` appears. */
  lemma StripKeepsNoBackslashS(s: string)
    requires forall i | 0 <= i < |s| :: !BackslashSAt(s, i)
    ensures forall i | 0 <= i < |Strip(s)| :: !BackslashSAt(Strip(s), i)
  {
    StripSlice(s);
    var k := StripStart(s);
    var r := Strip(s);
    forall i | 0 <= i < |r| ensures !BackslashSAt(r, i) {
      assert BackslashSAt(r, i) ==> BackslashSAt(s, k + i);
    }
  }

  /** What `_normalize_text` returns: normal characters, no edge space, no backslash before an `s`. */
  predicate IsNormalized(s: string) {
    && (forall i | 0 <= i < |s| :: NormalChar(s[i]))
    && NoEdgeSpace(s)
    && (forall i | 0 <= i < |s| :: !BackslashSAt(s, i))
  }

  /** After the replacement no backslash is followed by an `s`. */
  lemma {:induction false} ReplaceLeavesNoBackslashS(s: string)
    ensures forall i | 0 <= i < |ReplaceBackslashS(s, " ")| :: !BackslashSAt(ReplaceBackslashS(s, " "), i)
    decreases |s|
  {
    var r := ReplaceBackslashS(s, " ");
    if s == [] {
    } else if BackslashSAt(s, 0) {
      var rest := s[1 + RunOfS(s[1..])..];
      ReplaceLeavesNoBackslashS(rest);
      var tail := ReplaceBackslashS(rest, " ");
      assert r == " " + tail;
      forall i | 0 <= i < |r|
        ensures !BackslashSAt(r, i)
      {
        if i > 0 {
          assert BackslashSAt(r, i) == BackslashSAt(tail, i - 1);
        }
      }
    } else {
      ReplaceLeavesNoBackslashS(s[1..]);
      var tail := ReplaceBackslashS(s[1..], " ");
      assert r == [s[0]] + tail;
      forall i | 0 <= i < |r|
        ensures !BackslashSAt(r, i)
      {
        if i > 0 {
          assert BackslashSAt(r, i) == BackslashSAt(tail, i - 1);
        }
      }
    }
  }

  /** `_normalize_text` always returns normalised text. */
  lemma NormalizeTextIsNormalized(value: Option<string>)
    ensures IsNormalized(NormalizeText(value))
  {
    if value.Some? {
      var masked := Mask(Lower(FoldAll(value.value)));
      var replaced := ReplaceBackslashS(masked, " ");
      ReplaceLeavesNoBackslashS(masked);
      StripKeepsNoBackslashS(replaced);
      assert NormalizeText(value) == Strip(replaced);
    }
  }

  /** Folding, lower-casing and masking leave normal characters as they are. */
  lemma NormalCharsFixed(s: string)
    requires forall i | 0 <= i < |s| :: NormalChar(s[i])
    ensures Mask(Lower(FoldAll(s))) == s
  {
    FoldAllAscii(s);
    LowerNormal(s);
    MaskNormal(s);
  }

  lemma {:induction false} FoldAllAscii(s: string)
    requires forall i | 0 <= i < |s| :: NormalChar(s[i])
    ensures FoldAll(s) == s
  {
    if s != [] {
      assert NormalChar(s[0]);
      assert Fold(s[0]) == [s[0]];
      FoldAllAscii(s[1..]);
      assert s == [s[0]] + s[1..];
    }
  }

  lemma LowerNormal(s: string)
    requires forall i | 0 <= i < |s| :: NormalChar(s[i])
    ensures Lower(s) == s
  {
    forall i | 0 <= i < |s| ensures Lower(s)[i] == s[i] {
      assert NormalChar(s[i]);
    }
  }

  lemma MaskNormal(s: string)
    requires forall i | 0 <= i < |s| :: NormalChar(s[i])
    ensures Mask(s) == s
  {
    forall i | 0 <= i < |s| ensures Mask(s)[i] == s[i] {
      assert NormalChar(s[i]);
    }
  }

  /** Normalised text is a fixed point of `_normalize_text`. */
  lemma NormalizeFixed(s: string)
    requires IsNormalized(s)
    ensures NormalizeText(Some(s)) == s
  {
    NormalCharsFixed(s);
    assert ReplaceBackslashS(s, " ") == s;
    StripClean(s);
  }

  /** Normalising twice is normalising once. */
  lemma NormalizeTextIdempotent(value: Option<string>)
    ensures NormalizeText(Some(NormalizeText(value))) == NormalizeText(value)
  {
    NormalizeTextIsNormalized(value);
    NormalizeFixed(NormalizeText(value));
  }

  // ---------------------------------------------------------------- preset alias index

  /** `_PRESET_ALIASES` in the dictionary's order; the aliases of one key form a set. */
  const PresetAliases: seq<(string, set<string>)> := [
    ("gravidez", {"gravidez", "gestacao"}),
    ("desfecho gestacao", {"desfecho gestacao", "desfecho da gestacao", "desfecho de gestacao", "desfecho gravidez"}),
    ("diabetes", {"diabetes", "diabetes mellitus"}),
    ("hipertensao", {"hipertensao", "hipertensao arterial", "has"})
  ]

  /** `_normalize_text` applied to one alias. */
  function AliasForm(a: string): string {
    NormalizeText(Some(a))
  }

  /** The non-empty forms of a set of aliases under a normaliser. */
  function NormalizedAliases(aliases: set<string>, norm: string -> string): set<string> {
    set a | a in aliases && norm(a) != "" :: norm(a)
  }

  /**
   * `_build_alias_index` over a normaliser: each non-empty normalised alias
   * maps to its key; a later key overrides an earlier one for the same form.
   */
  function AliasIndex(ps: seq<(string, set<string>)>, norm: string -> string): map<string, string> {
    if ps == [] then map[]
    else
      var last := ps[|ps| - 1];
      AliasIndex(ps[..|ps| - 1], norm) + map n | n in NormalizedAliases(last.1, norm) :: last.0
  }


  /** Every entry of the index is a non-empty normalised alias of some key, and maps to that key. */
  lemma {:induction false} AliasIndexEntries(ps: seq<(string, set<string>)>, norm: string -> string, n: string)
    requires n in AliasIndex(ps, norm)
    ensures n != ""
    ensures exists j | 0 <= j < |ps| :: n in NormalizedAliases(ps[j].1, norm) && AliasIndex(ps, norm)[n] == ps[j].0
  {
    var last := ps[|ps| - 1];
    var front := ps[..|ps| - 1];
    if n in NormalizedAliases(last.1, norm) {
      assert AliasIndex(ps, norm)[n] == ps[|ps| - 1].0;
    } else {
      AliasIndexEntries(front, norm, n);
      var j :| 0 <= j < |front| && n in NormalizedAliases(front[j].1, norm) && AliasIndex(front, norm)[n] == front[j].0;
      assert ps[j] == front[j];
    }
  }

  /** An alias maps to its own key unless a later key has an alias with the same form. */
  lemma {:induction false} AliasIndexLookup(ps: seq<(string, set<string>)>, norm: string -> string, i: nat, a: string)
    requires i < |ps| && a in ps[i].1 && norm(a) != ""
    requires forall j | i < j < |ps| :: norm(a) !in NormalizedAliases(ps[j].1, norm)
    ensures norm(a) in AliasIndex(ps, norm)
    ensures AliasIndex(ps, norm)[norm(a)] == ps[i].0
  {
    var front := ps[..|ps| - 1];
    if i < |ps| - 1 {
      assert front[i] == ps[i];
      forall j | i < j < |front|
        ensures norm(a) !in NormalizedAliases(front[j].1, norm)
      {
        assert front[j] == ps[j];
      }
      AliasIndexLookup(front, norm, i, a);
    } else {
      assert norm(a) in NormalizedAliases(ps[i].1, norm);
    }
  }

  /** The entries one key contributes for the aliases visited so far. */
  function AliasEntries(aliases: set<string>, norm: string -> string, key: string): map<string, string> {
    map n | n in NormalizedAliases(aliases, norm) :: key
  }

  lemma AliasEntriesStep(start: map<string, string>, done: set<string>, norm: string -> string, a: string, key: string)
    ensures norm(a) != "" ==>
      start + AliasEntries(done + {a}, norm, key) == (start + AliasEntries(done, norm, key))[norm(a) := key]
    ensures norm(a) == "" ==> start + AliasEntries(done + {a}, norm, key) == start + AliasEntries(done, norm, key)
  {
    if norm(a) != "" {
      assert NormalizedAliases(done + {a}, norm) == NormalizedAliases(done, norm) + {norm(a)};
      assert AliasEntries(done + {a}, norm, key).Keys == AliasEntries(done, norm, key)[norm(a) := key].Keys;
      assert AliasEntries(done + {a}, norm, key) == AliasEntries(done, norm, key)[norm(a) := key];
    } else {
      assert NormalizedAliases(done + {a}, norm) == NormalizedAliases(done, norm);
    }
  }

  lemma AliasIndexStep(ps: seq<(string, set<string>)>, norm: string -> string, i: nat)
    requires i < |ps|
    ensures AliasIndex(ps[..i + 1], norm) == AliasIndex(ps[..i], norm) + AliasEntries(ps[i].1, norm, ps[i].0)
  {
    assert ps[..i + 1][..i] == ps[..i];
  }

  /** Taking one alias out of those remaining adds it to those visited. */
  lemma VisitOne(aliases: set<string>, remaining: set<string>, alias: string)
    requires alias in remaining && remaining <= aliases
    ensures aliases - (remaining - {alias}) == (aliases - remaining) + {alias}
  {
  }

  /** The inner loop of `_build_alias_index`: one key's aliases, in no fixed order. */
  method AddAliases(start: map<string, string>, aliases: set<string>, key: string) returns (index: map<string, string>)
    ensures index == start + AliasEntries(aliases, AliasForm, key)
  {
    index := start;
    var remaining := aliases;
    while remaining != {}
      invariant remaining <= aliases
      invariant index == start + AliasEntries(aliases - remaining, AliasForm, key)
      decreases |remaining|
    {
      var alias :| alias in remaining;
      var normalized := NormalizeText(Some(alias));
      ghost var done := aliases - remaining;
      AliasEntriesStep(start, done, AliasForm, alias, key);
      assert normalized == AliasForm(alias);
      VisitOne(aliases, remaining, alias);
      remaining := remaining - {alias};
      if normalized != "" {
        index := index[normalized := key];
      }
    }
    assert aliases - remaining == aliases;
  }

  /** `_build_alias_index`: the keys in order, each adding its aliases. */
  method BuildAliasIndex(ps: seq<(string, set<string>)>) returns (index: map<string, string>)
    ensures index == AliasIndex(ps, AliasForm)
  {
    index := map[];
    var i := 0;
    while i < |ps|
      invariant 0 <= i <= |ps|
      invariant index == AliasIndex(ps[..i], AliasForm)
    {
      index := AddAliases(index, ps[i].1, ps[i].0);
      AliasIndexStep(ps, AliasForm, i);
      i := i + 1;
    }
    assert ps[..i] == ps;
  }

  /** Lower-case words separated by spaces, without edge spaces. */
  predicate LowerWords(s: string) {
    s != [] && s[0] != ' ' && s[|s| - 1] != ' ' && forall i | 0 <= i < |s| :: IsLowerLetter(s[i]) || s[i] == ' '
  }

  lemma LowerWordsAreNormal(s: string)
    requires LowerWords(s)
    ensures AliasForm(s) == s
  {
    NormalizeFixed(s);
  }

  /** Every alias is non-empty and is its own normal form. */
  predicate NormalAliases(ps: seq<(string, set<string>)>, norm: string -> string) {
    forall k | 0 <= k < |ps| :: forall b | b in ps[k].1 :: b != "" && norm(b) == b
  }

  /** The preset aliases are written in normal form already. */
  lemma PresetAliasForms()
    ensures NormalAliases(PresetAliases, AliasForm)
  {
    forall j | 0 <= j < |PresetAliases|
      ensures forall a | a in PresetAliases[j].1 :: a != "" && AliasForm(a) == a
    {
      forall a | a in PresetAliases[j].1
        ensures a != "" && AliasForm(a) == a
      {
        assert LowerWords(a);
        LowerWordsAreNormal(a);
      }
    }
  }

  lemma NormalizedAliasesFixed(aliases: set<string>, norm: string -> string)
    requires forall a | a in aliases :: a != "" && norm(a) == a
    ensures NormalizedAliases(aliases, norm) == aliases
  {
  }

  /** No alias belongs to two keys. */
  predicate DisjointAliases(ps: seq<(string, set<string>)>) {
    forall j, k | 0 <= j < k < |ps| :: ps[j].1 !! ps[k].1
  }

  /**
   * When the aliases are already in normal form and no two keys share one,
   * every alias is in the index and maps to its own key.
   */
  lemma IndexOfNormalAlias(ps: seq<(string, set<string>)>, norm: string -> string, j: nat, a: string)
    requires NormalAliases(ps, norm)
    requires DisjointAliases(ps)
    requires j < |ps| && a in ps[j].1
    ensures a in AliasIndex(ps, norm) && AliasIndex(ps, norm)[a] == ps[j].0
  {
    assert a != "" && norm(a) == a;
    forall k | j < k < |ps|
      ensures norm(a) !in NormalizedAliases(ps[k].1, norm)
    {
      assert a !in ps[k].1 by {
        assert ps[j].1 !! ps[k].1;
      }
      NormalizedAliasesFixed(ps[k].1, norm);
    }
    AliasIndexLookup(ps, norm, j, a);
  }

  lemma PresetAliasesDisjoint()
    ensures DisjointAliases(PresetAliases)
  {
  }

  /** Every alias of a preset key is in the preset index under `_normalize_text` and maps to that key. */
  lemma PresetAliasEntry(j: nat, a: string)
    requires j < |PresetAliases| && a in PresetAliases[j].1
    ensures a in AliasIndex(PresetAliases, AliasForm) && AliasIndex(PresetAliases, AliasForm)[a] == PresetAliases[j].0
  {
    PresetAliasForms();
    PresetAliasesDisjoint();
    IndexOfNormalAlias(PresetAliases, AliasForm, j, a);
  }

  /** `"has"` means hypertension and `"gravidez"` pregnancy. */
  lemma PresetIndexExamples()
    ensures "has" in AliasIndex(PresetAliases, AliasForm) && AliasIndex(PresetAliases, AliasForm)["has"] == "hipertensao"
    ensures "gravidez" in AliasIndex(PresetAliases, AliasForm) && AliasIndex(PresetAliases, AliasForm)["gravidez"] == "gravidez"
  {
    PresetAliasEntry(3, "has");
    PresetAliasEntry(0, "gravidez");
  }

  // ---------------------------------------------------------------- deduplication

  /** `str(code).strip().upper()`, or `None` when the code is falsy or strips to nothing. */
  function CodeKey(code: string): (k: Option<string>)
    ensures k.Some? ==> k.value != [] && NoEdgeSpace(k.value) && IsUpperCase(k.value)
    ensures k.None? <==> Strip(code) == []
  {
    if code == [] then
      assert Strip(code) == [];
      None
    else
      var t := Strip(code);
      UpperStripped(t);
      var n := Upper(t);
      if n == [] then None else Some(n)
  }

  /** Some code of the list has `x` as its key. */
  predicate Occurs(codes: seq<string>, x: string) {
    exists i | 0 <= i < |codes| :: CodeKey(codes[i]) == Some(x)
  }

  /** No value appears twice. */
  predicate Distinct(xs: seq<string>) {
    forall p, q | 0 <= p < q < |xs| :: xs[p] != xs[q]
  }

  /**
   * What `_dedupe_codes` returns: the keys of the codes, each kept the first
   * time it appears and skipped afterwards, falsy and blank codes dropped.
   */
  function Deduped(codes: seq<string>): (r: seq<string>)
    ensures |r| <= |codes|
    ensures forall p | 0 <= p < |r| :: r[p] != [] && NoEdgeSpace(r[p]) && IsUpperCase(r[p])
    ensures Distinct(r)
  {
    if codes == [] then []
    else
      var r := Deduped(codes[..|codes| - 1]);
      var k := CodeKey(codes[|codes| - 1]);
      if k.None? || k.value in r then r else r + [k.value]
  }

  /** A value is in the result exactly when it is the key of some input code. */
  lemma {:induction false} DedupedKeys(codes: seq<string>, x: string)
    ensures x in Deduped(codes) <==> Occurs(codes, x)
  {
    if codes != [] {
      var front := codes[..|codes| - 1];
      var k := CodeKey(codes[|codes| - 1]);
      DedupedKeys(front, x);
      assert Deduped(codes) == if k.None? || k.value in Deduped(front) then Deduped(front) else Deduped(front) + [k.value];
      OccursSnoc(codes, x);
    }
  }

  /** A key occurs in a list when it occurs before the last code or is the last code's key. */
  lemma OccursSnoc(codes: seq<string>, x: string)
    requires codes != []
    ensures Occurs(codes, x) <==> Occurs(codes[..|codes| - 1], x) || CodeKey(codes[|codes| - 1]) == Some(x)
  {
    OccursSplit(codes, x);
    OccursInFront(codes, x);
  }

  lemma OccursSplit(codes: seq<string>, x: string)
    requires codes != []
    ensures Occurs(codes, x) ==> Occurs(codes[..|codes| - 1], x) || CodeKey(codes[|codes| - 1]) == Some(x)
  {
    var front := codes[..|codes| - 1];
    if Occurs(codes, x) {
      var i :| 0 <= i < |codes| && CodeKey(codes[i]) == Some(x);
      if i < |front| {
        assert Occurs(front, x) by {
          assert front[i] == codes[i];
        }
      } else {
        assert i == |codes| - 1;
      }
    }
  }

  lemma OccursInFront(codes: seq<string>, x: string)
    requires codes != []
    ensures Occurs(codes[..|codes| - 1], x) ==> Occurs(codes, x)
  {
    var front := codes[..|codes| - 1];
    if Occurs(front, x) {
      var i :| 0 <= i < |front| && CodeKey(front[i]) == Some(x);
      assert Occurs(codes, x) by {
        assert front[i] == codes[i];
      }
    }
  }

  /** Deduplicating a prefix of the input gives a prefix of the result. */
  lemma {:induction false} DedupedPrefix(codes: seq<string>, n: nat)
    requires n <= |codes|
    ensures Deduped(codes[..n]) <= Deduped(codes)
    decreases |codes| - n
  {
    if n < |codes| {
      DedupedPrefix(codes, n + 1);
      DedupedGrows(codes[..n + 1]);
      assert codes[..n + 1][..n] == codes[..n];
    } else {
      assert codes[..n] == codes;
    }
  }

  /** One more code can only append to the result. */
  lemma DedupedGrows(codes: seq<string>)
    requires codes != []
    ensures Deduped(codes[..|codes| - 1]) <= Deduped(codes)
  {
  }

  /**
   * First-occurrence order: a key already seen among the first `n` codes comes
   * before a key that first appears after them.
   */
  lemma DedupedOrder(codes: seq<string>, n: nat, p: nat, q: nat)
    requires n <= |codes| && p < |Deduped(codes)| && q < |Deduped(codes)|
    requires Occurs(codes[..n], Deduped(codes)[p]) && !Occurs(codes[..n], Deduped(codes)[q])
    ensures p < q
  {
    var r := Deduped(codes);
    var front := Deduped(codes[..n]);
    DedupedPrefix(codes, n);
    DedupedKeys(codes[..n], r[p]);
    DedupedKeys(codes[..n], r[q]);
    var p' :| 0 <= p' < |front| && front[p'] == r[p];
    assert r[p'] == front[p'];
    assert p' == p by {
      assert Distinct(r);
    }
    assert r[q] !in front;
    assert q >= |front| by {
      forall k | 0 <= k < |front| ensures r[k] in front {
        assert r[k] == front[k];
      }
    }
  }

  lemma DedupedStep(codes: seq<string>, i: nat)
    requires i < |codes|
    ensures Deduped(codes[..i + 1]) ==
      if CodeKey(codes[i]).None? || CodeKey(codes[i]).value in Deduped(codes[..i]) then Deduped(codes[..i])
      else Deduped(codes[..i]) + [CodeKey(codes[i]).value]
  {
    assert codes[..i + 1][..i] == codes[..i];
  }

  /** The guard and the key of one code, as the loops of both deduplicators compute them. */
  method NormalizeCode(code: string) returns (k: Option<string>)
    ensures k == CodeKey(code)
  {
    if code == "" {
      return None;
    }
    var normalized := Upper(Strip(code));
    if normalized == "" {
      return None;
    }
    return Some(normalized);
  }

  /** Adding a key to both the set seen and the result keeps them in step. */
  lemma SeenSnoc(seen: set<string>, result: seq<string>, v: string)
    requires forall x :: x in seen <==> x in result
    ensures forall x :: x in seen + {v} <==> x in result + [v]
  {
  }

  /** One iteration of `_dedupe_codes`: the code's key is appended unless it is missing or seen. */
  method AddCode(result: seq<string>, seen: set<string>, code: string) returns (next: seq<string>, nextSeen: set<string>)
    requires forall x :: x in seen <==> x in result
    ensures next == if CodeKey(code).None? || CodeKey(code).value in result then result else result + [CodeKey(code).value]
    ensures forall x :: x in nextSeen <==> x in next
  {
    var k := NormalizeCode(code);
    if k.Some? && k.value !in seen {
      SeenSnoc(seen, result, k.value);
      next, nextSeen := result + [k.value], seen + {k.value};
    } else {
      next, nextSeen := result, seen;
    }
  }

  /** `_dedupe_codes`: one pass with a set of the keys seen so far. */
  method DedupeCodes(codes: seq<string>) returns (result: seq<string>)
    ensures result == Deduped(codes)
  {
    var seen: set<string> := {};
    result := [];
    var i := 0;
    while i < |codes|
      invariant 0 <= i <= |codes|
      invariant result == Deduped(codes[..i])
      invariant forall x :: x in seen <==> x in result
    {
      DedupedStep(codes, i);
      result, seen := AddCode(result, seen, codes[i]);
      i := i + 1;
    }
    assert codes[..i] == codes;
  }

  /** A database row: `code` and `description` may be null. */
  datatype Row = Row(code: Option<string>, description: Option<string>)

  /** `HealthConditionCode`: a normalised code and the description of its first row. */
  datatype CodeMatch = CodeMatch(code: string, description: Option<string>)

  /** `row.get("code")` as `_dedupe_matches` tests it: null is falsy like the empty text. */
  function RowCode(row: Row): string {
    if row.code.None? then "" else row.code.value
  }

  function RowCodes(rows: seq<Row>): (r: seq<string>)
    ensures |r| == |rows| && forall i | 0 <= i < |rows| :: r[i] == RowCode(rows[i])
  {
    seq(|rows|, i requires 0 <= i < |rows| => RowCode(rows[i]))
  }

  function Codes(ms: seq<CodeMatch>): (r: seq<string>)
    ensures |r| == |ms| && forall i | 0 <= i < |ms| :: r[i] == ms[i].code
  {
    if ms == [] then [] else Codes(ms[..|ms| - 1]) + [ms[|ms| - 1].code]
  }

  lemma CodesSnoc(ms: seq<CodeMatch>, m: CodeMatch)
    ensures Codes(ms + [m]) == Codes(ms) + [m.code]
  {
    assert (ms + [m])[..|ms|] == ms;
  }

  /** One row of `_dedupe_matches`: a new non-blank key adds a match, anything else is skipped. */
  function AddRow(ms: seq<CodeMatch>, row: Row): seq<CodeMatch> {
    var k := CodeKey(RowCode(row));
    if k.None? || k.value in Codes(ms) then ms else ms + [CodeMatch(k.value, row.description)]
  }

  /**
   * What `_dedupe_matches` returns: a match for the first row of each distinct
   * row code, in first-occurrence order.
   */
  function DedupedMatches(rows: seq<Row>): (ms: seq<CodeMatch>)
    ensures |ms| <= |rows|
  {
    if rows == [] then [] else AddRow(DedupedMatches(rows[..|rows| - 1]), rows[|rows| - 1])
  }

  /** The codes of the matches are exactly `_dedupe_codes` of the row codes. */
  lemma {:induction false} DedupedMatchesCodes(rows: seq<Row>)
    ensures Codes(DedupedMatches(rows)) == Deduped(RowCodes(rows))
  {
    if rows != [] {
      var front := rows[..|rows| - 1];
      var ms := DedupedMatches(front);
      var last := rows[|rows| - 1];
      var k := CodeKey(RowCode(last));
      DedupedMatchesCodes(front);
      assert RowCodes(rows)[..|rows| - 1] == RowCodes(front);
      if !(k.None? || k.value in Codes(ms)) {
        assert Codes(ms + [CodeMatch(k.value, last.description)]) == Codes(ms) + [k.value];
      }
    }
  }

  /** The first row whose code has key `x`. */
  predicate FirstRowWith(rows: seq<Row>, i: int, x: string) {
    && 0 <= i < |rows|
    && CodeKey(RowCode(rows[i])) == Some(x)
    && forall j | 0 <= j < i :: CodeKey(RowCode(rows[j])) != Some(x)
  }

  /** A key not yet matched before the last row first occurs in the last row. */
  lemma NewKeyFirstRow(rows: seq<Row>, x: string)
    requires rows != [] && CodeKey(RowCode(rows[|rows| - 1])) == Some(x)
    requires x !in Codes(DedupedMatches(rows[..|rows| - 1]))
    ensures FirstRowWith(rows, |rows| - 1, x)
  {
    var front := rows[..|rows| - 1];
    forall j | 0 <= j < |rows| - 1
      ensures CodeKey(RowCode(rows[j])) != Some(x)
    {
      if CodeKey(RowCode(rows[j])) == Some(x) {
        assert rows[j] == front[j];
        DedupedMatchesKeys(front, j);
        assert false;
      }
    }
  }

  /** A first row among a prefix is a first row of the whole list. */
  lemma FirstRowExtends(rows: seq<Row>, n: nat, i: int, x: string)
    requires n <= |rows| && FirstRowWith(rows[..n], i, x)
    ensures FirstRowWith(rows, i, x)
  {
    forall j | 0 <= j <= i
      ensures rows[j] == rows[..n][j]
    {
    }
  }

  /** Each match carries the description of the first row with its code. */
  lemma {:induction false} DedupedMatchesDescription(rows: seq<Row>, p: nat)
    requires p < |DedupedMatches(rows)|
    ensures exists i :: FirstRowWith(rows, i, DedupedMatches(rows)[p].code)
                        && DedupedMatches(rows)[p].description == rows[i].description
  {
    var last := |rows| - 1;
    var ms := DedupedMatches(rows[..last]);
    var all := DedupedMatches(rows);
    assert all == AddRow(ms, rows[last]);
    if p < |ms| {
      assert all[p] == ms[p];
      DedupedMatchesDescription(rows[..last], p);
      var i :| FirstRowWith(rows[..last], i, ms[p].code) && ms[p].description == rows[..last][i].description;
      FirstRowExtends(rows, last, i, ms[p].code);
      assert rows[..last][i] == rows[i];
    } else {
      var k := CodeKey(RowCode(rows[last]));
      assert all[p] == CodeMatch(k.value, rows[last].description);
      NewKeyFirstRow(rows, k.value);
    }
  }

  /** Every row with a non-blank code has its key among the matches. */
  lemma DedupedMatchesKeys(rows: seq<Row>, j: nat)
    requires j < |rows| && CodeKey(RowCode(rows[j])).Some?
    ensures CodeKey(RowCode(rows[j])).value in Codes(DedupedMatches(rows))
  {
    var x := CodeKey(RowCode(rows[j])).value;
    DedupedMatchesCodes(rows);
    assert CodeKey(RowCodes(rows)[j]) == Some(x);
    DedupedKeys(RowCodes(rows), x);
  }

  lemma DedupedMatchesStep(rows: seq<Row>, i: nat)
    requires i < |rows|
    ensures DedupedMatches(rows[..i + 1]) == AddRow(DedupedMatches(rows[..i]), rows[i])
  {
    assert rows[..i + 1][..i] == rows[..i];
  }

  /** The body of the loop of `_dedupe_matches`, with `seen` holding the codes matched so far. */
  method AddMatch(matches: seq<CodeMatch>, seen: set<string>, row: Row) returns (next: seq<CodeMatch>, nextSeen: set<string>)
    requires forall x :: x in seen <==> x in Codes(matches)
    ensures next == AddRow(matches, row)
    ensures forall x :: x in nextSeen <==> x in Codes(next)
  {
    var k := NormalizeCode(RowCode(row));
    if k.Some? && k.value !in seen {
      var m := CodeMatch(k.value, row.description);
      CodesSnoc(matches, m);
      next, nextSeen := matches + [m], seen + {k.value};
    } else {
      next, nextSeen := matches, seen;
    }
  }

  /** `_dedupe_matches`: the same pass as `_dedupe_codes`, keeping each first row's description. */
  method DedupeMatches(rows: seq<Row>) returns (matches: seq<CodeMatch>)
    ensures matches == DedupedMatches(rows)
  {
    var seen: set<string> := {};
    matches := [];
    var i := 0;
    while i < |rows|
      invariant 0 <= i <= |rows|
      invariant matches == DedupedMatches(rows[..i])
      invariant forall x :: x in seen <==> x in Codes(matches)
    {
      DedupedMatchesStep(rows, i);
      matches, seen := AddMatch(matches, seen, rows[i]);
      i := i + 1;
    }
    assert rows[..i] == rows;
  }

  // ---------------------------------------------------------------- LIKE patterns

  /** Number of leading characters of the class `[a-z0-9]`. */
  function AlnumRun(s: string): (n: nat)
    ensures n <= |s|
    ensures forall i | 0 <= i < n :: IsLowerAlnum(s[i])
    ensures n < |s| ==> !IsLowerAlnum(s[n])
  {
    if s != [] && IsLowerAlnum(s[0]) then 1 + AlnumRun(s[1..]) else 0
  }

  /** `re.findall(r"[a-z0-9]+", s)`: the maximal runs of lower-case letters and digits, left to right. */
  function Tokens(s: string): (ts: seq<string>)
    ensures forall k | 0 <= k < |ts| :: ts[k] != [] && forall i | 0 <= i < |ts[k]| :: IsLowerAlnum(ts[k][i])
    decreases |s|
  {
    if s == [] then []
    else if !IsLowerAlnum(s[0]) then Tokens(s[1..])
    else
      var n := AlnumRun(s);
      [s[..n]] + Tokens(s[n..])
  }

  /** A non-empty run of letters and digits is one token, kept whole. */
  lemma TokensOfRun(w: string)
    requires w != [] && forall i | 0 <= i < |w| :: IsLowerAlnum(w[i])
    ensures Tokens(w) == [w]
  {
    assert AlnumRun(w) == |w|;
    assert w[..|w|] == w;
    assert w[|w|..] == [];
  }

  /**
   * Any character outside `[a-z0-9]` separates tokens: the tokens on either
   * side of it are found independently and no token spans it. With
   * TokensOfRun, this pins the tokens down as the maximal runs.
   */
  lemma {:induction false} TokensSplit(a: string, c: char, b: string)
    requires !IsLowerAlnum(c)
    ensures Tokens(a + [c] + b) == Tokens(a) + Tokens(b)
    decreases |a|
  {
    var s := a + [c] + b;
    if a == [] {
      assert s[1..] == b;
    } else if !IsLowerAlnum(a[0]) {
      assert s[1..] == a[1..] + [c] + b;
      TokensSplit(a[1..], c, b);
    } else {
      var m := AlnumRun(a);
      assert s[m] == if m < |a| then a[m] else c;
      assert AlnumRun(s) == m;
      assert s[..m] == a[..m];
      if m < |a| {
        assert s[m..] == a[m..] + [c] + b;
        TokensSplit(a[m..], c, b);
      } else {
        assert s[m..] == [c] + b;
        assert ([c] + b)[1..] == b;
        assert a[..m] == a;
        assert a[m..] == [];
      }
    }
  }

  /** `_token_like`: the tokens joined by `%`, with a `%` at each end; `%` alone when there are none. */
  function TokenLike(normalized: string): (r: string)
    ensures r != [] && r[0] == '%' && r[|r| - 1] == '%'
  {
    var ts := Tokens(normalized);
    if ts == [] then "%" else "%" + Text.Join(ts, "%") + "%"
  }

  /** The characters of `[a-z0-9]` in `s`, in order. */
  function AlnumOnly(s: string): string {
    if s == [] then [] else (if IsLowerAlnum(s[0]) then [s[0]] else []) + AlnumOnly(s[1..])
  }

  /** `s` with every `%` removed. */
  function NoWildcards(s: string): string {
    if s == [] then [] else (if s[0] == '%' then [] else [s[0]]) + NoWildcards(s[1..])
  }

  function Concat(ts: seq<string>): string {
    if ts == [] then [] else ts[0] + Concat(ts[1..])
  }

  lemma {:induction false} AlnumOnlyAppend(a: string, b: string)
    ensures AlnumOnly(a + b) == AlnumOnly(a) + AlnumOnly(b)
  {
    if a != [] {
      assert (a + b)[1..] == a[1..] + b;
      AlnumOnlyAppend(a[1..], b);
    } else {
      assert a + b == b;
    }
  }

  lemma {:induction false} AlnumOnlyOfRun(s: string)
    requires forall i | 0 <= i < |s| :: IsLowerAlnum(s[i])
    ensures AlnumOnly(s) == s
  {
    if s != [] {
      AlnumOnlyOfRun(s[1..]);
    }
  }

  /** The tokens, put back together, are exactly the letters and digits of the text. */
  lemma {:induction false} TokensConcat(s: string)
    ensures Concat(Tokens(s)) == AlnumOnly(s)
    decreases |s|
  {
    if s != [] {
      if !IsLowerAlnum(s[0]) {
        TokensConcat(s[1..]);
      } else {
        var n := AlnumRun(s);
        TokensConcat(s[n..]);
        assert s == s[..n] + s[n..];
        AlnumOnlyAppend(s[..n], s[n..]);
        AlnumOnlyOfRun(s[..n]);
        assert ([s[..n]] + Tokens(s[n..]))[1..] == Tokens(s[n..]);
      }
    }
  }

  lemma {:induction false} NoWildcardsAppend(a: string, b: string)
    ensures NoWildcards(a + b) == NoWildcards(a) + NoWildcards(b)
  {
    if a != [] {
      assert (a + b)[1..] == a[1..] + b;
      NoWildcardsAppend(a[1..], b);
    } else {
      assert a + b == b;
    }
  }

  lemma {:induction false} NoWildcardsOfAlnum(s: string)
    requires forall i | 0 <= i < |s| :: IsLowerAlnum(s[i])
    ensures NoWildcards(s) == s
  {
    if s != [] {
      NoWildcardsOfAlnum(s[1..]);
    }
  }

  /** Removing the separators of a `%`-join of alphanumeric tokens concatenates the tokens. */
  lemma {:induction false} NoWildcardsJoin(ts: seq<string>)
    requires forall k | 0 <= k < |ts| :: forall i | 0 <= i < |ts[k]| :: IsLowerAlnum(ts[k][i])
    ensures NoWildcards(Text.Join(ts, "%")) == Concat(ts)
  {
    if ts != [] {
      NoWildcardsOfAlnum(ts[0]);
      var rest := ts[1..];
      assert Concat(ts) == ts[0] + Concat(rest);
      if |ts| == 1 {
        assert Concat(rest) == [];
        assert ts[0] + [] == ts[0];
      } else {
        var tail := Text.Join(rest, "%");
        assert Text.Join(ts, "%") == ts[0] + "%" + tail;
        NoWildcardsJoin(rest);
        NoWildcardsAppend(ts[0] + "%", tail);
        NoWildcardsAppend(ts[0], "%");
        assert NoWildcards("%") == [];
        assert NoWildcards(ts[0] + "%") == ts[0];
      }
    }
  }

  /**
   * The pattern keeps every letter and digit of the normalised text, in order,
   * and adds nothing but `%` wildcards; it is `%` alone exactly when the text
   * has no letter or digit.
   */
  lemma TokenLikeContent(normalized: string)
    ensures NoWildcards(TokenLike(normalized)) == AlnumOnly(normalized)
    ensures TokenLike(normalized) == "%" <==> AlnumOnly(normalized) == []
  {
    var ts := Tokens(normalized);
    TokensConcat(normalized);
    if ts != [] {
      NoWildcardsJoin(ts);
      NoWildcardsAppend("%" + Text.Join(ts, "%"), "%");
      NoWildcardsAppend("%", Text.Join(ts, "%"));
      assert Concat(ts) == ts[0] + Concat(ts[1..]);
      assert |TokenLike(normalized)| >= 2;
    }
  }

  // ---------------------------------------------------------------- code shapes

  /** The two compiled patterns `_code_like` is given: `_CID_CODE_RE` and `_CIAP_CODE_RE`. */
  datatype CodeShape = CidShape | CiapShape

  /** Between `lo` and `hi` characters, all of them digits. */
  predicate DigitsBetween(u: string, lo: nat, hi: nat) {
    lo <= |u| <= hi && forall i | 0 <= i < |u| :: IsDigit(u[i])
  }

  /**
   * `[0-9]{1,2}\\.[0-9]{1,2}` with `d` digits before the separator: in the raw
   * pattern `\\.` is an escaped backslash followed by `.`, so the separator is a
   * backslash and then any character but a newline.
   */
  predicate BackslashDecimal(u: string, d: nat) {
    d + 2 <= |u| && DigitsBetween(u[..d], 1, 2) && u[d] == '\\' && u[d + 1] != '\n' && DigitsBetween(u[d + 2..], 1, 2)
  }

  /** `[A-Z][0-9]{1,2}(?:\\.[0-9]{1,2})?` spanning the whole text. */
  predicate CidBody(t: string) {
    && |t| >= 1
    && IsUpperLetter(t[0])
    && (DigitsBetween(t[1..], 1, 2) || BackslashDecimal(t[1..], 1) || BackslashDecimal(t[1..], 2))
  }

  /** `[A-Z][0-9]{2,3}` spanning the whole text. */
  predicate CiapBody(t: string) {
    |t| >= 1 && IsUpperLetter(t[0]) && DigitsBetween(t[1..], 2, 3)
  }

  predicate ShapeBody(shape: CodeShape, t: string) {
    match shape
    case CidShape => CidBody(t)
    case CiapShape => CiapBody(t)
  }

  /** `pattern.match(t)` for a pattern `^...$`: `$` matches at the end or just before one final newline. */
  predicate ShapeMatches(shape: CodeShape, t: string) {
    ShapeBody(shape, t) || (t != [] && t[|t| - 1] == '\n' && ShapeBody(shape, t[..|t| - 1]))
  }

  /** The text `_code_like` tests: backslash-s runs removed, then upper-cased. */
  function CodeCandidate(raw: string): (t: string)
    ensures IsUpperCase(t)
  {
    Upper(ReplaceBackslashS(raw, ""))
  }

  /** `_code_like`: the candidate followed by `%` when it has the shape, `None` otherwise. */
  function CodeLike(raw: string, shape: CodeShape): Option<string> {
    var candidate := CodeCandidate(raw);
    if ShapeMatches(shape, candidate) then Some(candidate + "%") else None
  }

  /**
   * A pattern is produced exactly when the candidate has the shape; it is the
   * candidate with one trailing `%`, it has no lower-case letter, and it begins
   * with a capital letter.
   */
  lemma CodeLikeShape(raw: string, shape: CodeShape)
    ensures CodeLike(raw, shape).Some? <==> ShapeMatches(shape, CodeCandidate(raw))
    ensures CodeLike(raw, shape).Some? ==>
      var p := CodeLike(raw, shape).value;
      && |p| >= 3 && p[|p| - 1] == '%' && p[..|p| - 1] == CodeCandidate(raw)
      && IsUpperLetter(p[0]) && IsUpperCase(p)
  {
    var t := CodeCandidate(raw);
    if ShapeMatches(shape, t) {
      var p := t + "%";
      assert p[..|p| - 1] == t;
      assert forall i | 0 <= i < |p| :: p[i] == if i < |t| then t[i] else '%';
    }
  }

  /** A raw text with no backslash and no lower-case letter is its own candidate. */
  lemma PlainCandidate(raw: string)
    requires forall i | 0 <= i < |raw| :: raw[i] != '\\' && !IsLowerLetter(raw[i])
    ensures CodeCandidate(raw) == raw
  {
    assert ReplaceBackslashS(raw, "") == raw;
    UpperCaseIsFixed(raw);
  }

  /**
   * Without a backslash the CID-10 shape is a capital letter and one or two
   * digits, optionally followed by a newline: a code with a decimal point such
   * as `I10.9` never matches it.
   */
  lemma CidWithoutBackslash(t: string)
    requires forall i | 0 <= i < |t| :: t[i] != '\\'
    ensures ShapeMatches(CidShape, t) <==>
      ShortCidBody(t) || (t != [] && t[|t| - 1] == '\n' && ShortCidBody(t[..|t| - 1]))
  {
    if t != [] && t[|t| - 1] == '\n' {
      var u := t[..|t| - 1];
      assert forall i | 0 <= i < |u| :: u[i] != '\\';
    }
  }

  /** A capital letter followed by one or two digits. */
  predicate ShortCidBody(t: string) {
    |t| >= 1 && IsUpperLetter(t[0]) && DigitsBetween(t[1..], 1, 2)
  }

  /** `I10` gives the prefix pattern `I10%` for both tables. */
  lemma CodeLikeI10()
    ensures CodeLike("I10", CidShape) == Some("I10%")
    ensures CodeLike("I10", CiapShape) == Some("I10%")
  {
    PlainCandidate("I10");
    assert "I10"[1..] == "10";
    assert DigitsBetween("10", 1, 2) && DigitsBetween("10", 2, 3);
    assert ShapeMatches(CidShape, "I10") && ShapeMatches(CiapShape, "I10");
    assert "I10" + "%" == "I10%";
  }

  /** `I10.9` is refused by the CID-10 shape as written, which wants a backslash before the decimals. */
  lemma CodeLikeI10Dot9()
    ensures CodeLike("I10.9", CidShape) == None
  {
    var t := "I10.9";
    PlainCandidate(t);
    CidWithoutBackslash(t);
    assert |t[1..]| == 4 && t[|t| - 1] == '9';
  }

  /** `I10\\.9` has no backslash-s run and no lower-case letter: it is its own candidate. */
  lemma CandidateI10BackslashDot9()
    ensures CodeCandidate("I10\\.9") == "I10\\.9"
  {
    var t := "I10\\.9";
    assert forall i | 0 <= i < |t| :: !BackslashSAt(t, i);
    UpperCaseIsFixed(t);
  }

  /** `I10\\.9`, with the backslash the pattern asks for, is accepted. */
  lemma CodeLikeI10BackslashDot9()
    ensures CodeLike("I10\\.9", CidShape) == Some("I10\\.9%")
  {
    var t := "I10\\.9";
    CandidateI10BackslashDot9();
    assert BackslashDecimal(t[1..], 2) by {
      assert t[1..] == "10\\.9";
      assert t[1..][..2] == "10" && t[1..][4..] == "9";
    }
    assert t + "%" == "I10\\.9%";
  }

  /** `W03` gives `W03%` for the CIAP table. */
  lemma CodeLikeW03()
    ensures CodeLike("W03", CiapShape) == Some("W03%")
  {
    PlainCandidate("W03");
    assert "W03"[1..] == "03";
    assert DigitsBetween("03", 2, 3);
    assert ShapeMatches(CiapShape, "W03");
    assert "W03" + "%" == "W03%";
  }

  // ---------------------------------------------------------------- code-table search

  /**
   * `_build_where_and_params`: the predicates of the WHERE clause, to be joined
   * with OR, and their parameters. The code predicate is added only for a
   * truthy `code_like`.
   */
  function WhereAndParams(rawLike: string, normalizedLike: string, codeLike: Option<string>, table: CodeTable): Query {
    var clauses := [FilterColumnLike(table), NameColumnLike(table)];
    var params := [TextParam(normalizedLike), TextParam(rawLike)];
    if Truthy(codeLike) then Query(clauses + [CodeColumnLike(table)], params + [TextParam(codeLike.value)])
    else Query(clauses, params)
  }

  /**
   * The filter-column and name-column predicates always come first, with the
   * normalised pattern before the raw one; the code predicate comes third
   * exactly when a code pattern is given; each predicate binds its own pattern.
   */
  lemma WhereAndParamsShape(rawLike: string, normalizedLike: string, codeLike: Option<string>, table: CodeTable)
    ensures var q := WhereAndParams(rawLike, normalizedLike, codeLike, table);
      && Aligned(q) && |q.clauses| == |q.params|
      && q.clauses[..2] == [FilterColumnLike(table), NameColumnLike(table)]
      && q.params[..2] == [TextParam(normalizedLike), TextParam(rawLike)]
      && (|q.clauses| == 3 <==> Truthy(codeLike))
      && (|q.clauses| == 3 ==> q.clauses[2] == CodeColumnLike(table) && q.params[2] == TextParam(codeLike.value))
      && (Truthy(codeLike) ==> Bind(q.clauses, q.params) == Some([[TextParam(normalizedLike)], [TextParam(rawLike)], [TextParam(codeLike.value)]]))
      && (!Truthy(codeLike) ==> Bind(q.clauses, q.params) == Some([[TextParam(normalizedLike)], [TextParam(rawLike)]]))
  {
    var cs := [FilterColumnLike(table), NameColumnLike(table)];
    var ps := [TextParam(normalizedLike), TextParam(rawLike)];
    var v := [[TextParam(normalizedLike)], [TextParam(rawLike)]];
    BindPatternPair(table, normalizedLike, rawLike);
    var q := WhereAndParams(rawLike, normalizedLike, codeLike, table);
    if Truthy(codeLike) {
      var code := TextParam(codeLike.value);
      BindOne(CodeColumnLike(table), [code]);
      BindConcat(cs, ps, [CodeColumnLike(table)], [code], v, [[code]]);
      assert q == Query(cs + [CodeColumnLike(table)], ps + [code]);
      assert v + [[code]] == [[TextParam(normalizedLike)], [TextParam(rawLike)], [code]];
    } else {
      assert q == Query(cs, ps);
    }
    BindIffAligned(q);
  }

  /** The two name predicates bind the normalised pattern, then the raw one. */
  lemma BindPatternPair(table: CodeTable, normalizedLike: string, rawLike: string)
    ensures Bind([FilterColumnLike(table), NameColumnLike(table)], [TextParam(normalizedLike), TextParam(rawLike)])
            == Some([[TextParam(normalizedLike)], [TextParam(rawLike)]])
  {
    var n := TextParam(normalizedLike);
    var r := TextParam(rawLike);
    BindOne(FilterColumnLike(table), [n]);
    BindOne(NameColumnLike(table), [r]);
    BindConcat([FilterColumnLike(table)], [n], [NameColumnLike(table)], [r], [[n]], [[r]]);
    assert [FilterColumnLike(table)] + [NameColumnLike(table)] == [FilterColumnLike(table), NameColumnLike(table)];
    assert [n] + [r] == [n, r];
    assert [[n]] + [[r]] == [[n], [r]];
  }

  // ---------------------------------------------------------------- the resolver

  /** The CID-10 and CIAP lists of one entry of `_PRESET_CONDITIONS`. */
  datatype PresetCodes = PresetCodes(ciap: seq<string>, cid: seq<string>)

  const PregnancyCodes := PresetCodes(
    ["W03", "W05", "W71", "W78", "W79", "W80", "W81", "W84", "W85"],
    ["Z32.1", "Z33", "Z34.0", "Z34.8", "Z34.9", "Z35.0", "Z35.1", "Z35.2", "Z35.3", "Z35.4", "Z35.5",
     "Z35.6", "Z35.7", "Z35.8", "Z35.9"])

  const PregnancyOutcomeCodes := PresetCodes(
    ["W82", "W83", "W90", "W91", "W92", "W93"],
    ["O02", "O03", "O05", "O06", "O04", "Z30.3", "O80", "Z37.0", "Z37.9", "Z38", "Z39", "Z37.1", "O42",
     "O45", "O60", "O61", "O62", "O63", "O64", "O65", "O66", "O67", "O68", "O69", "O70", "O71", "O73",
     "O75.0", "O75.1", "O75.4", "O75.5", "O75.6", "O75.7", "O75.8", "O75.9", "O81", "O82", "O83", "O84",
     "Z37.2", "Z37.5", "Z37.3", "Z37.4", "Z37.6", "Z37.7"])

  const DiabetesCodes := PresetCodes(["T89", "T90"], ["E10", "E11", "E12", "E13", "E14"])

  const HypertensionCodes := PresetCodes(
    ["K86", "K87"],
    ["I10", "I11", "I11.0", "I11.9", "I12", "I12.0", "I12.9", "I13", "I13.0", "I13.1", "I13.2", "I13.9",
     "I15", "I15.0", "I15.1", "I15.2", "I15.8", "I15.9"])

  /** `_PRESET_CONDITIONS`. */
  const PresetConditions: map<string, PresetCodes> := map[
    "gravidez" := PregnancyCodes,
    "desfecho gestacao" := PregnancyOutcomeCodes,
    "diabetes" := DiabetesCodes,
    "hipertensao" := HypertensionCodes
  ]

  /** Every key of the alias table has an entry in the condition table. */
  lemma PresetKeysListed(j: nat)
    requires j < |PresetAliases|
    ensures PresetAliases[j].0 in PresetConditions && |PresetAliases[j].0| > 0
  {
  }

  /** `_PRESET_ALIAS_INDEX.get(normalized)`; whatever it finds is a key of `_PRESET_CONDITIONS`. */
  function PresetKey(normalized: string): (k: Option<string>)
    ensures k.Some? ==> k.value in PresetConditions && |k.value| > 0
  {
    var index := AliasIndex(PresetAliases, AliasForm);
    if normalized in index then
      AliasIndexEntries(PresetAliases, AliasForm, normalized);
      var j :| 0 <= j < |PresetAliases| && normalized in NormalizedAliases(PresetAliases[j].1, AliasForm)
               && index[normalized] == PresetAliases[j].0;
      PresetKeysListed(j);
      Some(index[normalized])
    else None
  }

  /** Where a result came from: the `source` field. */
  datatype Source = Preset | Database | Fallback

  /** `HealthConditionCaptureResult`. */
  datatype CaptureResult = CaptureResult(
    condition: string,
    source: Source,
    cidCodes: seq<string>,
    ciapCodes: seq<string>,
    cid: seq<CodeMatch>,
    ciap: seq<CodeMatch>,
    fallbackConditionText: Option<string>)

  /** Codes reported without a description, as a preset reports them. */
  function Undescribed(codes: seq<string>): (ms: seq<CodeMatch>)
    ensures |ms| == |codes| && forall i | 0 <= i < |codes| :: ms[i] == CodeMatch(codes[i], None)
  {
    seq(|codes|, i requires 0 <= i < |codes| => CodeMatch(codes[i], None))
  }

  /**
   * The validation of `condicao`: the trimmed text and its normal form, or the
   * first failing check: missing or blank, longer than 100 characters, or
   * nothing left once normalised.
   */
  function Validated(condicao: Option<string>): Checked<(string, string)> {
    if condicao.None? || |condicao.value| == 0 || |Strip(condicao.value)| == 0 then Err(ConditionRequired)
    else
      var raw := Strip(condicao.value);
      if |raw| > 100 then Err(ConditionTooLong)
      else
        var normalized := NormalizeText(Some(raw));
        if |normalized| == 0 then Err(ConditionInvalid) else Ok((raw, normalized))
  }

  /** The result of a preset hit: the preset's lists deduplicated, no descriptions, no fallback text. */
  function PresetResult(key: string): CaptureResult
    requires key in PresetConditions
  {
    var cid := Deduped(PresetConditions[key].cid);
    var ciap := Deduped(PresetConditions[key].ciap);
    CaptureResult(key, Preset, cid, ciap, Undescribed(cid), Undescribed(ciap), None)
  }

  /** The search of one code table: the OR-joined predicates, then `LIMIT %s` with the clamped limit. */
  function TableSearch(raw: string, normalized: string, limite: int, shape: CodeShape, table: CodeTable): Query {
    var where := WhereAndParams("%" + raw + "%", TokenLike(normalized), CodeLike(raw, shape), table);
    Limited(where, Clamp(limite, 200))
  }

  function CidSearch(raw: string, normalized: string, limite: int): Query {
    TableSearch(raw, normalized, limite, CidShape, Cid10Table)
  }

  function CiapSearch(raw: string, normalized: string, limite: int): Query {
    TableSearch(raw, normalized, limite, CiapShape, CiapTable)
  }

  /** The result of a miss: fallback when neither table has a match, database otherwise. */
  function SearchResult(raw: string, cidMatches: seq<CodeMatch>, ciapMatches: seq<CodeMatch>): CaptureResult {
    if cidMatches == [] && ciapMatches == [] then CaptureResult(raw, Fallback, [], [], [], [], Some(raw))
    else CaptureResult(raw, Database, Codes(cidMatches), Codes(ciapMatches), cidMatches, ciapMatches, None)
  }

  /**
   * `obter_codigos_condicao_saude`, with `db` standing for `query_all` on the
   * tool's connection: the rows a query returns.
   */
  function Resolve(condicao: Option<string>, limite: int, db: Query -> seq<Row>): Checked<CaptureResult> {
    match Validated(condicao)
    case Err(e) => Err(e)
    case Ok((raw, normalized)) =>
      var key := PresetKey(normalized);
      if key.Some? && |key.value| > 0 then Ok(PresetResult(key.value))
      else
        var cidRows := db(CidSearch(raw, normalized, limite));
        var ciapRows := db(CiapSearch(raw, normalized, limite));
        Ok(SearchResult(raw, DedupedMatches(cidRows), DedupedMatches(ciapRows)))
  }

  /** The three checks of `condicao`, in order, each refusing exactly the inputs that reach it and fail it. */
  lemma ValidatedErrors(condicao: Option<string>)
    ensures Validated(condicao) == Err(ConditionRequired)
        <==> condicao.None? || |Strip(condicao.value)| == 0
    ensures Validated(condicao) == Err(ConditionTooLong)
        <==> condicao.Some? && |Strip(condicao.value)| > 100
    ensures Validated(condicao) == Err(ConditionInvalid)
        <==> condicao.Some? && 0 < |Strip(condicao.value)| <= 100 && |NormalizeText(Some(Strip(condicao.value)))| == 0
  {
  }

  /** The tool refuses exactly what validation refuses, with the same error; every other input gets a result. */
  lemma ResolveErrors(condicao: Option<string>, limite: int, db: Query -> seq<Row>)
    ensures Resolve(condicao, limite, db).Err? <==> Validated(condicao).Err?
    ensures Resolve(condicao, limite, db).Err? ==> Resolve(condicao, limite, db).error == Validated(condicao).error
  {
  }

  /** A text that passes validation is trimmed, at most 100 characters long, and normalises to normalised text. */
  lemma ValidatedText(condicao: Option<string>)
    requires Validated(condicao).Ok?
    ensures condicao.Some?
    ensures Validated(condicao).value.0 == Strip(condicao.value)
    ensures 0 < |Validated(condicao).value.0| <= 100
    ensures Validated(condicao).value.1 == NormalizeText(Some(Strip(condicao.value)))
    ensures |Validated(condicao).value.1| > 0
    ensures IsNormalized(Validated(condicao).value.1)
  {
    NormalizeTextIsNormalized(Some(Strip(condicao.value)));
  }

  /**
   * A preset hit returns the preset's deduplicated lists under the preset key,
   * with no descriptions and no fallback text, whatever the limit, and without
   * asking the database anything.
   */
  lemma ResolvePreset(condicao: Option<string>, limite: int, db: Query -> seq<Row>,
                      otherLimit: int, otherDb: Query -> seq<Row>)
    requires Validated(condicao).Ok? && PresetKey(Validated(condicao).value.1).Some?
    ensures var key := PresetKey(Validated(condicao).value.1).value;
      && Resolve(condicao, limite, db).Ok?
      && var r := Resolve(condicao, limite, db).value;
      && r.source == Preset && r.condition == key
      && r.cidCodes == Deduped(PresetConditions[key].cid) && r.ciapCodes == Deduped(PresetConditions[key].ciap)
      && r.cid == Undescribed(r.cidCodes) && r.ciap == Undescribed(r.ciapCodes)
      && r.fallbackConditionText == None
      && Resolve(condicao, otherLimit, otherDb) == Resolve(condicao, limite, db)
  {
  }

  /** A table search binds its predicates' patterns and ends with `LIMIT %s` bound to the limit clamped into [1, 200]. */
  lemma TableSearchShape(raw: string, normalized: string, limite: int, shape: CodeShape, table: CodeTable)
    ensures var q := TableSearch(raw, normalized, limite, shape, table);
      && Aligned(q) && |q.clauses| >= 3 && |q.params| == |q.clauses|
      && q.clauses[|q.clauses| - 1] == Limit
      && q.params[|q.params| - 1] == IntParam(Clamp(limite, 200))
      && 1 <= Clamp(limite, 200) <= 200
      && q.params[0] == TextParam(TokenLike(normalized)) && q.params[1] == TextParam("%" + raw + "%")
      && (|q.clauses| == 4 <==> CodeLike(raw, shape).Some?)
      && Bind(q.clauses, q.params).Some?
      && var v := Bind(q.clauses, q.params).value;
         |v| >= 1 && v[|v| - 1] == [IntParam(Clamp(limite, 200))]
  {
    var code := CodeLike(raw, shape);
    var where := WhereAndParams("%" + raw + "%", TokenLike(normalized), code, table);
    WhereAndParamsShape("%" + raw + "%", TokenLike(normalized), code, table);
    LimitedWhereShape(where, Clamp(limite, 200));
    CodeLikeShape(raw, shape);
  }

  /** `LIMIT` after the predicates keeps their parameters in front and binds the limit last. */
  lemma LimitedWhereShape(where: Query, l: int)
    requires Aligned(where) && |where.clauses| == |where.params| >= 2
    ensures var q := Limited(where, l);
      && Aligned(q) && |q.clauses| == |where.clauses| + 1 && |q.params| == |q.clauses|
      && q.clauses[|q.clauses| - 1] == Limit && q.params[|q.params| - 1] == IntParam(l)
      && q.params[0] == where.params[0] && q.params[1] == where.params[1]
      && Bind(q.clauses, q.params).Some?
      && var v := Bind(q.clauses, q.params).value;
         |v| >= 1 && v[|v| - 1] == [IntParam(l)]
  {
    LimitedShape(where, l);
  }

  /**
   * A miss sends the two table searches and reports the trimmed text: as a
   * fallback, with every list empty, exactly when neither search yields a
   * match; otherwise from the database, with the codes of the deduplicated
   * matches in order.
   */
  lemma ResolveSearch(condicao: Option<string>, limite: int, db: Query -> seq<Row>)
    requires Validated(condicao).Ok? && PresetKey(Validated(condicao).value.1).None?
    ensures var (raw, normalized) := Validated(condicao).value;
      var cidMatches := DedupedMatches(db(CidSearch(raw, normalized, limite)));
      var ciapMatches := DedupedMatches(db(CiapSearch(raw, normalized, limite)));
      && Resolve(condicao, limite, db).Ok?
      && var r := Resolve(condicao, limite, db).value;
      && r.condition == raw
      && (r.source == Fallback <==> cidMatches == [] && ciapMatches == [])
      && (r.source == Fallback ==> r.cidCodes == [] && r.ciapCodes == [] && r.cid == [] && r.ciap == []
                                   && r.fallbackConditionText == Some(raw))
      && (r.source != Fallback ==> r.source == Database && r.cid == cidMatches && r.ciap == ciapMatches
                                   && r.cidCodes == Deduped(RowCodes(db(CidSearch(raw, normalized, limite))))
                                   && r.ciapCodes == Deduped(RowCodes(db(CiapSearch(raw, normalized, limite))))
                                   && r.fallbackConditionText == None)
  {
    var (raw, normalized) := Validated(condicao).value;
    DedupedMatchesCodes(db(CidSearch(raw, normalized, limite)));
    DedupedMatchesCodes(db(CiapSearch(raw, normalized, limite)));
  }

  /** The result of a miss depends on the database only through the rows of the two searches. */
  lemma ResolveSearchOnly(condicao: Option<string>, limite: int, db: Query -> seq<Row>, otherDb: Query -> seq<Row>)
    requires Validated(condicao).Ok? && PresetKey(Validated(condicao).value.1).None?
    requires var (raw, normalized) := Validated(condicao).value;
      && otherDb(CidSearch(raw, normalized, limite)) == db(CidSearch(raw, normalized, limite))
      && otherDb(CiapSearch(raw, normalized, limite)) == db(CiapSearch(raw, normalized, limite))
    ensures Resolve(condicao, limite, otherDb) == Resolve(condicao, limite, db)
  {
  }

  /** A trimmed, upper-case, non-empty code is its own key. */
  lemma CleanCodeKey(code: string)
    requires code != [] && NoEdgeSpace(code) && IsUpperCase(code)
    ensures CodeKey(code) == Some(code)
  {
    StripClean(code);
    UpperCaseIsFixed(code);
  }

  /** A code that is already its own key is kept by the deduplication. */
  lemma KeyKept(codes: seq<string>, i: nat, x: string)
    requires i < |codes| && codes[i] == x && CodeKey(x) == Some(x)
    ensures x in Deduped(codes)
  {
    DedupedKeys(codes, x);
  }

  /** `gravidez` passes validation unchanged and is a preset key. */
  lemma GravidezIsPreset()
    ensures Validated(Some("gravidez")) == Ok(("gravidez", "gravidez"))
    ensures PresetKey("gravidez") == Some("gravidez")
  {
    assert LowerWords("gravidez");
    ValidatedLowerWords("gravidez");
    PresetKeyOfAlias(0, "gravidez");
  }

  /** Lower-case words of at most 100 characters pass validation unchanged. */
  lemma ValidatedLowerWords(s: string)
    requires LowerWords(s) && |s| <= 100
    ensures Validated(Some(s)) == Ok((s, s))
  {
    assert IsLowerLetter(s[0]) && IsLowerLetter(s[|s| - 1]);
    StripClean(s);
    LowerWordsAreNormal(s);
    assert NormalizeText(Some(s)) == s;
  }

  /** Every alias of a preset key finds that key. */
  lemma PresetKeyOfAlias(j: nat, a: string)
    requires j < |PresetAliases| && a in PresetAliases[j].1
    ensures PresetKey(a) == Some(PresetAliases[j].0)
  {
    PresetAliasEntry(j, a);
  }

  /** The deduplicated pregnancy preset keeps `Z34.9` and `W03`. */
  lemma GravidezCodes()
    ensures "gravidez" in PresetConditions
    ensures "Z34.9" in Deduped(PresetConditions["gravidez"].cid)
    ensures "W03" in Deduped(PresetConditions["gravidez"].ciap)
  {
    PregnancyPreset();
    PregnancyCidKept();
    PregnancyCiapKept();
  }

  lemma PregnancyPreset()
    ensures "gravidez" in PresetConditions && PresetConditions["gravidez"] == PregnancyCodes
  {
  }

  lemma PregnancyCidKept()
    ensures "Z34.9" in Deduped(PregnancyCodes.cid)
  {
    CleanCodeKey("Z34.9");
    KeyKept(PregnancyCodes.cid, 4, "Z34.9");
  }

  lemma PregnancyCiapKept()
    ensures "W03" in Deduped(PregnancyCodes.ciap)
  {
    CleanCodeKey("W03");
    KeyKept(PregnancyCodes.ciap, 0, "W03");
  }

  /** `gravidez` is answered from the preset, and its codes include `Z34.9` and `W03`. */
  lemma ResolveGravidez(limite: int, db: Query -> seq<Row>)
    ensures Resolve(Some("gravidez"), limite, db).Ok?
    ensures Resolve(Some("gravidez"), limite, db).value.source == Preset
    ensures Resolve(Some("gravidez"), limite, db).value.condition == "gravidez"
    ensures "Z34.9" in Resolve(Some("gravidez"), limite, db).value.cidCodes
    ensures "W03" in Resolve(Some("gravidez"), limite, db).value.ciapCodes
  {
    GravidezIsPreset();
    GravidezCodes();
    ResolvePreset(Some("gravidez"), limite, db, limite, db);
  }
}
