/**
 * `_to_initials`: a display name reduced to the upper-cased first letters of
 * its words, the Portuguese particles de, da, do, das and dos skipped. The
 * patient listings never return a name, only these initials; the three
 * listing tools share one definition.
 */
module Initials {
  import opened Wrappers
  import opened Text

  /** What a name without any usable word becomes. */
  const NotAvailable: string := "N/A"

  /** The particles skipped, compared after lower-casing. */
  const Particles: set<string> := {"de", "da", "do", "das", "dos"}

  /** A word contributes a letter when it is non-empty and not a particle. */
  predicate Contributes(p: string) {
    |p| > 0 && Lower(p) !in Particles
  }

  /** The contributing words, in order. */
  function Contributing(parts: seq<string>): (r: seq<string>)
    ensures |r| <= |parts|
    ensures forall k | 0 <= k < |r| :: Contributes(r[k])
  {
    if parts == [] then []
    else Contributing(parts[..|parts| - 1])
         + (if Contributes(parts[|parts| - 1]) then [parts[|parts| - 1]] else [])
  }

  /** The upper-cased first character of each word. */
  function FirstLetters(words: seq<string>): (r: string)
    requires forall k | 0 <= k < |words| :: |words[k]| > 0
    ensures |r| == |words|
    ensures forall k | 0 <= k < |words| :: r[k] == UpperChar(words[k][0])
  {
    seq(|words|, k requires 0 <= k < |words| => UpperChar(words[k][0]))
  }

  /** The words of a name: stripped, then split at every whitespace run. */
  function Words(name: string): seq<string> {
    SplitOnSpaces(Strip(name))
  }

  /** `_to_initials(full_name)`. */
  function ToInitials(fullName: Option<string>): string {
    if !Truthy(fullName) then NotAvailable
    else
      InitialsOf(Contributing(Words(fullName.value)))
  }

  /** The joined first letters, or "N/A" when there is no word. */
  function InitialsOf(words: seq<string>): string
    requires forall k | 0 <= k < |words| :: |words[k]| > 0
  {
    if words == [] then NotAvailable else FirstLetters(words)
  }

  /**
   * A missing or empty name, or one with no contributing word, gives "N/A";
   * otherwise one upper-case letter per contributing word, in order, and no
   * whitespace.
   */
  lemma ToInitialsShape(fullName: Option<string>)
    ensures !Truthy(fullName) ==> ToInitials(fullName) == NotAvailable
    ensures Truthy(fullName) && Contributing(Words(fullName.value)) == []
            ==> ToInitials(fullName) == NotAvailable
    ensures Truthy(fullName) && Contributing(Words(fullName.value)) != []
            ==> var words := Contributing(Words(fullName.value));
                var r := ToInitials(fullName);
                && |r| == |words|
                && IsUpperCase(r)
                && (forall k | 0 <= k < |r| :: r[k] == UpperChar(words[k][0]) && !IsSpace(r[k]))
  {
    if Truthy(fullName) {
      var parts := Words(fullName.value);
      var words := Contributing(parts);
      ContributingFrom(parts);
      forall k | 0 <= k < |words|
        ensures !IsSpace(words[k][0])
      {
        assert words[k] in parts;
        var j :| 0 <= j < |parts| && parts[j] == words[k];
        assert !IsSpace(parts[j][0]);
      }
    }
  }

  /** What the listings show for a name is never empty and reads the same upper-cased, "N/A" included. */
  lemma ToInitialsDisplayed(fullName: Option<string>)
    ensures |ToInitials(fullName)| > 0
    ensures IsUpperCase(ToInitials(fullName))
    ensures Upper(ToInitials(fullName)) == ToInitials(fullName)
  {
    ToInitialsShape(fullName);
    UpperCaseIsFixed(ToInitials(fullName));
  }

  /** Every contributing word is one of the parts. */
  lemma {:induction false} ContributingFrom(parts: seq<string>)
    ensures forall w | w in Contributing(parts) :: w in parts
  {
    if parts != [] {
      ContributingFrom(parts[..|parts| - 1]);
      assert forall w | w in parts[..|parts| - 1] :: w in parts;
    }
  }

  /** A word is kept exactly when it is non-empty and not a particle. */
  lemma {:induction false} ContributingMembers(parts: seq<string>)
    ensures forall p | p in parts :: p in Contributing(parts) <==> Contributes(p)
  {
    if parts != [] {
      var front := parts[..|parts| - 1];
      ContributingMembers(front);
      assert parts == front + [parts[|parts| - 1]];
      forall p | p in parts
        ensures p in Contributing(parts) <==> Contributes(p)
      {
        if p in Contributing(parts) {
          var k :| 0 <= k < |Contributing(parts)| && Contributing(parts)[k] == p;
        }
        if Contributes(p) && p in front {
          assert p in Contributing(front);
        }
      }
    }
  }

  /** A name made only of whitespace has no words and gives "N/A". */
  lemma BlankName(name: string)
    requires |Strip(name)| == 0
    ensures ToInitials(Some(name)) == NotAvailable
  {
    var empty: string := [];
    assert Strip(name) == empty;
    assert WordLength(empty) == 0;
    assert Words(name) == [empty];
    var none: seq<string> := [];
    ContributingSnoc(none, empty);
    assert none + [empty] == [empty];
  }

  /** A particle is made of lower-case letters only. */
  lemma ParticleLetters(p: string)
    requires p in Particles
    ensures |p| > 0 && forall i | 0 <= i < |p| :: IsLowerLetter(p[i])
  {
  }

  /** A text without whitespace is one word. */
  lemma OneWord(s: string)
    requires forall i | 0 <= i < |s| :: !IsSpace(s[i])
    ensures SplitOnSpaces(s) == [s]
  {
    assert WordLength(s) == |s|;
  }

  /** A particle alone, in any case and with any padding, gives "N/A". */
  lemma ParticleOnly(name: string)
    requires Lower(Strip(name)) in Particles
    ensures ToInitials(Some(name)) == NotAvailable
  {
    var s := Strip(name);
    ParticleHasNoSpace(s);
    OneWord(s);
    assert Words(name) == [s];
    var none: seq<string> := [];
    ContributingSnoc(none, s);
    assert none + [s] == [s];
  }

  /** A word that lower-cases to a particle has no whitespace in it. */
  lemma ParticleHasNoSpace(s: string)
    requires Lower(s) in Particles
    ensures forall i | 0 <= i < |s| :: !IsSpace(s[i])
  {
    ParticleLetters(Lower(s));
    forall i | 0 <= i < |s| ensures !IsSpace(s[i]) {
      assert LowerChar(s[i]) == Lower(s)[i];
    }
  }

  /** Appending a word appends it to the contributing words exactly when it contributes. */
  lemma ContributingSnoc(parts: seq<string>, w: string)
    ensures Contributing(parts + [w]) == Contributing(parts) + (if Contributes(w) then [w] else [])
  {
    assert (parts + [w])[..|parts|] == parts;
  }

  /** Every particle begins with "d", so a word that does not, in either case, contributes. */
  lemma NotParticle(w: string)
    requires |w| > 0 && LowerChar(w[0]) != 'd'
    ensures Contributes(w)
  {
    forall p | p in Particles ensures p[0] == 'd' {
    }
    assert Lower(w)[0] != 'd';
  }

  // ---------------------------------------------------------------- the documented example
  //
  // "Joao de Carvalho Lima" gives "JCL". The example lemmas take the name as a
  // parameter equal to the text, so that the verifier reasons from the split
  // steps below instead of unfolding every definition on the literal.

  /** A word followed by one space: the word is the first piece and splitting resumes after the space. */
  lemma SplitWordSpace(w: string, rest: string)
    requires forall i | 0 <= i < |w| :: !IsSpace(w[i])
    requires rest == [] || !IsSpace(rest[0])
    ensures SplitOnSpaces(w + " " + rest) == [w] + SplitOnSpaces(rest)
  {
    var s := w + " " + rest;
    assert s[|w|] == ' ';
    assert WordLength(s) == |w|;
    assert s[..|w|] == w;
    var tail := s[|w|..];
    assert tail == " " + rest;
    assert SpaceLength(tail) == 1;
    assert tail[1..] == rest;
  }

  /** The first split step of the example, from the right: "Carvalho" before "Lima". */
  lemma ExampleSplitCarvalho(lima: string, carvalhoLima: string)
    requires lima == "Lima"
    requires carvalhoLima == "Carvalho" + " " + lima
    ensures SplitOnSpaces(carvalhoLima) == ["Carvalho"] + SplitOnSpaces(lima)
  {
    assert forall i | 0 <= i < |"Carvalho"| :: !IsSpace("Carvalho"[i]);
    assert lima[0] == 'L';
    SplitWordSpace("Carvalho", lima);
  }

  /** "de" before "Carvalho ...". */
  lemma ExampleSplitDe(carvalhoLima: string, deCarvalhoLima: string)
    requires |carvalhoLima| > 0 && carvalhoLima[0] == 'C'
    requires deCarvalhoLima == "de" + " " + carvalhoLima
    ensures SplitOnSpaces(deCarvalhoLima) == ["de"] + SplitOnSpaces(carvalhoLima)
  {
    assert forall i | 0 <= i < |"de"| :: !IsSpace("de"[i]);
    SplitWordSpace("de", carvalhoLima);
  }

  /** "Joao" before "de ...". */
  lemma ExampleSplitJoao(deCarvalhoLima: string, name: string)
    requires |deCarvalhoLima| > 0 && deCarvalhoLima[0] == 'd'
    requires name == "Joao" + " " + deCarvalhoLima
    ensures SplitOnSpaces(name) == ["Joao"] + SplitOnSpaces(deCarvalhoLima)
  {
    assert forall i | 0 <= i < |"Joao"| :: !IsSpace("Joao"[i]);
    SplitWordSpace("Joao", deCarvalhoLima);
  }

  /** The four words of the documented example, split one space at a time. */
  lemma ExampleSplit(lima: string, carvalhoLima: string, deCarvalhoLima: string, name: string)
    requires lima == "Lima"
    requires carvalhoLima == "Carvalho" + " " + lima
    requires deCarvalhoLima == "de" + " " + carvalhoLima
    requires name == "Joao" + " " + deCarvalhoLima
    ensures SplitOnSpaces(name) == ["Joao"] + (["de"] + (["Carvalho"] + [lima]))
  {
    OneWord(lima);
    ExampleSplitCarvalho(lima, carvalhoLima);
    ExampleSplitDe(carvalhoLima, deCarvalhoLima);
    ExampleSplitJoao(deCarvalhoLima, name);
  }

  /** The example, spelled as its words and the spaces between them. */
  lemma ExampleSpelled(name: string)
    requires name == "Joao de Carvalho Lima"
    ensures name == "Joao" + " " + ("de" + " " + ("Carvalho" + " " + "Lima"))
  {
  }

  /** The words of the example: stripping changes nothing, and splitting gives the four words. */
  lemma ExampleWords(name: string)
    requires name == "Joao" + " " + ("de" + " " + ("Carvalho" + " " + "Lima"))
    ensures Words(name) == ["Joao"] + (["de"] + (["Carvalho"] + ["Lima"]))
  {
    ExampleStripped(name);
    ExampleSplitWords(name);
  }

  /** The example has no whitespace at its ends. */
  lemma ExampleStripped(name: string)
    requires name == "Joao" + " " + ("de" + " " + ("Carvalho" + " " + "Lima"))
    ensures Strip(name) == name
  {
    assert name[0] == 'J' && name[|name| - 1] == 'a';
    StripClean(name);
  }

  /** The example, split at its three spaces. */
  lemma ExampleSplitWords(name: string)
    requires name == "Joao" + " " + ("de" + " " + ("Carvalho" + " " + "Lima"))
    ensures SplitOnSpaces(name) == ["Joao"] + (["de"] + (["Carvalho"] + ["Lima"]))
  {
    ExampleSplit("Lima", "Carvalho" + " " + "Lima", "de" + " " + ("Carvalho" + " " + "Lima"), name);
  }

  /** Of the example's words, all but the particle "de" contribute. */
  lemma ExampleContributing()
    ensures Contributing(["Joao"] + (["de"] + (["Carvalho"] + ["Lima"]))) == ["Joao"] + (["Carvalho"] + ["Lima"])
  {
    assert Lower("de") == "de";
    NotParticle("Joao");
    NotParticle("Carvalho");
    NotParticle("Lima");
    var p0: seq<string> := [];
    var p1 := p0 + ["Joao"];
    var p2 := p1 + ["de"];
    var p3 := p2 + ["Carvalho"];
    ContributingSnoc(p0, "Joao");
    ContributingSnoc(p1, "de");
    ContributingSnoc(p2, "Carvalho");
    ContributingSnoc(p3, "Lima");
    assert p3 + ["Lima"] == ["Joao"] + (["de"] + (["Carvalho"] + ["Lima"]));
  }

  /** The first letters of the contributing words. */
  lemma ExampleLetters(words: seq<string>)
    requires words == ["Joao"] + (["Carvalho"] + ["Lima"])
    ensures InitialsOf(words) == "JCL"
  {
    var r := FirstLetters(words);
    assert r[0] == 'J' && r[1] == 'C' && r[2] == 'L';
  }

  /** The documented example: the particle "de" gives no letter, so "Joao de Carvalho Lima" becomes "JCL". */
  lemma ParticleSkippedExample(name: string)
    requires name == "Joao de Carvalho Lima"
    ensures ToInitials(Some(name)) == "JCL"
  {
    ExampleSpelled(name);
    ExampleWords(name);
    ExampleContributing();
    ExampleLetters(Contributing(Words(name)));
  }

  // ---------------------------------------------------------------- letter case

  /** Each part upper-cased. */
  function UpperAll(parts: seq<string>): (r: seq<string>)
    ensures |r| == |parts| && forall k | 0 <= k < |parts| :: r[k] == Upper(parts[k])
  {
    seq(|parts|, k requires 0 <= k < |parts| => Upper(parts[k]))
  }

  lemma {:induction false} WordLengthUpper(s: string)
    ensures WordLength(Upper(s)) == WordLength(s)
  {
    if s != [] && !IsSpace(s[0]) {
      assert Upper(s)[1..] == Upper(s[1..]);
      WordLengthUpper(s[1..]);
    }
  }

  lemma {:induction false} SpaceLengthUpper(s: string)
    ensures SpaceLength(Upper(s)) == SpaceLength(s)
  {
    if s != [] && IsSpace(s[0]) {
      assert Upper(s)[1..] == Upper(s[1..]);
      SpaceLengthUpper(s[1..]);
    }
  }

  /** One step of the split: the first word, then the split of what follows the next whitespace run. */
  lemma SplitStep(s: string)
    requires WordLength(s) < |s|
    ensures var rest := s[WordLength(s)..];
      SplitOnSpaces(s) == [s[..WordLength(s)]] + SplitOnSpaces(rest[SpaceLength(rest)..])
  {
  }

  /** Upper-casing commutes with the slices one split step takes. */
  lemma UpperSlices(s: string, n: nat, m: nat)
    requires n <= |s| && m <= |s| - n
    ensures Upper(s)[..n] == Upper(s[..n])
    ensures Upper(s)[n..] == Upper(s[n..])
    ensures Upper(s[n..])[m..] == Upper(s[n..][m..])
  {
  }

  lemma UpperAllCons(w: string, ws: seq<string>)
    ensures UpperAll([w] + ws) == [Upper(w)] + UpperAll(ws)
  {
  }

  /** Case mapping never touches whitespace, so it splits into the same words, each upper-cased. */
  lemma {:induction false} SplitUpper(s: string)
    ensures SplitOnSpaces(Upper(s)) == UpperAll(SplitOnSpaces(s))
    decreases |s|
  {
    var n := WordLength(s);
    WordLengthUpper(s);
    if n == |s| {
      assert UpperAll([s]) == [Upper(s)];
    } else {
      var rest := s[n..];
      var m := SpaceLength(rest);
      UpperSlices(s, n, m);
      SpaceLengthUpper(rest);
      SplitUpper(rest[m..]);
      SplitStep(s);
      SplitStep(Upper(s));
      UpperAllCons(s[..n], SplitOnSpaces(rest[m..]));
    }
  }

  lemma LowerUpper(p: string)
    ensures Lower(Upper(p)) == Lower(p)
  {
  }

  /** Whether a word contributes does not depend on its case. */
  lemma {:induction false} ContributingUpper(parts: seq<string>)
    ensures Contributing(UpperAll(parts)) == UpperAll(Contributing(parts))
  {
    if parts != [] {
      var front := parts[..|parts| - 1];
      var last := parts[|parts| - 1];
      assert UpperAll(parts)[..|parts| - 1] == UpperAll(front);
      ContributingUpper(front);
      LowerUpper(last);
      if Contributes(last) {
        assert UpperAll(Contributing(parts)) == UpperAll(Contributing(front)) + [Upper(last)];
      } else {
        assert Contributing(parts) == Contributing(front) + [];
      }
    }
  }

  lemma WordsUpper(name: string)
    ensures Words(Upper(name)) == UpperAll(Words(name))
  {
    StripUpper(name);
    SplitUpper(Strip(name));
  }

  lemma InitialsOfUpper(words: seq<string>)
    requires forall k | 0 <= k < |words| :: |words[k]| > 0
    ensures InitialsOf(UpperAll(words)) == InitialsOf(words)
  {
    if words != [] {
      assert FirstLetters(UpperAll(words)) == FirstLetters(words);
    }
  }

  /** The initials ignore letter case: an upper-cased name has the same initials. */
  lemma ToInitialsIgnoresCase(name: string)
    ensures ToInitials(Some(Upper(name))) == ToInitials(Some(name))
  {
    if |name| == 0 {
      assert Upper(name) == name;
    } else {
      assert |Upper(name)| == |name|;
      NamedInitials(name);
      NamedInitials(Upper(name));
      var words := Contributing(Words(name));
      WordsUpper(name);
      ContributingUpper(Words(name));
      InitialsOfUpper(words);
    }
  }

  /** A non-empty name gives the initials of its contributing words. */
  lemma NamedInitials(name: string)
    requires |name| > 0
    ensures ToInitials(Some(name)) == InitialsOf(Contributing(Words(name)))
  {
  }
}
