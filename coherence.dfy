/**
 * The two text helpers of the coherence service that do not depend on regular expressions:
 * the syllable counter behind the readability score, and the insertion of connectives
 * ("conectivos") between paragraphs.
 */
module Coherence {
  import opened Js

  /** The twenty Portuguese connectives, in the source's order. */
  const Coesives: seq<string> := [
    "Neste contexto,", "Portanto,", "Assim,", "De modo similar,", "Consequentemente,",
    "Por outro lado,", "Além disso,", "Entretanto,", "Todavia,", "Contudo,",
    "Destarte,", "Outrossim,", "De fato,", "Em verdade,", "Logicamente,",
    "Indubitavelmente,", "Certamente,", "Vale ressaltar que", "É importante observar que",
    "Cabe destacar que"
  ]

  const ParagraphBreak: string := "\n\n"

  // ---------------------------------------------------------------------------
  // Syllables
  // ---------------------------------------------------------------------------

  /** The letters the counter keeps: the class `[a-záàâãéèêíïóôõöúçñ]`. */
  predicate IsLetter(c: char)
  {
    ('a' <= c <= 'z') || c in "áàâãéèêíïóôõöúçñ"
  }

  /** The vowels the counter recognises: the characters of `'aáàâãeéèêiíïoóôõöuúü'`. */
  predicate IsVowel(c: char)
  {
    c in Vowels
  }

  const Vowels: string := "aáàâãeéèêiíïoóôõöuúü"

  /** A word with every character outside the letter class removed. */
  function Strip(w: string): (r: string)
    ensures forall i :: 0 <= i < |r| ==> IsLetter(r[i])
  {
    if |w| == 0 then ""
    else Strip(w[..|w| - 1]) + (if IsLetter(w[|w| - 1]) then [w[|w| - 1]] else "")
  }

  /** The number of maximal runs of vowels in `w`: positions holding a vowel not preceded by one. */
  function VowelRuns(w: string): nat
  {
    if |w| == 0 then 0
    else VowelRuns(w[..|w| - 1]) + (if IsVowel(w[|w| - 1]) && (|w| == 1 || !IsVowel(w[|w| - 2])) then 1 else 0)
  }

  function WordSyllables(w: string): nat
  {
    VowelRuns(Strip(w))
  }

  function SumSyllables(words: seq<string>): nat
  {
    if |words| == 0 then 0 else SumSyllables(words[..|words| - 1]) + WordSyllables(words[|words| - 1])
  }

  /** What `countSyllables` returns. */
  function Syllables(text: string): nat
  {
    if text == "" then 0
    else
      var total := SumSyllables(SplitWs(LowerStr(text)));
      if total < 1 then 1 else total
  }

  /** `countSyllables`: for each whitespace-separated word, count the vowel runs of its stripped letters. */
  method CountSyllables(text: string) returns (count: nat)
    ensures count == Syllables(text)
    ensures text == "" ==> count == 0
    ensures text != "" ==> count >= 1
  {
    if text == "" {
      return 0;
    }
    count := 0;
    var words := SplitWs(LowerStr(text));
    var k := 0;
    while k < |words|
      invariant 0 <= k <= |words|
      invariant count == SumSyllables(words[..k])
    {
      var runs := CountVowelRuns(Strip(words[k]));
      count := count + runs;
      assert words[..k + 1][..k] == words[..k];
      k := k + 1;
    }
    assert words[..k] == words;
    if count < 1 {
      count := 1;
    }
  }

  /** The inner loop of `countSyllables`: one more syllable at each vowel that follows a non-vowel. */
  method CountVowelRuns(word: string) returns (runs: nat)
    ensures runs == VowelRuns(word)
  {
    runs := 0;
    var inVowel := false;
    var j := 0;
    while j < |word|
      invariant 0 <= j <= |word|
      invariant runs == VowelRuns(word[..j])
      invariant inVowel <==> j > 0 && IsVowel(word[j - 1])
    {
      var c := word[j];
      var isVowel := IsVowel(c);
      assert word[..j + 1][..j] == word[..j];
      if isVowel && !inVowel {
        runs := runs + 1;
        inVowel := true;
      } else if !isVowel {
        inVowel := false;
      }
      j := j + 1;
    }
    assert word[..j] == word;
  }

  lemma StripAppend(a: string, b: string)
    ensures Strip(a + b) == Strip(a) + Strip(b)
  {
    if |b| > 0 {
      assert (a + b)[..|a + b| - 1] == a + b[..|b| - 1];
      StripAppend(a, b[..|b| - 1]);
    } else {
      assert a + b == a;
    }
  }

  /**
   * Counting vowel runs is additive across a split, except that a run that straddles
   * the split point is counted once, not twice.
   */
  lemma {:induction false} VowelRunsAppend(a: string, b: string)
    ensures VowelRuns(a + b) == VowelRuns(a) + VowelRuns(b)
      - (if |a| > 0 && |b| > 0 && IsVowel(a[|a| - 1]) && IsVowel(b[0]) then 1 else 0)
  {
    if |b| == 0 {
      assert a + b == a;
    } else {
      var b' := b[..|b| - 1];
      assert (a + b)[..|a + b| - 1] == a + b';
      VowelRunsAppend(a, b');
      if |b'| == 0 {
        assert VowelRuns(b) == (if IsVowel(b[0]) then 1 else 0);
      }
    }
  }

  /** A word whose letters are all vowels is one syllable; one without vowels is none. */
  lemma {:induction false} VowelRunsUniform(w: string)
    ensures (forall i :: 0 <= i < |w| ==> !IsVowel(w[i])) ==> VowelRuns(w) == 0
    ensures |w| > 0 && (forall i :: 0 <= i < |w| ==> IsVowel(w[i])) ==> VowelRuns(w) == 1
  {
    if |w| > 0 {
      VowelRunsUniform(w[..|w| - 1]);
    }
  }

  /** "ü" is outside the letter class, so it is stripped before the vowel test and never counts. */
  lemma DiaeresisNeverCounts(a: string, b: string)
    ensures WordSyllables(a + "ü" + b) == WordSyllables(a + b)
    ensures !IsLetter('ü') && IsVowel('ü')
  {
    assert Vowels[19] == 'ü';
    assert !IsLetter('ü');
    assert Strip("ü") == "" by {
      assert "ü"[..0] == "";
    }
    StripAppend(a, "ü");
    StripAppend(a + "ü", b);
    StripAppend(a, b);
    assert Strip(a + "ü" + b) == Strip(a + b);
  }

  // ---------------------------------------------------------------------------
  // Connectives between paragraphs
  // ---------------------------------------------------------------------------

  function NonBlank(ps: seq<string>): (r: seq<string>)
    ensures |r| <= |ps|
    ensures forall k :: 0 <= k < |r| ==> !IsBlank(r[k]) && r[k] in ps
  {
    if |ps| == 0 then []
    else if IsBlank(ps[0]) then NonBlank(ps[1..])
    else [ps[0]] + NonBlank(ps[1..])
  }

  /** `text.split('\n\n').filter(p => p.trim())`. */
  function Paragraphs(text: string): seq<string>
  {
    NonBlank(Split(text, ParagraphBreak))
  }

  predicate StartsWithCoesive(para: string)
  {
    exists j :: 0 <= j < |Coesives| && StartsWith(Trim(LowerStr(para)), LowerStr(Coesives[j]))
  }

  /** The paragraph at position `index` after the connective pass. */
  function Enhance(para: string, index: nat): string
  {
    if index == 0 || StartsWithCoesive(para) then para
    else Coesives[index % |Coesives|] + " " + para
  }

  function EnhanceAll(ps: seq<string>): (r: seq<string>)
    ensures |r| == |ps|
  {
    seq(|ps|, i requires 0 <= i < |ps| => Enhance(ps[i], i))
  }

  /** `addCoesion`. */
  function AddCoesion(text: string): string
  {
    if text == "" then text
    else
      var ps := Paragraphs(text);
      if |ps| <= 1 then text else Join(EnhanceAll(ps), ParagraphBreak)
  }

  /** No two consecutive line feeds. */
  predicate NoBreak(p: string)
  {
    forall i :: 0 <= i < |p| - 1 ==> !(p[i] == '\n' && p[i + 1] == '\n')
  }

  predicate EndsClean(p: string)
  {
    p == [] || p[|p| - 1] != '\n'
  }

  /** What the pieces of a paragraph split look like: no break inside, and no piece but the last ends in a line feed. */
  predicate WellSplit(ps: seq<string>)
  {
    (forall k :: 0 <= k < |ps| ==> NoBreak(ps[k]))
    && (forall k :: 0 <= k < |ps| - 1 ==> EndsClean(ps[k]))
  }

  lemma {:induction false} SplitIsWellSplit(s: string)
    ensures WellSplit(Split(s, ParagraphBreak))
    ensures StartsWith(s, Split(s, ParagraphBreak)[0])
    ensures |Split(s, ParagraphBreak)| > 1 ==>
      StartsWith(s[|Split(s, ParagraphBreak)[0]|..], ParagraphBreak)
    decreases |s|
  {
    var sep := ParagraphBreak;
    assert |sep| == 2 && sep[0] == '\n' && sep[1] == '\n';
    if |s| < |sep| {
    } else if s[..|sep|] == sep {
      SplitIsWellSplit(s[|sep|..]);
    } else {
      var r := Split(s[1..], sep);
      SplitIsWellSplit(s[1..]);
      var first := [s[0]] + r[0];
      assert Split(s, sep) == [first] + r[1..];
      assert s[1..][..|r[0]|] == r[0];
      assert s[..2] != sep;
      assert NoBreak(first) by {
        assert |r[0]| > 0 ==> s[1] == r[0][0];
      }
      if |r| > 1 {
        assert EndsClean(first) by {
          assert r[0] == [] ==> StartsWith(s[1..], sep) && s[1] == '\n';
        }
        assert s[|first|..] == s[1..][|r[0]|..];
      }
    }
  }

  lemma {:induction false} SplitWhole(p: string)
    requires NoBreak(p)
    ensures Split(p, ParagraphBreak) == [p]
    decreases |p|
  {
    assert |ParagraphBreak| == 2 && ParagraphBreak[0] == '\n' && ParagraphBreak[1] == '\n';
    if |p| >= 2 {
      assert p[..2] != ParagraphBreak;
      assert NoBreak(p[1..]) by {
        forall i | 0 <= i < |p[1..]| - 1
          ensures !(p[1..][i] == '\n' && p[1..][i + 1] == '\n')
        {
          assert p[1..][i] == p[i + 1] && p[1..][i + 1] == p[i + 2];
        }
      }
      SplitWhole(p[1..]);
      assert [p[0]] + p[1..] == p;
    }
  }

  lemma {:induction false} SplitFirst(p: string, rest: string)
    requires NoBreak(p) && EndsClean(p)
    ensures Split(p + ParagraphBreak + rest, ParagraphBreak) == [p] + Split(rest, ParagraphBreak)
    decreases |p|
  {
    var sep := ParagraphBreak;
    assert |sep| == 2 && sep[0] == '\n' && sep[1] == '\n';
    var s := p + sep + rest;
    if |p| == 0 {
      assert s[..2] == sep && s[2..] == rest;
    } else {
      assert s[..2] != sep by {
        if |p| >= 2 {
          assert s[..2] == p[..2];
        } else {
          assert s[0] == p[0];
        }
      }
      assert s[1..] == p[1..] + sep + rest;
      SplitFirst(p[1..], rest);
      assert [p[0]] + p[1..] == p;
    }
  }

  /** Joining well-split pieces with the paragraph break and splitting again gives the pieces back. */
  lemma {:induction false} SplitJoin(ps: seq<string>)
    requires |ps| >= 1 && WellSplit(ps)
    ensures Split(Join(ps, ParagraphBreak), ParagraphBreak) == ps
  {
    if |ps| == 1 {
      SplitWhole(ps[0]);
    } else {
      SplitJoin(ps[1..]);
      SplitFirst(ps[0], Join(ps[1..], ParagraphBreak));
    }
  }

  lemma {:induction false} NonBlankWellSplit(ps: seq<string>)
    requires WellSplit(ps)
    ensures WellSplit(NonBlank(ps))
  {
    if |ps| > 0 {
      WellSplitTail(ps);
      NonBlankWellSplit(ps[1..]);
      if !IsBlank(ps[0]) {
        WellSplitCons(ps[0], NonBlank(ps[1..]), |ps| > 1);
      }
    }
  }

  lemma WellSplitTail(ps: seq<string>)
    requires |ps| > 0 && WellSplit(ps)
    ensures WellSplit(ps[1..]) && NoBreak(ps[0]) && (|ps| > 1 ==> EndsClean(ps[0]))
  {
    assert forall k :: 0 <= k < |ps| - 1 ==> ps[1..][k] == ps[k + 1];
  }

  lemma WellSplitCons(p: string, rest: seq<string>, more: bool)
    requires NoBreak(p) && WellSplit(rest) && (more ==> EndsClean(p)) && (|rest| > 0 ==> more)
    ensures WellSplit([p] + rest)
  {
    var r := [p] + rest;
    assert forall k :: 0 < k < |r| ==> r[k] == rest[k - 1];
  }

  lemma {:induction false} NonBlankKeepsNonBlank(ps: seq<string>)
    requires forall k :: 0 <= k < |ps| ==> !IsBlank(ps[k])
    ensures NonBlank(ps) == ps
  {
    if |ps| > 0 {
      NonBlankKeepsNonBlank(ps[1..]);
    }
  }

  predicate CleanConnective(c: string)
  {
    |c| > 0 && !IsSpace(c[0]) && '\n' !in c
  }

  lemma CoesivesClean()
    ensures forall j :: 0 <= j < |Coesives| ==> CleanConnective(Coesives[j])
  {
    forall j | 0 <= j < |Coesives|
      ensures CleanConnective(Coesives[j])
    {
      if j < 5 {
        Coesives0To4Clean(j);
      } else if j < 10 {
        Coesives5To9Clean(j);
      } else if j < 15 {
        Coesives10To14Clean(j);
      } else {
        Coesives15To19Clean(j);
      }
    }
  }

  // The connectives are checked five at a time: one lemma for all twenty is too costly for the solver.

  lemma Coesives0To4Clean(j: nat)
    requires j < 5
    ensures CleanConnective(Coesives[j])
  {
  }

  lemma Coesives5To9Clean(j: nat)
    requires 5 <= j < 10
    ensures CleanConnective(Coesives[j])
  {
  }

  lemma Coesives10To14Clean(j: nat)
    requires 10 <= j < 15
    ensures CleanConnective(Coesives[j])
  {
  }

  lemma Coesives15To19Clean(j: nat)
    requires 15 <= j < 20
    ensures CleanConnective(Coesives[j])
  {
  }

  lemma SomeNonSpace(para: string) returns (m: nat)
    requires !IsBlank(para)
    ensures m < |para| && !IsSpace(para[m])
  {
    BlankIffAllSpace(para);
    m :| 0 <= m < |para| && !IsSpace(para[m]);
  }

  /** Prefixing a clean connective and a space to a non-blank paragraph makes the trimmed, lowered text start with the lowered connective. */
  lemma PrefixedStartsWith(c: string, para: string)
    requires CleanConnective(c) && !IsBlank(para)
    ensures StartsWith(Trim(LowerStr(c + " " + para)), LowerStr(c))
  {
    var m := SomeNonSpace(para);
    AppendAt(" ", para, m);
    assert c + " " + para == c + (" " + para);
    TrimLowerStart(c, " " + para, 1 + m);
  }

  /** A paragraph that received a connective now starts with it. */
  lemma PrefixedStartsWithCoesive(j: nat, para: string)
    requires j < |Coesives| && !IsBlank(para)
    ensures StartsWithCoesive(Coesives[j] + " " + para)
  {
    CoesivesClean();
    PrefixedStartsWith(Coesives[j], para);
  }

  lemma PrefixedNoBreak(c: string, para: string)
    requires CleanConnective(c) && NoBreak(para)
    ensures NoBreak(c + " " + para)
  {
    var s := c + " " + para;
    forall i | 0 <= i < |s| - 1
      ensures !(s[i] == '\n' && s[i + 1] == '\n')
    {
      if i >= |c| + 1 {
        assert s[i] == para[i - |c| - 1] && s[i + 1] == para[i - |c|];
      } else if i < |c| {
        assert s[i] == c[i];
      }
    }
  }

  lemma PrefixedNotBlank(c: string, para: string)
    requires !IsBlank(para)
    ensures !IsBlank(c + " " + para)
  {
    var m := SomeNonSpace(para);
    AppendAt(c + " ", para, m);
    NotBlankAt(c + " " + para, |c + " "| + m);
  }

  /** Prefixing a clean connective keeps a paragraph free of breaks, non-blank, and ending as before. */
  lemma PrefixedShape(c: string, para: string)
    requires CleanConnective(c) && NoBreak(para) && !IsBlank(para)
    ensures NoBreak(c + " " + para) && !IsBlank(c + " " + para)
    ensures EndsClean(para) ==> EndsClean(c + " " + para)
  {
    PrefixedNoBreak(c, para);
    PrefixedNotBlank(c, para);
    var s := c + " " + para;
    assert |para| > 0;
    assert s[|s| - 1] == para[|para| - 1];
  }

  lemma EnhancedShape(ps: seq<string>)
    requires WellSplit(ps)
    requires forall k :: 0 <= k < |ps| ==> !IsBlank(ps[k])
    ensures WellSplit(EnhanceAll(ps))
    ensures forall k :: 0 <= k < |ps| ==> !IsBlank(EnhanceAll(ps)[k])
    ensures forall k :: 0 < k < |ps| ==> StartsWithCoesive(EnhanceAll(ps)[k])
  {
    var es := EnhanceAll(ps);
    forall k | 0 <= k < |ps|
      ensures NoBreak(es[k]) && !IsBlank(es[k])
      ensures k < |ps| - 1 ==> EndsClean(es[k])
      ensures k > 0 ==> StartsWithCoesive(es[k])
    {
      if es[k] != ps[k] {
        var j := k % |Coesives|;
        CoesivesClean();
        PrefixedShape(Coesives[j], ps[k]);
        PrefixedStartsWithCoesive(j, ps[k]);
      }
    }
  }

  lemma ParagraphsOfJoin(ps: seq<string>)
    requires |ps| >= 1 && WellSplit(ps)
    requires forall k :: 0 <= k < |ps| ==> !IsBlank(ps[k])
    ensures Paragraphs(Join(ps, ParagraphBreak)) == ps
  {
    SplitJoin(ps);
    NonBlankKeepsNonBlank(ps);
  }

  lemma ParagraphsWellSplit(text: string)
    ensures WellSplit(Paragraphs(text))
  {
    SplitIsWellSplit(text);
    NonBlankWellSplit(Split(text, ParagraphBreak));
  }

  /**
   * The connective pass keeps the number of non-blank paragraphs, keeps the first one,
   * and leaves every later paragraph either as it was or prefixed with a connective.
   */
  lemma AddCoesionShape(text: string)
    ensures |Paragraphs(AddCoesion(text))| == |Paragraphs(text)|
    ensures text == "" || |Paragraphs(text)| <= 1 ==> AddCoesion(text) == text
    ensures |Paragraphs(text)| > 1 ==> Paragraphs(AddCoesion(text))[0] == Paragraphs(text)[0]
    ensures |Paragraphs(text)| > 1 ==> forall k :: 0 < k < |Paragraphs(text)| ==>
      var p := Paragraphs(text)[k];
      Paragraphs(AddCoesion(text))[k] == if StartsWithCoesive(p) then p else Coesives[k % 20] + " " + p
  {
    var ps := Paragraphs(text);
    if text != "" && |ps| > 1 {
      ParagraphsWellSplit(text);
      EnhancedShape(ps);
      ParagraphsOfJoin(EnhanceAll(ps));
    }
  }

  lemma EnhanceAllFixed(ps: seq<string>)
    requires forall k :: 0 < k < |ps| ==> StartsWithCoesive(ps[k])
    ensures EnhanceAll(ps) == ps
  {
  }

  /** Running the connective pass on its own output adds nothing. */
  lemma AddCoesionIdempotent(text: string)
    ensures AddCoesion(AddCoesion(text)) == AddCoesion(text)
  {
    var ps := Paragraphs(text);
    if text != "" && |ps| > 1 {
      ParagraphsWellSplit(text);
      EnhancedShape(ps);
      var es := EnhanceAll(ps);
      ParagraphsOfJoin(es);
      EnhanceAllFixed(es);
      var out := Join(es, ParagraphBreak);
      assert AddCoesion(text) == out;
      assert out != "" by {
        assert |Split(out, ParagraphBreak)| > 1;
      }
      assert Paragraphs(out) == es;
    }
  }
}
