/**
 * The small part of JavaScript's value semantics that the modelled services rely on:
 * optional values, numbers that may be NaN or infinite, and the string built-ins
 * `toLowerCase`, `trim`, `split`, `join`, `includes`, `startsWith` and `String(n)`.
 */
module Js {

  datatype Option<+T> = None | Some(value: T)

  /** A JavaScript number: a finite value, NaN, or one of the two infinities. */
  datatype Num = Fin(v: real) | NaN | Infinity(negative: bool)
  {
    predicate IsFinite() { Fin? }

    /** JavaScript truthiness: `0` and `NaN` are falsy, every other number is truthy. */
    predicate Truthy() { !NaN? && !(Fin? && v == 0.0) }
  }

  /** JavaScript `a / b` on two finite numbers: `x / 0` is an infinity, `0 / 0` is NaN. */
  function Div(a: real, b: real): (r: Num)
    ensures r.Fin? <==> b != 0.0
    ensures r.NaN? <==> b == 0.0 && a == 0.0
    ensures r.Fin? ==> r.v * b == a
  {
    if b != 0.0 then Fin(a / b) else if a == 0.0 then NaN else Infinity(a < 0.0)
  }

  /** The characters matched by the regular-expression class `\s` and removed by `trim`. */
  predicate IsSpace(c: char)
  {
    c == ' ' || c == '\t' || c == '\n' || c == '\r' || c == '\U{B}' || c == '\U{C}'
    || c == '\U{A0}' || c == '\U{1680}' || ('\U{2000}' <= c <= '\U{200A}')
    || c == '\U{2028}' || c == '\U{2029}' || c == '\U{202F}' || c == '\U{205F}'
    || c == '\U{3000}' || c == '\U{FEFF}'
  }

  predicate NoSpace(s: string)
  {
    forall i :: 0 <= i < |s| ==> !IsSpace(s[i])
  }

  /** `s || fallback` on an optional string: an absent or empty string gives `fallback`. */
  function OrElse(s: Option<string>, fallback: string): (r: string)
    ensures s.Some? && s.value != "" ==> r == s.value
    ensures s.None? || s.value == "" ==> r == fallback
  {
    if s.Some? && s.value != "" then s.value else fallback
  }

  /**
   * `s.length`: JavaScript counts UTF-16 code units, so a character outside the Basic
   * Multilingual Plane counts twice.
   */
  function Utf16Length(s: string): (n: nat)
    ensures |s| <= n <= 2 * |s|
    ensures (forall i :: 0 <= i < |s| ==> s[i] < '\U{10000}') <==> n == |s|
  {
    if |s| == 0 then 0
    else
      assert forall i :: 0 <= i < |s| - 1 ==> s[..|s| - 1][i] == s[i];
      Utf16Length(s[..|s| - 1]) + (if s[|s| - 1] >= '\U{10000}' then 2 else 1)
  }

  /** `toLowerCase` of one character, for the Basic Latin, Latin-1 and basic Cyrillic letters. */
  function Lower(c: char): char
  {
    if 'A' <= c <= 'Z' || ('\U{C0}' <= c <= '\U{DE}' && c != '\U{D7}') || ('\U{410}' <= c <= '\U{42F}') then
      (c as int + 32) as char
    else if '\U{400}' <= c <= '\U{40F}' then
      (c as int + 80) as char
    else
      c
  }

  function LowerStr(s: string): (r: string)
    ensures |r| == |s|
    ensures forall i :: 0 <= i < |s| ==> r[i] == Lower(s[i])
  {
    seq(|s|, i requires 0 <= i < |s| => Lower(s[i]))
  }

  lemma LowerIdempotent(c: char)
    ensures Lower(Lower(c)) == Lower(c)
  {
  }

  /** Lower-casing a string twice changes nothing more. */
  lemma LowerStrIdempotent(s: string)
    ensures LowerStr(LowerStr(s)) == LowerStr(s)
  {
    forall i | 0 <= i < |s|
      ensures LowerStr(LowerStr(s))[i] == LowerStr(s)[i]
    {
      LowerIdempotent(s[i]);
    }
  }

  lemma LowerKeepsSpace(c: char)
    ensures IsSpace(Lower(c)) <==> IsSpace(c)
  {
  }

  /** Lower-casing a string keeps its whitespace where it was. */
  lemma LowerStrKeepsSpace(s: string, k: nat)
    requires k < |s|
    ensures IsSpace(LowerStr(s)[k]) <==> IsSpace(s[k])
  {
    LowerKeepsSpace(s[k]);
  }

  lemma LowerStrSnoc(s: string, c: char)
    ensures LowerStr(s + [c]) == LowerStr(s) + [Lower(c)]
  {
  }

  /** A non-empty sequence is its elements but the last, then the last. */
  lemma InitLast<T>(s: seq<T>)
    requires |s| > 0
    ensures s == s[..|s| - 1] + [s[|s| - 1]]
  {
  }

  lemma LowerStrAppend(a: string, b: string)
    ensures LowerStr(a + b) == LowerStr(a) + LowerStr(b)
  {
  }

  function TrimStart(s: string): (r: string)
    ensures |r| <= |s| && r == s[|s| - |r|..]
    ensures r == [] || !IsSpace(r[0])
    ensures forall i :: 0 <= i < |s| - |r| ==> IsSpace(s[i])
  {
    if |s| > 0 && IsSpace(s[0]) then TrimStart(s[1..]) else s
  }

  function TrimEnd(s: string): (r: string)
    ensures |r| <= |s| && r == s[..|r|]
    ensures r == [] || !IsSpace(r[|r| - 1])
    ensures forall i :: |r| <= i < |s| ==> IsSpace(s[i])
  {
    if |s| > 0 && IsSpace(s[|s| - 1]) then TrimEnd(s[..|s| - 1]) else s
  }

  /** JavaScript `s.trim()`. */
  function Trim(s: string): string
  {
    TrimEnd(TrimStart(s))
  }

  predicate IsBlank(s: string)
  {
    Trim(s) == []
  }

  lemma BlankIffAllSpace(s: string)
    ensures IsBlank(s) <==> forall i :: 0 <= i < |s| ==> IsSpace(s[i])
  {
  }

  /** A string with a non-space character somewhere is not blank. */
  lemma NotBlankAt(s: string, k: nat)
    requires k < |s| && !IsSpace(s[k])
    ensures !IsBlank(s)
  {
    BlankIffAllSpace(s);
  }

  /** A prefix one longer is the prefix with the next element appended. */
  lemma TakeSnoc<T>(s: seq<T>, i: nat)
    requires i < |s|
    ensures s[..i + 1] == s[..i] + [s[i]]
  {
  }

  /** The character `m` of the second part of a concatenation sits at `|a| + m`. */
  lemma AppendAt<T>(a: seq<T>, b: seq<T>, m: nat)
    requires m < |b|
    ensures (a + b)[|a| + m] == b[m]
  {
  }

  /** `s.trim()` keeps every character up to the last non-space one of `s` when `s` starts with a non-space. */
  lemma TrimKeepsPrefix(s: string, k: nat)
    requires 0 < |s| && !IsSpace(s[0])
    requires k < |s| && !IsSpace(s[k])
    ensures k < |Trim(s)| && Trim(s)[..k + 1] == s[..k + 1]
  {
    assert TrimStart(s) == s;
  }

  function StartsWith(s: string, prefix: string): bool
  {
    |prefix| <= |s| && s[..|prefix|] == prefix
  }

  /** A string that starts with `prefix` and has a non-space at its start and somewhere after the prefix still does once trimmed. */
  lemma TrimKeepsStart(s: string, prefix: string, k: nat)
    requires |prefix| <= k < |s| && !IsSpace(s[0]) && !IsSpace(s[k])
    requires StartsWith(s, prefix)
    ensures StartsWith(Trim(s), prefix)
  {
    TrimKeepsPrefix(s, k);
    assert Trim(s)[..|prefix|] == Trim(s)[..k + 1][..|prefix|];
  }

  /** Trimmed and lower-cased, `a + b` starts with `a` lower-cased, when `a` starts with a non-space and `b` holds one. */
  lemma TrimLowerStart(a: string, b: string, k: nat)
    requires |a| > 0 && !IsSpace(a[0]) && k < |b| && !IsSpace(b[k])
    ensures StartsWith(Trim(LowerStr(a + b)), LowerStr(a))
  {
    AppendAt(a, b, k);
    LowerStrKeepsSpace(a + b, |a| + k);
    LowerStrKeepsSpace(a + b, 0);
    LowerStrStart(a, b);
    TrimKeepsStart(LowerStr(a + b), LowerStr(a), |a| + k);
  }

  /** Lower-casing a concatenation keeps the lowered first part at the front. */
  lemma LowerStrStart(a: string, b: string)
    ensures StartsWith(LowerStr(a + b), LowerStr(a))
  {
    LowerStrAppend(a, b);
    assert (LowerStr(a) + LowerStr(b))[..|a|] == LowerStr(a);
  }

  /** JavaScript `s.includes(sub)`. */
  function Contains(s: string, sub: string): bool
  {
    StartsWith(s, sub) || (|s| > 0 && Contains(s[1..], sub))
  }

  lemma ContainsAt(s: string, sub: string, i: nat)
    requires i + |sub| <= |s| && s[i..i + |sub|] == sub
    ensures Contains(s, sub)
  {
    if i > 0 {
      assert s[1..][i - 1..i - 1 + |sub|] == sub;
      ContainsAt(s[1..], sub, i - 1);
    }
  }

  /** `Contains(s, sub)` finds `sub` only at a position where it really occurs. */
  lemma ContainsWitness(s: string, sub: string) returns (i: nat)
    requires Contains(s, sub)
    ensures i + |sub| <= |s| && s[i..i + |sub|] == sub
  {
    if StartsWith(s, sub) {
      i := 0;
    } else {
      var j := ContainsWitness(s[1..], sub);
      i := j + 1;
      assert s[i..i + |sub|] == s[1..][j..j + |sub|];
    }
  }

  /** JavaScript `parts.join(sep)`. */
  function Join(parts: seq<string>, sep: string): string
  {
    if |parts| == 0 then ""
    else if |parts| == 1 then parts[0]
    else parts[0] + sep + Join(parts[1..], sep)
  }

  /**
   * JavaScript `s.split(/\s+/)`: every maximal run of whitespace separates two pieces,
   * so a leading or trailing run yields an empty first or last piece.
   */
  function SplitWs(s: string): (r: seq<string>)
    ensures |r| >= 1
    ensures forall k :: 0 <= k < |r| ==> NoSpace(r[k])
  {
    if |s| == 0 then [""]
    else
      var r := SplitWs(s[..|s| - 1]);
      var c := s[|s| - 1];
      if !IsSpace(c) then r[..|r| - 1] + [r[|r| - 1] + [c]]
      else if |s| >= 2 && IsSpace(s[|s| - 2]) then r
      else r + [""]
  }

  /** JavaScript `s.split(sep)` for a non-empty separator: cuts at each leftmost non-overlapping occurrence. */
  function Split(s: string, sep: string): (r: seq<string>)
    requires |sep| > 0
    ensures |r| >= 1
    decreases |s|
  {
    if |s| < |sep| then [s]
    else if s[..|sep|] == sep then [""] + Split(s[|sep|..], sep)
    else
      var r := Split(s[1..], sep);
      [[s[0]] + r[0]] + r[1..]
  }

  lemma JoinSnoc(ps: seq<string>, p: string, sep: string)
    ensures Join(ps + [p], sep) == if |ps| == 0 then p else Join(ps, sep) + sep + p
  {
    if |ps| > 1 {
      assert (ps + [p])[1..] == ps[1..] + [p];
      JoinSnoc(ps[1..], p, sep);
    } else if |ps| == 1 {
      assert (ps + [p])[1..] == [p];
    }
  }

  /** A whitespace character right after a non-space one opens a new, empty piece. */
  lemma SplitWsSpace(x: string, c: char)
    requires IsSpace(c) && (|x| == 0 || !IsSpace(x[|x| - 1]))
    ensures SplitWs(x + [c]) == SplitWs(x) + [""]
  {
    assert (x + [c])[..|x|] == x;
  }

  /** Characters other than whitespace extend the last piece. */
  lemma {:induction false} SplitWsWord(y: string, w: string)
    requires NoSpace(w)
    ensures var r := SplitWs(y);
      SplitWs(y + w) == r[..|r| - 1] + [r[|r| - 1] + w]
    decreases |w|
  {
    var r := SplitWs(y);
    if |w| == 0 {
      assert y + w == y;
      assert r[|r| - 1] + w == r[|r| - 1];
      assert r == r[..|r| - 1] + [r[|r| - 1]];
    } else {
      var w', c := w[..|w| - 1], w[|w| - 1];
      SplitWsWord(y, w');
      AppendLast(y, w);
      SplitWsLetter(y + w', c);
      SnocParts(r[..|r| - 1], r[|r| - 1] + w');
      AppendLast(r[|r| - 1], w);
    }
  }

  /** Appending `w` is appending all of it but its last element, then that element. */
  lemma AppendLast<T>(x: seq<T>, w: seq<T>)
    requires |w| > 0
    ensures x + w == (x + w[..|w| - 1]) + [w[|w| - 1]]
  {
    assert w == w[..|w| - 1] + [w[|w| - 1]];
  }

  /** A sequence with one element appended splits back into the two. */
  lemma SnocParts<T>(a: seq<T>, b: T)
    ensures var s := a + [b]; |s| > 0 && s[..|s| - 1] == a && s[|s| - 1] == b
  {
    var s := a + [b];
    assert s[..|s| - 1] == a;
  }

  /** A whitespace character right after another one adds nothing. */
  lemma SplitWsSpaceRun(x: string, c: char)
    requires IsSpace(c) && |x| > 0 && IsSpace(x[|x| - 1])
    ensures SplitWs(x + [c]) == SplitWs(x)
  {
    assert (x + [c])[..|x|] == x;
  }

  /** A character other than whitespace extends the last piece. */
  lemma SplitWsLetter(x: string, c: char)
    requires !IsSpace(c)
    ensures var r := SplitWs(x);
      SplitWs(x + [c]) == r[..|r| - 1] + [r[|r| - 1] + [c]]
  {
    assert (x + [c])[..|x|] == x;
  }

  /** A non-empty word list joined with single spaces ends with a non-space character. */
  lemma {:induction false} JoinedWordsEnd(ws: seq<string>, sep: string)
    requires |ws| >= 1 && forall k :: 0 <= k < |ws| ==> |ws[k]| > 0 && NoSpace(ws[k])
    ensures var s := Join(ws, sep); |s| > 0 && !IsSpace(s[0]) && !IsSpace(s[|s| - 1])
  {
    if |ws| > 1 {
      JoinedWordsEnd(ws[1..], sep);
      var t := Join(ws[1..], sep);
      assert Join(ws, sep) == ws[0] + sep + t;
      assert Join(ws, sep)[0] == ws[0][0];
      assert Join(ws, sep)[|Join(ws, sep)| - 1] == t[|t| - 1];
    }
  }

  /** Splitting words joined by single spaces at whitespace runs gives the words back. */
  lemma {:induction false} SplitWsJoin(ws: seq<string>)
    requires |ws| >= 1 && forall k :: 0 <= k < |ws| ==> |ws[k]| > 0 && NoSpace(ws[k])
    ensures SplitWs(Join(ws, " ")) == ws
  {
    var init, w := ws[..|ws| - 1], ws[|ws| - 1];
    assert ws == init + [w];
    JoinSnoc(init, w, " ");
    if |init| == 0 {
      SplitWsWord("", w);
      assert "" + w == w;
      assert SplitWs("") == [""];
      assert "" + w == w;
    } else {
      SplitWsJoin(init);
      var x := Join(init, " ");
      JoinedWordsEnd(init, " ");
      SplitWsSpace(x, ' ');
      var r := SplitWs(x + [' ']);
      assert r == init + [""];
      SplitWsWord(x + [' '], w);
      assert r[..|r| - 1] == init;
      assert r[|r| - 1] + w == w;
      assert x + " " + w == (x + [' ']) + w;
    }
  }

  /** JavaScript `s.replace(/\s+/g, rep)`: every maximal whitespace run becomes `rep`. */
  function ReplaceWsRuns(s: string, rep: string): (r: string)
    ensures NoSpace(rep) ==> NoSpace(r)
  {
    assert |s| > 0 ==> s == s[..|s| - 1] + [s[|s| - 1]];
    if |s| == 0 then ""
    else
      var c := s[|s| - 1];
      var r := ReplaceWsRuns(s[..|s| - 1], rep);
      if !IsSpace(c) then r + [c]
      else if |s| >= 2 && IsSpace(s[|s| - 2]) then r
      else r + rep
  }

  /** Text without whitespace is left as it is. */
  lemma {:induction false} ReplaceWsRunsNoSpace(s: string, rep: string)
    requires NoSpace(s)
    ensures ReplaceWsRuns(s, rep) == s
  {
    if |s| > 0 {
      ReplaceWsRunsNoSpace(s[..|s| - 1], rep);
      assert s == s[..|s| - 1] + [s[|s| - 1]];
    }
  }

  /** Replacing each whitespace run is splitting at the runs and joining with the replacement. */
  lemma {:induction false} ReplaceIsSplitJoin(s: string, rep: string)
    ensures ReplaceWsRuns(s, rep) == Join(SplitWs(s), rep)
  {
    if |s| > 0 {
      var s' := s[..|s| - 1];
      var c := s[|s| - 1];
      ReplaceIsSplitJoin(s', rep);
      var r := SplitWs(s');
      var init := r[..|r| - 1];
      assert r == init + [r[|r| - 1]];
      JoinSnoc(init, r[|r| - 1], rep);
      if !IsSpace(c) {
        JoinSnoc(init, r[|r| - 1] + [c], rep);
        if |init| > 0 {
          AppendAssoc(Join(init, rep) + rep, r[|r| - 1], [c]);
        }
      } else if !(|s| >= 2 && IsSpace(s[|s| - 2])) {
        JoinSnoc(r, "", rep);
        assert Join(r, rep) + rep + "" == Join(r, rep) + rep;
      }
    }
  }

  /** One step of the replacement: what appending a character to `s` does to `ReplaceWsRuns(s)`. */
  lemma ReplaceWsRunsSnoc(s: string, c: char, rep: string)
    ensures ReplaceWsRuns(s + [c], rep) ==
      if !IsSpace(c) then ReplaceWsRuns(s, rep) + [c]
      else if |s| > 0 && IsSpace(s[|s| - 1]) then ReplaceWsRuns(s, rep)
      else ReplaceWsRuns(s, rep) + rep
  {
    assert (s + [c])[..|s|] == s;
  }

  /** The replacement works piecewise when no whitespace run straddles the cut. */
  lemma {:induction false} ReplaceWsRunsAppend(a: string, b: string, rep: string)
    requires |a| == 0 || |b| == 0 || !IsSpace(a[|a| - 1]) || !IsSpace(b[0])
    ensures ReplaceWsRuns(a + b, rep) == ReplaceWsRuns(a, rep) + ReplaceWsRuns(b, rep)
    decreases |b|
  {
    if |b| == 0 {
      assert a + b == a;
    } else if |b| == 1 {
      ReplaceWsRunsOne(a, b[0], rep);
    } else {
      var b', c := b[..|b| - 1], b[|b| - 1];
      ReplaceWsRunsAppend(a, b', rep);
      ReplaceWsRunsLast(a, b', c, rep);
      assert b' + [c] == b;
    }
  }

  lemma ReplaceWsRunsOne(a: string, c: char, rep: string)
    requires |a| == 0 || !IsSpace(a[|a| - 1]) || !IsSpace(c)
    ensures ReplaceWsRuns(a + [c], rep) == ReplaceWsRuns(a, rep) + ReplaceWsRuns([c], rep)
  {
    ReplaceWsRunsSnoc(a, c, rep);
    ReplaceWsRunsSnoc([], c, rep);
    assert [] + [c] == [c];
  }

  lemma ReplaceWsRunsLast(a: string, b': string, c: char, rep: string)
    requires |b'| > 0
    requires ReplaceWsRuns(a + b', rep) == ReplaceWsRuns(a, rep) + ReplaceWsRuns(b', rep)
    ensures ReplaceWsRuns(a + (b' + [c]), rep) == ReplaceWsRuns(a, rep) + ReplaceWsRuns(b' + [c], rep)
  {
    AppendSnoc(a, b', c);
    ReplaceWsRunsSnoc(a + b', c, rep);
    ReplaceWsRunsSnoc(b', c, rep);
    LastOfAppend(a, b');
    var ra, rb := ReplaceWsRuns(a, rep), ReplaceWsRuns(b', rep);
    if !IsSpace(c) {
      AppendAssoc(ra, rb, [c]);
    } else if !IsSpace(b'[|b'| - 1]) {
      AppendAssoc(ra, rb, rep);
    }
  }

  lemma AppendAssoc<T>(x: seq<T>, y: seq<T>, z: seq<T>)
    ensures (x + y) + z == x + (y + z)
  {
  }

  lemma AppendSnoc<T>(a: seq<T>, b: seq<T>, c: T)
    ensures a + (b + [c]) == (a + b) + [c]
  {
  }

  lemma LastOfAppend<T>(a: seq<T>, b: seq<T>)
    requires |b| > 0
    ensures |a + b| > 0 && (a + b)[|a + b| - 1] == b[|b| - 1]
  {
  }

  /**
   * When one character of the separator occurs nowhere else in it, a piece without that
   * character cannot hide an occurrence of the separator.
   */
  lemma {:induction false} SplitMarkedWhole(p: string, sep: string, i: nat)
    requires i < |sep| && sep[i] !in p
    ensures Split(p, sep) == [p]
    decreases |p|
  {
    if |p| >= |sep| {
      assert p[..|sep|] != sep by {
        assert p[i] != sep[i];
      }
      SplitMarkedWhole(p[1..], sep, i);
      assert [p[0]] + p[1..] == p;
    }
  }

  lemma {:induction false} SplitMarkedFirst(p: string, rest: string, sep: string, i: nat)
    requires i < |sep| && forall t :: 0 <= t < |sep| && t != i ==> sep[t] != sep[i]
    requires sep[i] !in p
    ensures Split(p + sep + rest, sep) == [p] + Split(rest, sep)
    decreases |p|
  {
    var s := p + sep + rest;
    if |p| == 0 {
      assert s[..|sep|] == sep && s[|sep|..] == rest;
    } else {
      assert s[..|sep|] != sep by {
        if i < |p| {
          assert s[i] == p[i];
        } else {
          assert s[i] == sep[i - |p|];
        }
      }
      assert s[1..] == p[1..] + sep + rest;
      SplitMarkedFirst(p[1..], rest, sep, i);
      assert [p[0]] + p[1..] == p;
    }
  }

  /** `parts.join(sep).split(sep)` gives the parts back when they avoid the separator's marker character. */
  lemma {:induction false} SplitJoinMarked(ps: seq<string>, sep: string, i: nat)
    requires |ps| >= 1 && i < |sep| && forall t :: 0 <= t < |sep| && t != i ==> sep[t] != sep[i]
    requires forall k :: 0 <= k < |ps| ==> sep[i] !in ps[k]
    ensures Split(Join(ps, sep), sep) == ps
  {
    if |ps| == 1 {
      SplitMarkedWhole(ps[0], sep, i);
    } else {
      SplitJoinMarked(ps[1..], sep, i);
      SplitMarkedFirst(ps[0], Join(ps[1..], sep), sep, i);
    }
  }

  function Digit(d: nat): char
    requires d < 10
  {
    "0123456789"[d]
  }

  /** JavaScript `String(n)` for an integer. */
  function NatToString(n: nat): (r: string)
    ensures |r| >= 1
    ensures forall i :: 0 <= i < |r| ==> '0' <= r[i] <= '9'
  {
    if n < 10 then [Digit(n)] else NatToString(n / 10) + [Digit(n % 10)]
  }

  function IntToString(n: int): (r: string)
    ensures |r| >= 1
  {
    if n < 0 then "-" + NatToString(-n) else NatToString(n)
  }

  /** The value of a string of decimal digits. */
  function DigitsValue(s: string): nat
    requires forall i :: 0 <= i < |s| ==> '0' <= s[i] <= '9'
  {
    if |s| == 0 then 0 else 10 * DigitsValue(s[..|s| - 1]) + (s[|s| - 1] as int - '0' as int)
  }

  /** Reading back the digits `String(n)` writes gives `n`. */
  lemma {:induction false} NatToStringRoundTrip(n: nat)
    ensures DigitsValue(NatToString(n)) == n
  {
    if n < 10 {
      DigitValue(n);
      assert [Digit(n)][..0] == [];
    } else {
      SnocParts(NatToString(n / 10), Digit(n % 10));
      NatToStringRoundTrip(n / 10);
      DigitValue(n % 10);
      assert 10 * (n / 10) + n % 10 == n;
    }
  }

  /** The digit character for `d` reads back as `d`. */
  lemma DigitValue(d: nat)
    requires d < 10
    ensures Digit(d) as int - '0' as int == d
  {
  }

  /** No element occurs twice. */
  predicate Distinct<T(==)>(s: seq<T>)
  {
    forall i, j :: 0 <= i < j < |s| ==> s[i] != s[j]
  }

  /** The elements in the order they first occur, each once: the key order of a JavaScript `Map` or `Set`. */
  function Dedup<T(==,!new)>(xs: seq<T>): (r: seq<T>)
    ensures forall x :: x in r <==> x in xs
    ensures Distinct(r)
  {
    if |xs| == 0 then []
    else
      var d := Dedup(xs[..|xs| - 1]);
      assert forall x :: x in xs <==> x in xs[..|xs| - 1] || x == xs[|xs| - 1];
      if xs[|xs| - 1] in d then d else d + [xs[|xs| - 1]]
  }

  /** The elements of a sequence, as a set. */
  function Elems<T>(xs: seq<T>): set<T>
  {
    set x | x in xs
  }

  lemma {:induction false} DistinctCard<T>(xs: seq<T>)
    requires Distinct(xs)
    ensures |Elems(xs)| == |xs|
  {
    if |xs| > 0 {
      var xs' := xs[..|xs| - 1];
      DistinctCard(xs');
      assert Elems(xs) == Elems(xs') + {xs[|xs| - 1]};
    }
  }

  /** The elements of a non-empty sequence: those before the last one, and the last. */
  lemma ElemsSnoc<T>(xs: seq<T>)
    requires |xs| > 0
    ensures Elems(xs) == Elems(xs[..|xs| - 1]) + {xs[|xs| - 1]}
  {
    assert xs == xs[..|xs| - 1] + [xs[|xs| - 1]];
  }

  /** In a sequence without repeats, the last element is not among the ones before it. */
  lemma DistinctSnoc<T>(xs: seq<T>)
    requires Distinct(xs) && |xs| > 0
    ensures Distinct(xs[..|xs| - 1]) && xs[|xs| - 1] !in Elems(xs[..|xs| - 1])
  {
  }

  lemma SubsetCard<T>(x: set<T>, y: set<T>)
    requires x <= y
    ensures |x| <= |y|
  {
    assert y == x + (y - x);
    assert x * (y - x) == {};
  }

  /** The whole numbers below `m`. */
  function Range(m: nat): (r: set<nat>)
    ensures |r| == m
    ensures forall i :: i in r <==> 0 <= i < m
  {
    if m == 0 then {} else Range(m - 1) + {m - 1}
  }

  /** Pigeonhole: a sequence of distinct numbers below `m` has at most `m` elements. */
  lemma DistinctBelow(xs: seq<nat>, m: nat)
    requires Distinct(xs) && forall i :: 0 <= i < |xs| ==> xs[i] < m
    ensures |xs| <= m
  {
    DistinctCard(xs);
    SubsetCard(Elems(xs), Range(m));
  }

  lemma DedupSnoc<T(!new)>(xs: seq<T>, x: T)
    ensures Dedup(xs + [x]) == if x in Dedup(xs) then Dedup(xs) else Dedup(xs) + [x]
  {
    assert (xs + [x])[..|xs|] == xs;
  }

  // Property order of plain objects

  /** `r` is `s` with some elements left out, the rest in their order. */
  predicate SubsequenceOf<T(==)>(r: seq<T>, s: seq<T>)
    decreases |s|
  {
    if |r| == 0 then true
    else if |s| == 0 then false
    else if r[|r| - 1] == s[|s| - 1] then SubsequenceOf(r[..|r| - 1], s[..|s| - 1])
    else SubsequenceOf(r, s[..|s| - 1])
  }

  lemma {:induction false} SubsequenceOfSelf<T>(s: seq<T>)
    ensures SubsequenceOf(s, s)
  {
    if |s| > 0 {
      SubsequenceOfSelf(s[..|s| - 1]);
    }
  }

  lemma {:induction false} SubsequenceDropLast<T>(r: seq<T>, s: seq<T>)
    requires |r| > 0 && SubsequenceOf(r, s)
    ensures SubsequenceOf(r[..|r| - 1], s)
    decreases |s|, 0
  {
    if r[|r| - 1] != s[|s| - 1] {
      SubsequenceDropLast(r, s[..|s| - 1]);
      SubsequenceLonger(r[..|r| - 1], s[..|s| - 1], s[|s| - 1]);
      assert s[..|s| - 1] + [s[|s| - 1]] == s;
    } else {
      SubsequenceLonger(r[..|r| - 1], s[..|s| - 1], s[|s| - 1]);
      assert s[..|s| - 1] + [s[|s| - 1]] == s;
    }
  }

  /** Appending the same element to both keeps a subsequence a subsequence. */
  lemma SubsequenceBoth<T>(r: seq<T>, s: seq<T>, x: T)
    requires SubsequenceOf(r, s)
    ensures SubsequenceOf(r + [x], s + [x])
  {
    assert (r + [x])[..|r|] == r;
    assert (s + [x])[..|s|] == s;
  }

  /** A subsequence of `s` is a subsequence of `s` with one more element at the end. */
  lemma {:induction false} SubsequenceLonger<T>(r: seq<T>, s: seq<T>, x: T)
    requires SubsequenceOf(r, s)
    ensures SubsequenceOf(r, s + [x])
    decreases |s|, 1
  {
    assert (s + [x])[..|s|] == s;
    if |r| > 0 && r[|r| - 1] == x {
      SubsequenceDropLast(r, s);
    }
  }

  /** The elements of `xs` that satisfy `p`, in order. */
  function Filter<T(!new)>(xs: seq<T>, p: T -> bool): (r: seq<T>)
    ensures |r| <= |xs|
    ensures forall x :: x in r <==> x in xs && p(x)
  {
    if |xs| == 0 then []
    else
      var f := Filter(xs[..|xs| - 1], p);
      assert forall x :: x in xs <==> x in xs[..|xs| - 1] || x == xs[|xs| - 1];
      if p(xs[|xs| - 1]) then f + [xs[|xs| - 1]] else f
  }

  /** The filter keeps its elements in order, each as often as `xs` holds it. */
  lemma {:induction false} FilterExact<T(!new)>(xs: seq<T>, p: T -> bool)
    ensures SubsequenceOf(Filter(xs, p), xs)
    ensures forall x :: multiset(Filter(xs, p))[x] == if p(x) then multiset(xs)[x] else 0
  {
    if |xs| > 0 {
      var init, last := xs[..|xs| - 1], xs[|xs| - 1];
      var f := Filter(init, p);
      FilterExact(init, p);
      assert xs == init + [last];
      if p(last) {
        assert (f + [last])[..|f|] == f;
      } else {
        SubsequenceLonger(f, init, last);
      }
    }
  }

  /** Splitting by a predicate loses nothing. */
  lemma {:induction false} FilterSplit<T(!new)>(xs: seq<T>, p: T -> bool, q: T -> bool)
    requires forall x :: q(x) == !p(x)
    ensures |Filter(xs, p)| + |Filter(xs, q)| == |xs|
  {
    if |xs| > 0 {
      FilterSplit(xs[..|xs| - 1], p, q);
    }
  }

  predicate SortedBy<T>(s: seq<T>, rank: T -> int)
  {
    forall i, j :: 0 <= i < j < |s| ==> rank(s[i]) <= rank(s[j])
  }

  /** Putting the head of `s` back in front of `x` inserted into the rest keeps everything `InsertBy` promises. */
  lemma InsertByStep<T>(x: T, s: seq<T>, rank: T -> int, tail: seq<T>)
    requires |s| > 0 && SortedBy(s, rank) && rank(s[0]) < rank(x)
    requires forall y :: y in tail <==> y == x || y in s[1..]
    requires multiset(tail) == multiset(s[1..]) + multiset{x}
    ensures forall i :: 0 <= i < |tail| ==> rank(s[0]) <= rank(tail[i])
    ensures forall y :: y in [s[0]] + tail <==> y == x || y in s
    ensures multiset([s[0]] + tail) == multiset(s) + multiset{x}
  {
    assert s == [s[0]] + s[1..];
    forall i | 0 <= i < |tail|
      ensures rank(s[0]) <= rank(tail[i])
    {
      assert tail[i] in tail;
      if tail[i] != x {
        var k :| 0 <= k < |s[1..]| && s[1..][k] == tail[i];
        assert s[k + 1] == tail[i];
      }
    }
  }

  function InsertBy<T(!new)>(x: T, s: seq<T>, rank: T -> int): (r: seq<T>)
    requires SortedBy(s, rank)
    ensures |r| == |s| + 1
    ensures forall y :: y in r <==> y == x || y in s
    ensures multiset(r) == multiset(s) + multiset{x}
    ensures SortedBy(r, rank)
  {
    if |s| == 0 then [x]
    else if rank(x) <= rank(s[0]) then [x] + s
    else
      var tail := InsertBy(x, s[1..], rank);
      InsertByStep(x, s, rank, tail);
      [s[0]] + tail
  }

  /** `xs` ordered by increasing `rank`. */
  function SortBy<T(!new)>(xs: seq<T>, rank: T -> int): (r: seq<T>)
    ensures |r| == |xs|
    ensures forall x :: x in r <==> x in xs
    ensures multiset(r) == multiset(xs)
    ensures SortedBy(r, rank)
  {
    if |xs| == 0 then []
    else
      assert xs == xs[..|xs| - 1] + [xs[|xs| - 1]];
      assert forall x :: x in xs <==> x in xs[..|xs| - 1] || x == xs[|xs| - 1];
      InsertBy(xs[|xs| - 1], SortBy(xs[..|xs| - 1], rank), rank)
  }

  predicate IsDigits(s: string)
  {
    forall i :: 0 <= i < |s| ==> '0' <= s[i] <= '9'
  }

  /** A property name that is an array index: the decimal form, without leading zeros, of a number below 2^32 - 1. */
  predicate IsArrayIndex(s: string)
  {
    |s| > 0 && IsDigits(s) && (s[0] != '0' || |s| == 1) && DigitsValue(s) < 0xFFFF_FFFF
  }

  predicate IsPlainName(s: string)
  {
    !IsArrayIndex(s)
  }

  function IndexValue(s: string): int
  {
    if IsArrayIndex(s) then DigitsValue(s) else 0
  }

  /**
   * The order in which `Object.values` visits a plain object whose properties were created in the
   * order `keys`: array indices first by increasing value, then the other names in creation order.
   */
  function ObjectKeyOrder(keys: seq<string>): (r: seq<string>)
    ensures |r| == |keys|
    ensures forall k :: k in r <==> k in keys
    ensures var m := |Filter(keys, IsArrayIndex)|;
      m <= |r| &&
      (forall i :: 0 <= i < m ==> IsArrayIndex(r[i])) &&
      (forall i, j :: 0 <= i < j < m ==> DigitsValue(r[i]) <= DigitsValue(r[j])) &&
      r[m..] == Filter(keys, IsPlainName)
  {
    var indices := SortBy(Filter(keys, IsArrayIndex), IndexValue);
    FilterSplit(keys, IsArrayIndex, IsPlainName);
    assert forall i :: 0 <= i < |indices| ==> indices[i] in indices;
    indices + Filter(keys, IsPlainName)
  }

  /** A number key is an array index when it is a whole number in [0, 2^32 - 1). */
  predicate IsIndexNumber(g: int)
  {
    0 <= g < 0xFFFF_FFFF
  }

  predicate IsOtherNumber(g: int)
  {
    !IsIndexNumber(g)
  }

  function NumberValue(g: int): int
  {
    g
  }

  /** `ObjectKeyOrder` for an object whose property names are the decimal forms of integers. */
  function NumberKeyOrder(keys: seq<int>): (r: seq<int>)
    ensures |r| == |keys|
    ensures forall k :: k in r <==> k in keys
    ensures var m := |Filter(keys, IsIndexNumber)|;
      m <= |r| &&
      (forall i :: 0 <= i < m ==> IsIndexNumber(r[i])) &&
      (forall i, j :: 0 <= i < j < m ==> r[i] <= r[j]) &&
      r[m..] == Filter(keys, IsOtherNumber)
  {
    var indices := SortBy(Filter(keys, IsIndexNumber), NumberValue);
    FilterSplit(keys, IsIndexNumber, IsOtherNumber);
    assert forall i :: 0 <= i < |indices| ==> indices[i] in indices;
    indices + Filter(keys, IsOtherNumber)
  }

  // Arithmetic on reals that the solver needs spelled out

  /** The sum of a list of numbers, added from the left. */
  function Sum(xs: seq<real>): real
  {
    if |xs| == 0 then 0.0 else Sum(xs[..|xs| - 1]) + xs[|xs| - 1]
  }

  /** A sum of numbers in [lo, hi] lies between lo and hi times their count. */
  lemma {:induction false} SumBetween(xs: seq<real>, lo: real, hi: real)
    requires forall k :: 0 <= k < |xs| ==> lo <= xs[k] <= hi
    ensures lo * |xs| as real <= Sum(xs) <= hi * |xs| as real
  {
    if |xs| > 0 {
      SumBetween(xs[..|xs| - 1], lo, hi);
      assert lo * |xs| as real == lo * (|xs| - 1) as real + lo;
      assert hi * |xs| as real == hi * (|xs| - 1) as real + hi;
    }
  }

  /** The mean of a non-empty list of numbers in [-1, 1] is a finite number in [-1, 1]. */
  lemma MeanInUnit(xs: seq<real>)
    requires |xs| > 0 && forall k :: 0 <= k < |xs| ==> -1.0 <= xs[k] <= 1.0
    ensures Div(Sum(xs), |xs| as real).Fin? && -1.0 <= Div(Sum(xs), |xs| as real).v <= 1.0
  {
    SumBetween(xs, -1.0, 1.0);
    QuotientInUnit(Sum(xs), |xs| as real);
  }

  lemma MulPositive(a: real, b: real)
    requires a > 0.0 && b > 0.0
    ensures a * b > 0.0
  {
  }

  lemma QuotientTimes(t: real, n: real)
    requires n != 0.0
    ensures (t / n) * n == t
  {
  }

  /** A positive part of a positive whole is a share in (0, 1]. */
  lemma ShareBounds(c: real, m: real)
    requires 0.0 < c <= m
    ensures 0.0 < c / m <= 1.0
  {
    var q := c / m;
    QuotientTimes(c, m);
    if q > 1.0 {
      MulPositive(q - 1.0, m);
    }
    if q <= 0.0 {
      MulPositive(-q, m);
    }
  }

  /** A quotient by a positive number keeps the sign of the dividend. */
  lemma QuotientNonNegative(x: real, m: real)
    requires 0.0 <= x && 0.0 < m
    ensures 0.0 <= x / m
  {
  }

  /** A number no larger in size than a positive `m`, divided by `m`, lies in [-1, 1]. */
  lemma QuotientInUnit(x: real, m: real)
    requires 0.0 < m && -m <= x <= m
    ensures -1.0 <= x / m <= 1.0
  {
    var q := x / m;
    QuotientTimes(x, m);
    if q > 1.0 {
      MulPositive(q - 1.0, m);
    }
    if q < -1.0 {
      MulPositive(-1.0 - q, m);
    }
  }

  /** A product of two numbers in [0, 1] lies in [0, 1]. */
  lemma ProductInUnit(a: real, b: real)
    requires 0.0 <= a <= 1.0 && 0.0 <= b <= 1.0
    ensures 0.0 <= a * b <= 1.0
  {
    if a > 0.0 && b > 0.0 {
      MulPositive(a, b);
      if b < 1.0 {
        MulPositive(a, 1.0 - b);
        assert a * (1.0 - b) == a - a * b;
      } else {
        assert a * b == a;
      }
    }
  }
}
