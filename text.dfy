/**
 * The Python string operations the services rely on, over `string` (= seq<char>):
 * str.isspace, str.strip, str.split() and str.split(sep), str.join, str.replace,
 * `in` on strings, str.startswith, str.lower and str(n) for a natural number.
 */
module Text {
  import opened Wrappers

  /** CPython's str.isspace: the characters that `\s`, str.split() and str.strip() treat as whitespace. */
  predicate IsSpace(c: char) {
    c == ' ' || ('\t' <= c <= '\r') || ('\U{001C}' <= c <= '\U{001F}')
    || c == '\U{0085}' || c == '\U{00A0}' || c == '\U{1680}'
    || ('\U{2000}' <= c <= '\U{200A}') || c == '\U{2028}' || c == '\U{2029}'
    || c == '\U{202F}' || c == '\U{205F}' || c == '\U{3000}'
  }

  predicate IsDigit(c: char) { '0' <= c <= '9' }

  predicate IsUpper(c: char) { 'A' <= c <= 'Z' }

  predicate IsLower(c: char) { 'a' <= c <= 'z' }

  predicate IsLetter(c: char) { IsUpper(c) || IsLower(c) }

  /** `\w`, restricted to ASCII. */
  predicate IsWordChar(c: char) { IsLetter(c) || IsDigit(c) || c == '_' }

  predicate IsBlank(s: string) {
    forall i :: 0 <= i < |s| ==> IsSpace(s[i])
  }

  /** A token of str.split(): non-empty and free of whitespace. */
  predicate IsWord(w: string) {
    w != [] && forall i :: 0 <= i < |w| ==> !IsSpace(w[i])
  }

  function LowerChar(c: char): char {
    if IsUpper(c) then (c as int + 32) as char else c
  }

  /** str.lower() on the ASCII letters. */
  function Lower(s: string): (r: string)
    ensures |r| == |s|
  {
    seq(|s|, i requires 0 <= i < |s| => LowerChar(s[i]))
  }

  // ---------------------------------------------------------------------------
  // strip

  /** str.lstrip() */
  function LStrip(s: string): string {
    if s != [] && IsSpace(s[0]) then LStrip(s[1..]) else s
  }

  /** str.rstrip() */
  function RStrip(s: string): string {
    if s != [] && IsSpace(s[|s| - 1]) then RStrip(s[..|s| - 1]) else s
  }

  /** str.strip() */
  function Strip(s: string): string {
    RStrip(LStrip(s))
  }

  /** lstrip drops the leading whitespace and nothing else. */
  lemma {:induction false} LStripSpec(s: string)
    ensures |LStrip(s)| <= |s| && LStrip(s) == s[|s| - |LStrip(s)|..]
    ensures IsBlank(s[..|s| - |LStrip(s)|])
    ensures LStrip(s) == [] || !IsSpace(LStrip(s)[0])
  {
    if s != [] && IsSpace(s[0]) {
      LStripSpec(s[1..]);
      var k := |s| - |LStrip(s)|;
      assert s[..k] == [s[0]] + s[1..][..k - 1];
    }
  }

  /** rstrip drops the trailing whitespace and nothing else. */
  lemma {:induction false} RStripSpec(s: string)
    ensures |RStrip(s)| <= |s| && RStrip(s) == s[..|RStrip(s)|]
    ensures IsBlank(s[|RStrip(s)|..])
    ensures RStrip(s) == [] || !IsSpace(RStrip(s)[|RStrip(s)| - 1])
  {
    if s != [] && IsSpace(s[|s| - 1]) {
      RStripSpec(s[..|s| - 1]);
      var k := |RStrip(s)|;
      assert s[k..] == s[..|s| - 1][k..] + [s[|s| - 1]];
    }
  }

  /** str.strip() leaves no whitespace at either end and keeps only characters of its argument. */
  lemma StripEnds(s: string)
    ensures Strip(s) == [] || (!IsSpace(Strip(s)[0]) && !IsSpace(Strip(s)[|Strip(s)| - 1]))
    ensures forall i :: 0 <= i < |Strip(s)| ==> Strip(s)[i] in s
  {
    var l := LStrip(s);
    var r := RStrip(l);
    LStripSpec(s);
    RStripSpec(l);
    if r != [] {
      assert r[0] == l[0];
    }
    forall i | 0 <= i < |r| ensures r[i] in s {
      assert r[i] == l[i] == s[|s| - |l| + i];
    }
  }

  lemma {:induction false} LStripKeepsBlankness(s: string)
    ensures IsBlank(LStrip(s)) <==> IsBlank(s)
  {
    if s != [] && IsSpace(s[0]) {
      LStripKeepsBlankness(s[1..]);
      assert IsBlank(s) <==> IsBlank(s[1..]) by {
        assert forall i :: 0 < i < |s| ==> s[i] == s[1..][i - 1];
      }
    }
  }

  lemma {:induction false} RStripEmptyIffBlank(s: string)
    ensures RStrip(s) == [] <==> IsBlank(s)
  {
    if s != [] && IsSpace(s[|s| - 1]) {
      RStripEmptyIffBlank(s[..|s| - 1]);
      assert IsBlank(s) <==> IsBlank(s[..|s| - 1]) by {
        assert forall i :: 0 <= i < |s| - 1 ==> s[i] == s[..|s| - 1][i];
      }
    }
  }

  /** The strip of a string is empty exactly when the string is all whitespace. */
  lemma StripEmptyIffBlank(s: string)
    ensures Strip(s) == [] <==> IsBlank(s)
  {
    LStripKeepsBlankness(s);
    RStripEmptyIffBlank(LStrip(s));
  }

  /** A string that starts with a non-whitespace character keeps content after stripping. */
  lemma StripKeepsNonSpaceStart(s: string)
    requires s != [] && !IsSpace(s[0])
    ensures Strip(s) != []
  {
    StripEmptyIffBlank(s);
  }

  // ---------------------------------------------------------------------------
  // split and join

  /** Length of the leading run of non-whitespace characters. */
  function WordLen(s: string): (n: nat)
    ensures n <= |s|
    ensures forall i :: 0 <= i < n ==> !IsSpace(s[i])
    ensures n == |s| || IsSpace(s[n])
  {
    if s == [] || IsSpace(s[0]) then 0 else 1 + WordLen(s[1..])
  }

  /** str.split() with no separator: the maximal runs of non-whitespace characters. */
  function SplitWs(s: string): (r: seq<string>)
    ensures forall i :: 0 <= i < |r| ==> IsWord(r[i])
    decreases |s|
  {
    if s == [] then []
    else if IsSpace(s[0]) then SplitWs(s[1..])
    else
      var n := WordLen(s);
      [s[..n]] + SplitWs(s[n..])
  }

  /** sep.join(ws) */
  function Join(ws: seq<string>, sep: string): string {
    if |ws| == 0 then []
    else if |ws| == 1 then ws[0]
    else ws[0] + sep + Join(ws[1..], sep)
  }

  lemma {:induction false} WordLenOfWordThenSpace(w: string, t: string)
    requires forall i :: 0 <= i < |w| ==> !IsSpace(w[i])
    requires t == [] || IsSpace(t[0])
    ensures WordLen(w + t) == |w|
  {
    if w != [] {
      assert (w + t)[1..] == w[1..] + t;
      WordLenOfWordThenSpace(w[1..], t);
    } else {
      assert w + t == t;
    }
  }

  /** Joining words with single spaces and splitting again gives the words back. */
  lemma {:induction false} SplitJoinRoundTrip(ws: seq<string>)
    requires forall i :: 0 <= i < |ws| ==> IsWord(ws[i])
    ensures SplitWs(Join(ws, " ")) == ws
  {
    if |ws| == 0 {
    } else if |ws| == 1 {
      var w := ws[0];
      WordLenOfWordThenSpace(w, []);
      assert w + [] == w;
      assert w[..|w|] == w && w[|w|..] == [];
    } else {
      var w := ws[0];
      var rest := Join(ws[1..], " ");
      var s := w + " " + rest;
      assert Join(ws, " ") == s;
      WordLenOfWordThenSpace(w, " " + rest);
      assert s == w + (" " + rest);
      assert s[..|w|] == w;
      assert s[|w|..] == " " + rest;
      assert (" " + rest)[1..] == rest;
      SplitJoinRoundTrip(ws[1..]);
      assert SplitWs(s) == [w] + SplitWs(s[|w|..]);
      assert ws == [w] + ws[1..];
    }
  }

  /** str.split(sep) for a one-character separator: never empty, keeps empty pieces. */
  function SplitOn(s: string, sep: char): (r: seq<string>)
    ensures |r| >= 1
    ensures forall i :: 0 <= i < |r| ==> sep !in r[i]
  {
    if s == [] then [[]]
    else
      var rest := SplitOn(s[1..], sep);
      if s[0] == sep then [[]] + rest
      else [[s[0]] + rest[0]] + rest[1..]
  }

  /** Splitting on a character and joining with it again gives the original string. */
  lemma {:induction false} SplitOnJoinRoundTrip(s: string, sep: char)
    ensures Join(SplitOn(s, sep), [sep]) == s
  {
    if s != [] {
      var rest := SplitOn(s[1..], sep);
      SplitOnJoinRoundTrip(s[1..], sep);
      if s[0] == sep {
        assert Join([[]] + rest, [sep]) == [] + [sep] + Join(rest, [sep]);
        assert s == [s[0]] + s[1..];
      } else {
        if |rest| == 1 {
          assert SplitOn(s, sep) == [[s[0]] + rest[0]];
        } else {
          var r := SplitOn(s, sep);
          assert r[1..] == rest[1..];
          assert Join(rest, [sep]) == rest[0] + [sep] + Join(rest[1..], [sep]);
        }
        assert s == [s[0]] + s[1..];
      }
    }
  }

  // ---------------------------------------------------------------------------
  // substring search and replacement

  predicate IsPrefix(p: string, s: string) {
    |p| <= |s| && s[..|p|] == p
  }

  predicate OccursAt(s: string, p: string, i: nat) {
    i + |p| <= |s| && s[i..i + |p|] == p
  }

  lemma OccursAtShift(s: string, p: string, i: nat)
    requires s != []
    ensures OccursAt(s, p, i + 1) <==> OccursAt(s[1..], p, i)
  {
    if i + 1 + |p| <= |s| {
      assert s[1..][i..i + |p|] == s[i + 1..i + 1 + |p|];
    }
  }

  /** str.find(p) as an Option: the first position where p occurs. */
  function FindSub(s: string, p: string): (r: Option<nat>)
    ensures r.Some? ==> OccursAt(s, p, r.value)
    ensures r.Some? ==> forall i: nat :: i < r.value ==> !OccursAt(s, p, i)
    ensures r.None? ==> forall i: nat :: !OccursAt(s, p, i)
    decreases |s|
  {
    if |s| < |p| then None
    else if IsPrefix(p, s) then Some(0)
    else
      assert !OccursAt(s, p, 0);
      match FindSub(s[1..], p)
      case None =>
        assert forall i: nat :: !OccursAt(s, p, i) by {
          forall i: nat ensures !OccursAt(s, p, i) {
            if i > 0 { OccursAtShift(s, p, i - 1); }
          }
        }
        None
      case Some(k) =>
        assert forall i: nat :: i < k + 1 ==> !OccursAt(s, p, i) by {
          forall i: nat | i < k + 1 ensures !OccursAt(s, p, i) {
            if i > 0 { OccursAtShift(s, p, i - 1); }
          }
        }
        OccursAtShift(s, p, k);
        Some(k + 1)
  }

  /** The text before the first occurrence of p does not contain p. */
  lemma PrefixAvoids(s: string, p: string, k: nat)
    requires p != [] && k <= |s|
    requires forall i: nat :: i < k ==> !OccursAt(s, p, i)
    ensures forall j: nat :: !OccursAt(s[..k], p, j)
  {
    forall j: nat ensures !OccursAt(s[..k], p, j) {
      if j + |p| <= k {
        assert s[..k][j..j + |p|] == s[j..j + |p|];
        assert j < k && !OccursAt(s, p, j);
      }
    }
  }

  /** Python's `p in s`. */
  predicate Contains(s: string, p: string) {
    FindSub(s, p).Some?
  }

  /** str.replace(p, rep): every non-overlapping occurrence, scanning left to right;
      an empty p inserts rep before every character and at the end. */
  function ReplaceAll(s: string, p: string, rep: string): string
    decreases |s|
  {
    if p == [] then (if s == [] then rep else rep + [s[0]] + ReplaceAll(s[1..], p, rep))
    else if IsPrefix(p, s) then rep + ReplaceAll(s[|p|..], p, rep)
    else if s == [] then []
    else [s[0]] + ReplaceAll(s[1..], p, rep)
  }

  /** Replacing p by p + q never shortens the string, and lengthens it by at least |q|
      when p occurs. */
  lemma {:induction false} ReplaceExtendsLength(s: string, p: string, q: string)
    requires p != []
    ensures |ReplaceAll(s, p, p + q)| >= |s| + (if Contains(s, p) then |q| else 0)
    decreases |s|
  {
    if IsPrefix(p, s) {
      ReplaceExtendsLength(s[|p|..], p, q);
    } else if s != [] {
      ReplaceExtendsLength(s[1..], p, q);
      if |s| >= |p| {
        assert Contains(s, p) == Contains(s[1..], p);
      } else {
        assert !OccursAt(s, p, 0);
        assert !Contains(s, p);
      }
    }
  }

  /** str.replace leaves the text before the first occurrence alone and puts the
      replacement where that occurrence was. */
  lemma {:induction false} ReplaceAtFirst(s: string, p: string, rep: string, k: nat)
    requires p != [] && OccursAt(s, p, k)
    requires forall i: nat :: i < k ==> !OccursAt(s, p, i)
    ensures ReplaceAll(s, p, rep) == s[..k] + rep + ReplaceAll(s[k + |p|..], p, rep)
    decreases k
  {
    if k == 0 {
      assert IsPrefix(p, s);
      assert s[..k] + rep == rep;
    } else {
      var rest := s[1..];
      NoEarlierShift(s, p, k);
      ReplaceAtFirst(rest, p, rep, k - 1);
      assert rest[k - 1 + |p|..] == s[k + |p|..];
      var tail := ReplaceAll(s[k + |p|..], p, rep);
      var mid := ReplaceAll(rest, p, rep);
      assert mid == rest[..k - 1] + rep + tail;
      ReplaceSkips(s, p, rep);
      assert ReplaceAll(s, p, rep) == [s[0]] + mid;
      ConsPrefix(s, k, rep, tail);
    }
  }

  /** Dropping the first character moves the first occurrence one place left. */
  lemma NoEarlierShift(s: string, p: string, k: nat)
    requires 0 < k && OccursAt(s, p, k)
    requires forall i: nat :: i < k ==> !OccursAt(s, p, i)
    ensures OccursAt(s[1..], p, k - 1)
    ensures forall i: nat :: i < k - 1 ==> !OccursAt(s[1..], p, i)
  {
    forall i: nat | i < k - 1 ensures !OccursAt(s[1..], p, i) {
      OccursAtShift(s, p, i);
    }
    OccursAtShift(s, p, k - 1);
  }

  /** Where p does not start s, str.replace keeps the first character. */
  lemma ReplaceSkips(s: string, p: string, rep: string)
    requires p != [] && s != [] && !OccursAt(s, p, 0)
    ensures ReplaceAll(s, p, rep) == [s[0]] + ReplaceAll(s[1..], p, rep)
  {
    assert !IsPrefix(p, s);
  }

  lemma ConsPrefix(s: string, k: nat, rep: string, tail: string)
    requires 0 < k <= |s|
    ensures [s[0]] + (s[1..][..k - 1] + rep + tail) == s[..k] + rep + tail
  {
    assert [s[0]] + s[1..][..k - 1] == s[..k];
  }

  // ---------------------------------------------------------------------------
  // numbers

  function DigitChar(d: nat): (c: char)
    requires d < 10
    ensures IsDigit(c)
  {
    ('0' as int + d) as char
  }

  /** str(n) for a natural number. */
  function NatToString(n: nat): (r: string)
    ensures r != []
    ensures |r| == 1 <==> n < 10
    decreases n
  {
    if n < 10 then [DigitChar(n)] else NatToString(n / 10) + [DigitChar(n % 10)]
  }

  /** Different numbers print differently. */
  lemma {:induction false} NatToStringInjective(a: nat, b: nat)
    requires NatToString(a) == NatToString(b)
    ensures a == b
    decreases a
  {
    var ra, rb := NatToString(a), NatToString(b);
    if a >= 10 && b >= 10 {
      assert ra[..|ra| - 1] == NatToString(a / 10);
      assert rb[..|rb| - 1] == NatToString(b / 10);
      NatToStringInjective(a / 10, b / 10);
      assert DigitChar(a % 10) == ra[|ra| - 1] == rb[|rb| - 1] == DigitChar(b % 10);
    }
  }
}
