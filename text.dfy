/**
 * The string operations of Python's `str` that the core relies on:
 * `lower`, `upper`, `strip`, `split()` with no separator, the substring
 * test `a in b`, `sep.join(parts)` and decimal rendering of an integer.
 * Case mapping covers ASCII letters only; whitespace is Python's set of
 * whitespace characters.
 */
module Text {

  /** The characters `str.isspace()` accepts. */
  predicate IsSpace(c: char) {
    c == ' ' || ('\t' <= c <= '\r') || ('\U{1C}' <= c <= '\U{1F}') ||
    c == '\U{85}' || c == '\U{A0}' || c == '\U{1680}' ||
    ('\U{2000}' <= c <= '\U{200A}') || c == '\U{2028}' || c == '\U{2029}' ||
    c == '\U{202F}' || c == '\U{205F}' || c == '\U{3000}'
  }

  function LowerChar(c: char): char {
    if 'A' <= c <= 'Z' then (c as int + 32) as char else c
  }

  function UpperChar(c: char): char {
    if 'a' <= c <= 'z' then (c as int - 32) as char else c
  }

  /** `s.lower()` */
  function Lower(s: string): string {
    seq(|s|, i requires 0 <= i < |s| => LowerChar(s[i]))
  }

  /** `s.upper()` */
  function Upper(s: string): string {
    seq(|s|, i requires 0 <= i < |s| => UpperChar(s[i]))
  }

  /** `s.lstrip()` */
  function StripLeft(s: string): (r: string)
    ensures |r| <= |s| && r == s[|s| - |r|..]
    ensures r == [] || !IsSpace(r[0])
  {
    if |s| > 0 && IsSpace(s[0]) then StripLeft(s[1..]) else s
  }

  /** `s.rstrip()` */
  function StripRight(s: string): (r: string)
    ensures |r| <= |s| && r == s[..|r|]
    ensures r == [] || !IsSpace(r[|r| - 1])
  {
    if |s| > 0 && IsSpace(s[|s| - 1]) then StripRight(s[..|s| - 1]) else s
  }

  /** `s.strip()`: a piece of `s` that neither starts nor ends with whitespace. */
  function Strip(s: string): (r: string)
    ensures |r| <= |s|
    ensures r == [] || (!IsSpace(r[0]) && !IsSpace(r[|r| - 1]))
  {
    StripRight(StripLeft(s))
  }

  /** No character but whitespace is removed from the front by `s.lstrip()`. */
  lemma {:induction false} StripLeftSpaces(s: string)
    ensures forall i :: 0 <= i < |s| - |StripLeft(s)| ==> IsSpace(s[i])
    decreases |s|
  {
    if |s| > 0 && IsSpace(s[0]) {
      StripLeftSpaces(s[1..]);
    }
  }

  /** No character but whitespace is removed from the back by `s.rstrip()`. */
  lemma {:induction false} StripRightSpaces(s: string)
    ensures forall i :: |StripRight(s)| <= i < |s| ==> IsSpace(s[i])
    decreases |s|
  {
    if |s| > 0 && IsSpace(s[|s| - 1]) {
      StripRightSpaces(s[..|s| - 1]);
    }
  }

  /** `s.lstrip()` is empty exactly when `s` is all whitespace. */
  lemma StripLeftEmpty(s: string)
    ensures StripLeft(s) == [] <==> forall i :: 0 <= i < |s| ==> IsSpace(s[i])
  {
    StripLeftSpaces(s);
    var t := StripLeft(s);
    if t == [] {
      assert |s| - |t| == |s|;
    } else {
      var k := |s| - |t|;
      assert t[0] == s[k] && !IsSpace(s[k]);
    }
  }

  /** `s.strip()` is empty exactly when `s` is all whitespace. */
  lemma StripEmpty(s: string)
    ensures Strip(s) == [] <==> forall i :: 0 <= i < |s| ==> IsSpace(s[i])
  {
    StripLeftEmpty(s);
    StripRightSpaces(StripLeft(s));
  }

  /** `w` holds no ASCII capital letter. */
  predicate NoCapital(w: string) {
    forall j :: 0 <= j < |w| ==> !('A' <= w[j] <= 'Z')
  }

  /** `s.lower()` leaves no capital letter and keeps every other character. */
  lemma LowerChars(s: string)
    ensures |Lower(s)| == |s|
    ensures NoCapital(Lower(s))
    ensures forall i :: 0 <= i < |s| && !('A' <= s[i] <= 'Z') ==> Lower(s)[i] == s[i]
  {
  }

  /** A string without capital letters is its own lower-case form. */
  lemma LowerNoCapital(s: string)
    requires NoCapital(s)
    ensures Lower(s) == s
  {
    LowerChars(s);
  }

  /** `s.upper()` leaves no small letter and keeps every other character. */
  lemma UpperChars(s: string)
    ensures |Upper(s)| == |s|
    ensures forall i :: 0 <= i < |s| ==> !('a' <= Upper(s)[i] <= 'z')
    ensures forall i :: 0 <= i < |s| && !('a' <= s[i] <= 'z') ==> Upper(s)[i] == s[i]
  {
  }

  /** The strip is the piece of `s` at some offset `k`, with only whitespace before and after it. */
  lemma StripSlice(s: string)
    ensures exists k ::
      && 0 <= k <= |s| - |Strip(s)| && IsPrefix(Strip(s), s[k..])
      && (forall i :: 0 <= i < k ==> IsSpace(s[i]))
      && (forall i :: k + |Strip(s)| <= i < |s| ==> IsSpace(s[i]))
  {
    var t := StripLeft(s);
    var k := |s| - |t|;
    StripLeftSpaces(s);
    StripRightSpaces(t);
    assert IsPrefix(Strip(s), s[k..]);
    forall i | k + |Strip(s)| <= i < |s|
      ensures IsSpace(s[i])
    {
      assert s[i] == t[i - k];
    }
  }

  /** A string that starts and ends with a non-space character is its own strip. */
  lemma StripUnchanged(s: string)
    requires s != [] && !IsSpace(s[0]) && !IsSpace(s[|s| - 1])
    ensures Strip(s) == s
  {
  }

  /** Stripping one whitespace character from each end of a string that starts and ends with a non-space. */
  lemma StripFrame(a: char, body: string, b: char)
    requires IsSpace(a) && IsSpace(b)
    requires body != [] && !IsSpace(body[0]) && !IsSpace(body[|body| - 1])
    ensures Strip([a] + body + [b]) == body
  {
    var t := [a] + body + [b];
    var u := body + [b];
    assert t[1..] == u;
    assert u[0] == body[0];
    assert StripLeft(u) == u;
    assert StripLeft(t) == u;
    assert u[..|u| - 1] == body;
    assert StripRight(u) == StripRight(body);
  }

  predicate IsPrefix(p: string, s: string) {
    |p| <= |s| && s[..|p|] == p
  }

  /** Python's `needle in hay` on strings: a contiguous occurrence. */
  predicate Contains(hay: string, needle: string)
    decreases |hay|
  {
    IsPrefix(needle, hay) || (|hay| > 0 && Contains(hay[1..], needle))
  }

  /** `w` holds no whitespace character. */
  predicate NoSpace(w: string) {
    forall j :: 0 <= j < |w| ==> !IsSpace(w[j])
  }

  /** The longest prefix of `s` without whitespace. */
  function WordPrefix(s: string): (w: string)
    ensures |w| <= |s| && w == s[..|w|]
    ensures s != [] && !IsSpace(s[0]) ==> |w| >= 1
    ensures NoSpace(w)
    ensures |w| < |s| ==> IsSpace(s[|w|])
  {
    if s == [] || IsSpace(s[0]) then [] else [s[0]] + WordPrefix(s[1..])
  }

  /** `s.split()`: the maximal runs of non-whitespace characters, in order. */
  function Words(s: string): seq<string>
    decreases |s|
  {
    if s == [] then []
    else if IsSpace(s[0]) then Words(s[1..])
    else
      var w := WordPrefix(s);
      [w] + Words(s[|w|..])
  }

  /** The whitespace-free prefix of `w + rest` is `w` when `w` is a whole run. */
  lemma {:induction false} WordPrefixRun(w: string, rest: string)
    requires NoSpace(w)
    requires rest == [] || IsSpace(rest[0])
    ensures WordPrefix(w + rest) == w
  {
    if w != [] {
      assert (w + rest)[0] == w[0];
      assert (w + rest)[1..] == w[1..] + rest;
      assert NoSpace(w[1..]) by {
        forall j | 0 <= j < |w[1..]| ensures !IsSpace(w[1..][j]) {
          assert w[1..][j] == w[j + 1];
        }
      }
      WordPrefixRun(w[1..], rest);
      assert [w[0]] + w[1..] == w;
    }
  }

  /**
   * `split()` is determined by its maximal runs: leading whitespace is
   * skipped, and a non-empty whitespace-free run that ends at whitespace or
   * at the end of the string is one whole word.
   */
  lemma WordsRun(w: string, rest: string)
    requires w != [] && NoSpace(w)
    requires rest == [] || IsSpace(rest[0])
    ensures Words(w + rest) == [w] + Words(rest)
  {
    WordPrefixRun(w, rest);
    assert (w + rest)[0] == w[0];
    assert (w + rest)[|w|..] == rest;
  }

  /** Whitespace before the first word is skipped by `split()`. */
  lemma WordsSkipSpace(c: char, s: string)
    requires IsSpace(c)
    ensures Words([c] + s) == Words(s)
  {
    assert ([c] + s)[1..] == s;
  }

  /** Every character of a slice is a character of the whole. */
  lemma SliceMembers(s: string, a: nat, b: nat)
    requires a <= b <= |s|
    ensures forall c :: c in s[a..b] ==> c in s
  {
    forall c | c in s[a..b]
      ensures c in s
    {
      var i :| 0 <= i < b - a && s[a..b][i] == c;
      assert s[a + i] == c;
    }
  }

  /** The words of `s` are non-empty and hold no whitespace. */
  lemma {:induction false} WordsShape(s: string)
    ensures forall k :: 0 <= k < |Words(s)| ==> Words(s)[k] != [] && NoSpace(Words(s)[k])
    decreases |s|
  {
    if s != [] && IsSpace(s[0]) {
      WordsShape(s[1..]);
    } else if s != [] {
      var w := WordPrefix(s);
      WordsShape(s[|w|..]);
      assert Words(s) == [w] + Words(s[|w|..]);
    }
  }

  /** Every character of a word of `s` is a character of `s`. */
  lemma {:induction false} WordsFrom(s: string)
    ensures forall k, j :: 0 <= k < |Words(s)| && 0 <= j < |Words(s)[k]| ==> Words(s)[k][j] in s
    decreases |s|
  {
    if s != [] && IsSpace(s[0]) {
      WordsFrom(s[1..]);
      SliceMembers(s, 1, |s|);
    } else if s != [] {
      var w := WordPrefix(s);
      var rest := Words(s[|w|..]);
      WordsFrom(s[|w|..]);
      assert Words(s) == [w] + rest;
      SliceMembers(s, 0, |w|);
      SliceMembers(s, |w|, |s|);
      forall k, j | 0 <= k < |Words(s)| && 0 <= j < |Words(s)[k]|
        ensures Words(s)[k][j] in s
      {
        if k == 0 {
          assert w[j] in s[0..|w|];
        } else {
          assert Words(s)[k] == rest[k - 1] && rest[k - 1][j] in s[|w|..];
        }
      }
    }
  }

  /** `s.split()` is empty exactly when `s` is all whitespace. */
  lemma {:induction false} WordsEmpty(s: string)
    ensures Words(s) == [] <==> forall i :: 0 <= i < |s| ==> IsSpace(s[i])
    decreases |s|
  {
    if s != [] && IsSpace(s[0]) {
      WordsEmpty(s[1..]);
      assert forall i :: 1 <= i < |s| ==> s[i] == s[1..][i - 1];
    }
  }

  /** `sep.join(parts)`: the parts in order with `sep` between neighbours. */
  function Join(sep: string, parts: seq<string>): (r: string)
    ensures parts == [] ==> r == []
    ensures |parts| == 1 ==> r == parts[0]
    ensures parts != [] ==> IsPrefix(parts[0], r)
    decreases |parts|
  {
    if parts == [] then ""
    else if |parts| == 1 then parts[0]
    else Join(sep, parts[..|parts| - 1]) + sep + parts[|parts| - 1]
  }

  function DigitChar(d: nat): char
    requires d < 10
  {
    "0123456789"[d]
  }

  /** `str(n)` for a natural number. */
  function NatToString(n: nat): string
    decreases n
  {
    if n < 10 then [DigitChar(n)] else NatToString(n / 10) + [DigitChar(n % 10)]
  }

  /** `needle in hay` holds exactly when `needle` starts at some position of `hay`. */
  lemma {:induction false} ContainsAt(hay: string, needle: string)
    ensures Contains(hay, needle) <==> exists i :: 0 <= i <= |hay| && IsPrefix(needle, hay[i..])
    decreases |hay|
  {
    if Contains(hay, needle) {
      if IsPrefix(needle, hay) {
        assert hay[0..] == hay;
      } else {
        ContainsAt(hay[1..], needle);
        var i :| 0 <= i <= |hay[1..]| && IsPrefix(needle, hay[1..][i..]);
        assert hay[1..][i..] == hay[i + 1..];
      }
    }
    if exists i :: 0 <= i <= |hay| && IsPrefix(needle, hay[i..]) {
      var i :| 0 <= i <= |hay| && IsPrefix(needle, hay[i..]);
      if i == 0 {
        assert hay[0..] == hay;
      } else {
        assert hay[1..][i - 1..] == hay[i..];
        ContainsAt(hay[1..], needle);
      }
    }
  }

  /** A string never contains a longer one. */
  lemma {:induction false} ContainsLonger(hay: string, needle: string)
    requires |needle| > |hay|
    ensures !Contains(hay, needle)
    decreases |hay|
  {
    if |hay| > 0 {
      ContainsLonger(hay[1..], needle);
    }
  }

  /** Every string contains itself at its start. */
  lemma ContainsPrefix(hay: string, needle: string)
    requires IsPrefix(needle, hay)
    ensures Contains(hay, needle)
  {
  }

  /** The value of a decimal digit character. */
  function DigitValue(c: char): nat {
    if '0' <= c <= '9' then c as int - '0' as int else 0
  }

  /** The number a string of decimal digits denotes. */
  function DecimalValue(s: string): nat
    decreases |s|
  {
    if s == [] then 0 else DecimalValue(s[..|s| - 1]) * 10 + DigitValue(s[|s| - 1])
  }

  /**
   * `str(n)` is a non-empty string of digits without a leading zero (only
   * `0` itself starts with `'0'`) that reads back as `n`.
   */
  lemma {:induction false} NatToStringValue(n: nat)
    ensures NatToString(n) != []
    ensures forall i :: 0 <= i < |NatToString(n)| ==> '0' <= NatToString(n)[i] <= '9'
    ensures |NatToString(n)| > 1 ==> NatToString(n)[0] != '0'
    ensures NatToString(n)[0] == '0' <==> n == 0
    ensures DecimalValue(NatToString(n)) == n
    decreases n
  {
    var s := NatToString(n);
    if n >= 10 {
      NatToStringValue(n / 10);
      var d := DigitChar(n % 10);
      assert s == NatToString(n / 10) + [d];
      assert s[..|s| - 1] == NatToString(n / 10);
      assert s[0] == NatToString(n / 10)[0];
      assert DigitValue(d) == n % 10;
    }
  }

  /** A whitespace character stays whitespace under ASCII case mapping, and vice versa. */
  lemma LowerKeepsSpace(c: char)
    ensures IsSpace(LowerChar(c)) == IsSpace(c)
  {
  }

  /** `s.lower()` is all whitespace exactly when `s` is. */
  lemma LowerAllSpace(s: string)
    ensures (forall i :: 0 <= i < |Lower(s)| ==> IsSpace(Lower(s)[i])) <==> (forall i :: 0 <= i < |s| ==> IsSpace(s[i]))
  {
    forall i | 0 <= i < |s|
      ensures IsSpace(Lower(s)[i]) == IsSpace(s[i])
    {
      LowerKeepsSpace(s[i]);
    }
  }

  lemma {:induction false} StripLeftLower(s: string)
    ensures StripLeft(Lower(s)) == Lower(StripLeft(s))
    decreases |s|
  {
    if |s| > 0 {
      LowerKeepsSpace(s[0]);
      if IsSpace(s[0]) {
        assert Lower(s)[1..] == Lower(s[1..]);
        StripLeftLower(s[1..]);
      }
    }
  }

  lemma {:induction false} StripRightLower(s: string)
    ensures StripRight(Lower(s)) == Lower(StripRight(s))
    decreases |s|
  {
    if |s| > 0 {
      LowerKeepsSpace(s[|s| - 1]);
      if IsSpace(s[|s| - 1]) {
        assert Lower(s)[..|s| - 1] == Lower(s[..|s| - 1]);
        StripRightLower(s[..|s| - 1]);
      }
    }
  }

  /**
   * Stripping and upper-casing a response gives the same string whether or
   * not the response was lower-cased first: the decision rules that match
   * on `response.strip().upper()` cannot see the case of their input.
   */
  lemma {:induction false} UpperStripIgnoresCase(s: string)
    ensures Upper(Strip(Lower(s))) == Upper(Strip(s))
  {
    StripLeftLower(s);
    StripRightLower(StripLeft(s));
    var t := Strip(s);
    assert Strip(Lower(s)) == Lower(t);
    UpperLower(t);
  }

  /** Two strings equal up to case are equal once stripped and upper-cased. */
  lemma UpperStripCase(a: string, b: string)
    requires Lower(a) == Lower(b)
    ensures Upper(Strip(a)) == Upper(Strip(b))
  {
    UpperStripIgnoresCase(a);
    UpperStripIgnoresCase(b);
  }

  lemma UpperLowerChar(c: char)
    ensures UpperChar(LowerChar(c)) == UpperChar(c)
  {
  }

  lemma UpperLower(t: string)
    ensures Upper(Lower(t)) == Upper(t)
  {
    forall i | 0 <= i < |t|
      ensures Upper(Lower(t))[i] == Upper(t)[i]
    {
      UpperLowerChar(t[i]);
    }
  }
}
