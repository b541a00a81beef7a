/**
 * The parts of Python's `str` behaviour that the model relies on, written out over
 * `seq<char>`: the whitespace class used by `strip()`, `split()` and the regex `\s`,
 * ASCII `lower()`/`title()`, `startswith`, `in`, `split(sep)[k]` and `rstrip(chars)`.
 */
module Text {
  import opened Wrappers

  /** Python's `str.isspace()` for one character, the same class as `\s` in a `str` regex. */
  predicate IsSpace(c: char) {
    || c == ' '
    || ('\t' <= c <= '\r')
    || ('\U{1C}' <= c <= '\U{1F}')
    || c == '\U{85}' || c == '\U{A0}' || c == '\U{1680}'
    || ('\U{2000}' <= c <= '\U{200A}')
    || c == '\U{2028}' || c == '\U{2029}' || c == '\U{202F}' || c == '\U{205F}' || c == '\U{3000}'
  }

  predicate IsAsciiLetter(c: char) {
    ('a' <= c <= 'z') || ('A' <= c <= 'Z')
  }

  predicate NoSpace(s: string) {
    forall i :: 0 <= i < |s| ==> !IsSpace(s[i])
  }

  predicate AllLetters(s: string) {
    forall i :: 0 <= i < |s| ==> IsAsciiLetter(s[i])
  }

  /** Python truthiness of an optional string: present and non-empty. */
  predicate Truthy(o: Option<string>) {
    o.Some? && o.value != ""
  }

  predicate StartsWith(s: string, prefix: string) {
    prefix <= s
  }

  function LowerChar(c: char): char {
    if 'A' <= c <= 'Z' then (c as int + 32) as char else c
  }

  function UpperChar(c: char): char {
    if 'a' <= c <= 'z' then (c as int - 32) as char else c
  }

  /** `s.lower()` on ASCII letters. */
  function Lower(s: string): (r: string)
    ensures |r| == |s|
  {
    seq(|s|, i requires 0 <= i < |s| => LowerChar(s[i]))
  }

  /**
   * The first index at which `sep` occurs in `s` (`s.find(sep)`, as an option).
   * The result is an occurrence, and no earlier position holds one.
   */
  function Find(s: string, sep: string): (r: Option<nat>)
    ensures r.Some? ==> r.value + |sep| <= |s| && sep <= s[r.value..]
    decreases |s|
  {
    if sep <= s then Some(0)
    else if s == [] then None
    else
      match Find(s[1..], sep)
      case None => None
      case Some(i) => Some(i + 1)
  }

  /** `Find` gives the first occurrence, and `None` only when there is none. */
  lemma {:induction false} FindIsFirst(s: string, sep: string)
    ensures Find(s, sep).Some? ==> forall j :: 0 <= j < Find(s, sep).value ==> !(sep <= s[j..])
    ensures Find(s, sep).None? ==> forall j :: 0 <= j <= |s| ==> !(sep <= s[j..])
    decreases |s|
  {
    if !(sep <= s) && s != [] {
      FindIsFirst(s[1..], sep);
      assert forall j :: 1 <= j <= |s| ==> s[1..][j - 1..] == s[j..];
    }
  }

  /** Python's `sub in s`. */
  predicate Contains(s: string, sub: string) {
    Find(s, sub).Some?
  }

  /** `s.split(sep)[0]`: the text before the first `sep`, or all of `s`. */
  function Before(s: string, sep: string): (r: string)
    ensures r <= s
    ensures Contains(s, sep) ==> r + sep <= s
  {
    match Find(s, sep)
    case Some(i) => s[..i]
    case None => s
  }

  /** What follows the first `sep` in `s` (empty when there is none). */
  function After(s: string, sep: string): string {
    match Find(s, sep)
    case Some(i) => s[i + |sep|..]
    case None => ""
  }

  /** `s.split(sep)[1]`, for an `s` that contains `sep`. */
  function SecondPart(s: string, sep: string): string {
    Before(After(s, sep), sep)
  }

  /** `s.split(c)[0]` for a one-character separator. */
  function BeforeChar(s: string, c: char): (r: string)
    ensures r <= s
    ensures c !in r
    ensures c in s ==> |r| < |s| && s[|r|] == c
    ensures c !in s ==> r == s
  {
    if s == [] then []
    else if s[0] == c then []
    else [s[0]] + BeforeChar(s[1..], c)
  }

  function LStrip(s: string): (r: string)
    ensures |r| <= |s| && r == s[|s| - |r|..]
    ensures r == [] || !IsSpace(r[0])
  {
    if s != [] && IsSpace(s[0]) then LStrip(s[1..]) else s
  }

  function RStrip(s: string): (r: string)
    ensures r <= s
    ensures r == [] || !IsSpace(r[|r| - 1])
  {
    if s != [] && IsSpace(s[|s| - 1]) then RStrip(s[..|s| - 1]) else s
  }

  /** `s.strip()`. */
  function Strip(s: string): string {
    RStrip(LStrip(s))
  }

  /** `s.rstrip(chars)`. */
  function RStripIn(s: string, chars: set<char>): (r: string)
    ensures r <= s
    ensures r == [] || r[|r| - 1] !in chars
  {
    if s != [] && s[|s| - 1] in chars then RStripIn(s[..|s| - 1], chars) else s
  }

  /** `s.lstrip(chars)`. */
  function LStripIn(s: string, chars: set<char>): (r: string)
    ensures |r| <= |s| && r == s[|s| - |r|..]
  {
    if s != [] && s[0] in chars then LStripIn(s[1..], chars) else s
  }

  /** `s.strip(chars)`. */
  function StripIn(s: string, chars: set<char>): string {
    RStripIn(LStripIn(s, chars), chars)
  }

  /** The length of the run of non-whitespace characters at the start of `s`. */
  function WordLen(s: string): (n: nat)
    ensures n <= |s|
    ensures NoSpace(s[..n])
    ensures n < |s| ==> IsSpace(s[n])
  {
    if s == [] || IsSpace(s[0]) then 0 else 1 + WordLen(s[1..])
  }

  /** `s.split()`: the maximal runs of non-whitespace characters, in order. */
  function Words(s: string): seq<string>
    decreases |s|
  {
    var t := LStrip(s);
    if t == [] then []
    else
      var n := WordLen(t);
      [t[..n]] + Words(t[n..])
  }

  function TitleFrom(s: string, afterLetter: bool): (r: string)
    ensures |r| == |s|
  {
    if s == [] then []
    else if IsAsciiLetter(s[0]) then
      [if afterLetter then LowerChar(s[0]) else UpperChar(s[0])] + TitleFrom(s[1..], true)
    else [s[0]] + TitleFrom(s[1..], false)
  }

  /** `s.title()` on ASCII letters: a letter is upper-cased after a non-letter, lower-cased after a letter. */
  function Title(s: string): (r: string)
    ensures |r| == |s|
  {
    TitleFrom(s, false)
  }

  /** Every ASCII letter is upper-case at the start of a run of letters and lower-case inside one. */
  predicate IsTitleCased(r: string) {
    forall i :: 0 <= i < |r| && IsAsciiLetter(r[i]) ==>
      if i == 0 || !IsAsciiLetter(r[i - 1]) then !('a' <= r[i] <= 'z') else !('A' <= r[i] <= 'Z')
  }

  /** The text holds no upper-case ASCII letter. */
  predicate HasNoUpper(s: string) {
    forall i :: 0 <= i < |s| ==> !('A' <= s[i] <= 'Z')
  }

  /** `TitleFrom` changes letter case only, so it keeps which characters are letters. */
  lemma {:induction false} TitleFromKeeps(s: string, afterLetter: bool)
    ensures var r := TitleFrom(s, afterLetter);
      && (forall i :: 0 <= i < |s| ==> LowerChar(r[i]) == LowerChar(s[i]))
      && (forall i :: 0 <= i < |s| ==> (IsAsciiLetter(r[i]) <==> IsAsciiLetter(s[i])))
    decreases |s|
  {
    if s != [] {
      var r := TitleFrom(s, afterLetter);
      var t := TitleFrom(s[1..], IsAsciiLetter(s[0]));
      TitleFromKeeps(s[1..], IsAsciiLetter(s[0]));
      assert r[1..] == t;
      forall i | 0 < i < |s|
        ensures r[i] == t[i - 1] && s[i] == s[1..][i - 1]
      {
      }
    }
  }

  /** `TitleFrom` upper-cases a letter after a non-letter and lower-cases one after a letter. */
  lemma {:induction false} TitleFromCases(s: string, afterLetter: bool)
    ensures var r := TitleFrom(s, afterLetter);
      && (s != [] && IsAsciiLetter(s[0]) ==> if afterLetter then !('A' <= r[0] <= 'Z') else !('a' <= r[0] <= 'z'))
      && (forall i :: 0 < i < |s| && IsAsciiLetter(r[i]) ==>
            if !IsAsciiLetter(r[i - 1]) then !('a' <= r[i] <= 'z') else !('A' <= r[i] <= 'Z'))
    decreases |s|
  {
    if s != [] {
      var r := TitleFrom(s, afterLetter);
      var t := TitleFrom(s[1..], IsAsciiLetter(s[0]));
      TitleFromCases(s[1..], IsAsciiLetter(s[0]));
      TitleFromKeeps(s, afterLetter);
      assert r[1..] == t;
      forall i | 0 < i < |s|
        ensures r[i] == t[i - 1]
      {
      }
    }
  }

  /**
   * `title()` changes letter case only, and leaves every run of letters starting with an
   * upper-case letter followed by lower-case ones; the whitespace is where it was.
   */
  lemma TitleCases(s: string)
    ensures Lower(Title(s)) == Lower(s)
    ensures IsTitleCased(Title(s))
    ensures forall i :: 0 <= i < |s| ==> (IsSpace(Title(s)[i]) <==> IsSpace(s[i]))
  {
    var r := Title(s);
    TitleFromKeeps(s, false);
    TitleFromCases(s, false);
    forall i | 0 <= i < |s|
      ensures IsSpace(r[i]) <==> IsSpace(s[i])
    {
      if !IsAsciiLetter(s[i]) {
        assert LowerChar(r[i]) == r[i] && LowerChar(s[i]) == s[i];
      }
    }
  }

  /** `lower()` leaves no upper-case letter, and lower-casing such a text changes nothing. */
  lemma LowerHasNoUpper(s: string)
    ensures HasNoUpper(Lower(s))
    ensures HasNoUpper(s) ==> Lower(s) == s
  {
  }

  /** A slice of a text with no upper-case letter has none either. */
  lemma SliceHasNoUpper(s: string, i: nat, j: nat)
    requires i <= j <= |s| && HasNoUpper(s)
    ensures HasNoUpper(s[i..j])
  {
    forall k | 0 <= k < j - i
      ensures !('A' <= s[i..j][k] <= 'Z')
    {
      assert s[i..j][k] == s[i + k];
    }
  }

  /** `strip()` leaves no whitespace at either end. */
  lemma StripEnds(s: string)
    ensures var r := Strip(s); r == [] || (!IsSpace(r[0]) && !IsSpace(r[|r| - 1]))
  {
    var l := LStrip(s);
    var r := RStrip(l);
    if r != [] {
      assert r[0] == l[0];
    }
  }

  /** `s.replace(c, repl)` for a one-character pattern. */
  function ReplaceChar(s: string, c: char, repl: string): (r: string)
    ensures c !in repl ==> c !in r
    ensures forall x :: x in r ==> x in s || x in repl
  {
    if s == [] then []
    else (if s[0] == c then repl else [s[0]]) + ReplaceChar(s[1..], c, repl)
  }

  /** Replacing in a concatenation replaces in each part. */
  lemma {:induction false} ReplaceCharAppend(a: string, b: string, c: char, repl: string)
    ensures ReplaceChar(a + b, c, repl) == ReplaceChar(a, c, repl) + ReplaceChar(b, c, repl)
    decreases |a|
  {
    if a == [] {
      assert a + b == b;
    } else {
      assert (a + b)[1..] == a[1..] + b;
      ReplaceCharAppend(a[1..], b, c, repl);
    }
  }

  /** A single character becomes `repl` when it is `c`, and stays otherwise. */
  lemma ReplaceCharOne(x: char, c: char, repl: string)
    ensures ReplaceChar([x], c, repl) == if x == c then repl else [x]
  {
    assert [x][1..] == [];
  }

  /** Lower-casing a concatenation lower-cases each part. */
  lemma LowerAppend(a: string, b: string)
    ensures Lower(a + b) == Lower(a) + Lower(b)
  {
  }

  function DigitChar(d: nat): char
    requires d < 10
  {
    "0123456789"[d]
  }

  /** `str(n)` for a non-negative integer. */
  function NatText(n: nat): (r: string)
    ensures r != []
  {
    if n < 10 then [DigitChar(n)] else NatText(n / 10) + [DigitChar(n % 10)]
  }

  /** `str(n)` for any integer. */
  function IntText(n: int): string {
    if n < 0 then "-" + NatText(-n) else NatText(n)
  }

  /** A string shorter than the pattern cannot contain it. */
  lemma {:induction false} ShortHasNoOccurrence(s: string, sep: string)
    requires |s| < |sep|
    ensures !Contains(s, sep)
    decreases |s|
  {
    if s != [] {
      ShortHasNoOccurrence(s[1..], sep);
    }
  }

  /** What occurs in `b` occurs in `a + b`. */
  lemma {:induction false} ContainsInSuffix(a: string, b: string, sep: string)
    requires Contains(b, sep)
    ensures Contains(a + b, sep)
    decreases |a|
  {
    if a == [] {
      assert a + b == b;
    } else if !(sep <= a + b) {
      assert (a + b)[1..] == a[1..] + b;
      ContainsInSuffix(a[1..], b, sep);
    }
  }

  /** The text before the first `c` of `p + [c] + q`, when `p` has no `c`, is `p`. */
  lemma {:induction false} BeforeCharOfJoin(p: string, c: char, q: string)
    requires c !in p
    ensures BeforeChar(p + [c] + q, c) == p
    decreases |p|
  {
    if p != [] {
      assert (p + [c] + q)[1..] == p[1..] + [c] + q;
      BeforeCharOfJoin(p[1..], c, q);
    }
  }

  /** `sub in s` holds exactly when `sub` occurs at some position of `s`. */
  lemma ContainsIff(s: string, sep: string)
    ensures Contains(s, sep) <==> exists j :: 0 <= j <= |s| && sep <= s[j..]
  {
    FindIsFirst(s, sep);
  }

  /** An occurrence inside a slice is an occurrence in the whole. */
  lemma ContainsInSlice(s: string, i: nat, k: nat, sep: string)
    requires i <= k <= |s| && Contains(s[i..k], sep)
    ensures Contains(s, sep)
  {
    ContainsIff(s[i..k], sep);
    var j :| 0 <= j <= k - i && sep <= s[i..k][j..];
    assert sep <= s[i + j..];
    ContainsIff(s, sep);
  }

  /** The text before the first occurrence of a non-empty `sep` does not contain it. */
  lemma BeforeHasNoSep(s: string, sep: string)
    requires sep != []
    ensures !Contains(Before(s, sep), sep)
  {
    var b := Before(s, sep);
    FindIsFirst(s, sep);
    forall j | 0 <= j <= |b|
      ensures !(sep <= b[j..])
    {
      assert b[j..] <= s[j..];
    }
    ContainsIff(b, sep);
  }

  /** A prefix of a suffix of `s` is a slice of `s`. */
  lemma PrefixOfSuffix(s: string, l: string, r: string) returns (i: nat)
    requires |l| <= |s| && l == s[|s| - |l|..] && r <= l
    ensures i + |r| <= |s| && r == s[i..i + |r|]
  {
    i := |s| - |l|;
    assert r == l[..|r|];
  }

  /** `s.strip()` is a slice of `s`. */
  lemma StripIsSlice(s: string) returns (i: nat)
    ensures i + |Strip(s)| <= |s| && Strip(s) == s[i..i + |Strip(s)|]
  {
    i := PrefixOfSuffix(s, LStrip(s), Strip(s));
  }

  /** `s.split(c)[0]` holds no `c`. */
  lemma BeforeLacksSep(s: string, c: char)
    ensures c !in Before(s, [c])
  {
    var r := Before(s, [c]);
    BeforeHasNoSep(s, [c]);
    ContainsIff(r, [c]);
    forall j | 0 <= j < |r|
      ensures r[j] != c
    {
      assert !([c] <= r[j..]);
      assert r[j..][..1] == [r[j]];
    }
  }

  /** In "<p><sep><q>", with no `sep` character in `p`, the first `sep` is the one after `p`. */
  lemma FindOfJoin(p: string, sep: string, q: string)
    requires |sep| == 1 && sep[0] !in p
    ensures Find(p + sep + q, sep) == Some(|p|)
  {
    var u := p + sep + q;
    FindIsFirst(u, sep);
    forall j | 0 <= j < |p|
      ensures !(sep <= u[j..])
    {
      assert u[j] == p[j] && p[j] in p;
    }
    assert sep <= u[|p|..|u|];
    ContainsInSlice(u, |p|, |u|, sep);
    assert u[|p|..|u|] == u[|p|..];
  }

  /** `split(sep, 1)[1]` of "<p><sep><q>" is `<q>` when `p` holds no `sep` character. */
  lemma AfterOfJoin(p: string, sep: string, q: string)
    requires |sep| == 1 && sep[0] !in p
    ensures After(p + sep + q, sep) == q
  {
    FindOfJoin(p, sep, q);
    assert (p + sep + q)[|p| + 1..] == q;
  }

  /** Trailing whitespace after a non-blank end of `p` is stripped from the second part only. */
  lemma {:induction false} RStripOfJoin(p: string, q: string)
    requires p != [] && !IsSpace(p[|p| - 1])
    ensures RStrip(p + q) == p + RStrip(q)
    decreases |q|
  {
    if q != [] && IsSpace(q[|q| - 1]) {
      assert (p + q)[..|p + q| - 1] == p + q[..|q| - 1];
      RStripOfJoin(p, q[..|q| - 1]);
    } else if q == [] {
      assert p + q == p;
    }
  }

  /** Adding a character at the end of `w` adds it at the end of `w.lstrip()`, unless that is empty. */
  lemma {:induction false} LStripOfSnoc(w: string, c: char)
    ensures LStrip(w + [c]) == if LStrip(w) == [] then LStrip([c]) else LStrip(w) + [c]
    decreases |w|
  {
    if w != [] && IsSpace(w[0]) {
      assert (w + [c])[1..] == w[1..] + [c];
      LStripOfSnoc(w[1..], c);
    } else if w == [] {
      assert w + [c] == [c];
    }
  }

  /** A trailing whitespace character is removed by `rstrip()`. */
  lemma RStripDropsSpace(x: string, c: char)
    requires IsSpace(c)
    ensures RStrip(x + [c]) == RStrip(x)
  {
    assert (x + [c])[..|x|] == x;
  }

  /** Stripping after removing one trailing whitespace character gives the same result. */
  lemma StripDropsSpace(w: string, c: char)
    requires IsSpace(c)
    ensures Strip(w + [c]) == Strip(w)
  {
    LStripOfSnoc(w, c);
    if LStrip(w) == [] {
      assert LStrip([c]) == LStrip([c][1..]);
      assert [c][1..] == [];
    } else {
      RStripDropsSpace(LStrip(w), c);
    }
  }

  /** `s.rstrip().strip() == s.strip()`. */
  lemma {:induction false} StripOfRStrip(s: string)
    ensures Strip(RStrip(s)) == Strip(s)
    decreases |s|
  {
    if s != [] && IsSpace(s[|s| - 1]) {
      var w := s[..|s| - 1];
      assert s == w + [s[|s| - 1]];
      assert RStrip(s) == RStrip(w);
      StripOfRStrip(w);
      StripDropsSpace(w, s[|s| - 1]);
    }
  }
}
