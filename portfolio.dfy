/**
 * `find_portfolio_link`: a usable GitHub blog field wins; otherwise the first URL found in
 * the text fields, source by source and key by key.
 */
module Portfolio {
  import opened Wrappers
  import opened Text

  /** The fields of a source record that the rule reads (`s.get(key)`). */
  datatype Source = Source(blog: Option<string>, talksAbout: Option<string>, title: Option<string>,
                           bio: Option<string>, fullName: Option<string>)

  // ---------------------------------------------------------------------------
  // The pattern https?://[^\s]+ and its leftmost match
  // ---------------------------------------------------------------------------

  /** The length of a match of `https?://[^\s]+` starting at `i`, if one starts there. */
  function MatchAt(s: string, i: nat): (n: Option<nat>)
    requires i <= |s|
    ensures n.Some? ==> i + n.value <= |s|
  {
    var t := s[i..];
    if "https://" <= t && WordLen(t[8..]) > 0 then Some(8 + WordLen(t[8..]))
    else if "http://" <= t && WordLen(t[7..]) > 0 then Some(7 + WordLen(t[7..]))
    else None
  }

  /** A match is a scheme followed by a run of non-whitespace characters, so it holds no whitespace. */
  lemma MatchHasNoSpace(s: string, i: nat)
    requires i <= |s| && MatchAt(s, i).Some?
    ensures NoSpace(s[i..][..MatchAt(s, i).value])
  {
    var t := s[i..];
    var scheme := if "https://" <= t && WordLen(t[8..]) > 0 then "https://" else "http://";
    var k := |scheme|;
    var m := t[..k + WordLen(t[k..])];
    assert scheme <= t;
    assert MatchAt(s, i).value == |m|;
    SchemesHaveNoSpace();
    forall j | 0 <= j < |m|
      ensures !IsSpace(m[j])
    {
      if j >= k {
        assert m[j] == t[k..][..WordLen(t[k..])][j - k];
      } else {
        assert m[j] == scheme[j];
      }
    }
  }

  lemma SchemesHaveNoSpace()
    ensures NoSpace("https://") && NoSpace("http://")
  {
  }

  /** `re.search` from position `i` on: the leftmost match at or after `i`. */
  function SearchFrom(s: string, i: nat): (m: Option<string>)
    requires i <= |s|
    ensures m.Some? ==> StartsWith(m.value, "http") && NoSpace(m.value) && m.value != []
    decreases |s| - i
  {
    match MatchAt(s, i)
    case Some(n) =>
      MatchHasNoSpace(s, i);
      Some(s[i..][..n])
    case None => if i == |s| then None else SearchFrom(s, i + 1)
  }

  /** The URL the rule takes from a text: the leftmost match, without trailing '.', ',' or ';'. */
  function TextUrl(text: string): (u: Option<string>)
    ensures u.Some? ==> StartsWith(u.value, "http") && NoSpace(u.value)
    ensures u.Some? ==> u.value[|u.value| - 1] !in {'.', ',', ';'}
  {
    match SearchFrom(text, 0)
    case Some(m) =>
      var u := RStripIn(m, {'.', ',', ';'});
      assert "http" <= u by {
        assert m[..4] == "http";
        RStripKeepsPrefix(m, {'.', ',', ';'}, 4);
      }
      Some(u)
    case None => None
  }

  /** Stripping trailing characters keeps a prefix none of whose characters is stripped. */
  lemma {:induction false} RStripKeepsPrefix(s: string, chars: set<char>, k: nat)
    requires k <= |s| && forall j :: 0 <= j < k ==> s[j] !in chars
    ensures k <= |RStripIn(s, chars)| && RStripIn(s, chars)[..k] == s[..k]
    decreases |s|
  {
    if s != [] && s[|s| - 1] in chars {
      RStripKeepsPrefix(s[..|s| - 1], chars, k);
    }
  }

  /** No match starts anywhere from `i` on exactly when the search from `i` finds nothing. */
  lemma SearchFindsLeftmost(s: string, i: nat) returns (j: nat)
    requires i <= |s|
    ensures SearchFrom(s, i).None? <==> forall k :: i <= k <= |s| ==> MatchAt(s, k).None?
    ensures SearchFrom(s, i).Some? ==>
      && i <= j <= |s| && MatchAt(s, j).Some?
      && SearchFrom(s, i).value == s[j..][..MatchAt(s, j).value]
      && forall k :: i <= k < j ==> MatchAt(s, k).None?
  {
    SearchNoneIff(s, i);
    j := i;
    if SearchFrom(s, i).Some? {
      j := SearchSomeIsLeftmost(s, i);
    }
  }

  lemma {:induction false} SearchNoneIff(s: string, i: nat)
    requires i <= |s|
    ensures SearchFrom(s, i).None? <==> forall k :: i <= k <= |s| ==> MatchAt(s, k).None?
    decreases |s| - i
  {
    if MatchAt(s, i).None? && i < |s| {
      SearchNoneIff(s, i + 1);
      assert SearchFrom(s, i) == SearchFrom(s, i + 1);
    }
  }

  lemma {:induction false} SearchSomeIsLeftmost(s: string, i: nat) returns (j: nat)
    requires i <= |s| && SearchFrom(s, i).Some?
    ensures i <= j <= |s| && MatchAt(s, j).Some?
    ensures SearchFrom(s, i).value == s[j..][..MatchAt(s, j).value]
    ensures forall k :: i <= k < j ==> MatchAt(s, k).None?
    decreases |s| - i
  {
    if MatchAt(s, i).Some? {
      SearchHere(s, i);
      j := i;
    } else {
      SearchSkips(s, i);
      j := SearchSomeIsLeftmost(s, i + 1);
    }
  }

  /** A match at the start position is the one found. */
  lemma SearchHere(s: string, i: nat)
    requires i <= |s| && MatchAt(s, i).Some?
    ensures SearchFrom(s, i) == Some(s[i..][..MatchAt(s, i).value])
  {
  }

  /** Without a match at the start position, the search goes on from the next one. */
  lemma SearchSkips(s: string, i: nat)
    requires i <= |s| && MatchAt(s, i).None? && SearchFrom(s, i).Some?
    ensures i < |s| && SearchFrom(s, i) == SearchFrom(s, i + 1)
  {
  }

  // ---------------------------------------------------------------------------
  // The priority rule
  // ---------------------------------------------------------------------------

  /** The stripped blog of a source, when it is usable: present and non-empty, not "null", absolute. */
  function UsableBlog(s: Source): (b: Option<string>)
    ensures b.Some? ==> b.value != [] && b.value != "null" && StartsWith(b.value, "http")
  {
    if Truthy(s.blog) then
      var blog := Strip(s.blog.value);
      if blog != [] && blog != "null" && StartsWith(blog, "http") then Some(blog) else None
    else None
  }

  /** The text fields in the order the rule reads them: talks_about, title, bio, full_name. */
  function Field(s: Source, k: nat): Option<string>
    requires k < 4
  {
    if k == 0 then s.talksAbout else if k == 1 then s.title else if k == 2 then s.bio else s.fullName
  }

  /** The URL of field `k` of a source, when the field is non-empty and holds one. */
  function FieldUrl(s: Source, k: nat): Option<string>
    requires k < 4
  {
    var v := Field(s, k);
    if Truthy(v) then TextUrl(v.value) else None
  }

  /** The first value `pick` gives, scanning the elements from `i` on. */
  function FirstPick<T>(xs: seq<T>, pick: T -> Option<string>, i: nat): Option<string>
    requires i <= |xs|
    decreases |xs| - i
  {
    if i == |xs| then None
    else if pick(xs[i]).Some? then pick(xs[i])
    else FirstPick(xs, pick, i + 1)
  }

  /** The first usable blog among the sources from `i` on. */
  function BlogFrom(sources: seq<Source>, i: nat): Option<string>
    requires i <= |sources|
  {
    FirstPick(sources, UsableBlog, i)
  }

  /** The first field URL from source `i`, field `k` on, sources in order and fields in key order. */
  function TextFrom(sources: seq<Source>, i: nat, k: nat): Option<string>
    requires i <= |sources| && k <= 4
    decreases |sources| - i, 4 - k
  {
    if i == |sources| then None
    else if k == 4 then TextFrom(sources, i + 1, 0)
    else if FieldUrl(sources[i], k).Some? then FieldUrl(sources[i], k)
    else TextFrom(sources, i, k + 1)
  }

  /** The reference definition of `find_portfolio_link`. */
  function PortfolioLink(sources: seq<Source>): Option<string> {
    if BlogFrom(sources, 0).Some? then BlogFrom(sources, 0) else TextFrom(sources, 0, 0)
  }

  /** `find_portfolio_link`: the blog loop, then the nested source/key loop, each returning at its first hit. */
  method FindPortfolioLink(sources: seq<Source>) returns (link: Option<string>)
    ensures link == PortfolioLink(sources)
  {
    var i := 0;
    while i < |sources|
      invariant i <= |sources|
      invariant BlogFrom(sources, i) == BlogFrom(sources, 0)
    {
      var blog := UsableBlog(sources[i]);
      if blog.Some? {
        return blog;
      }
      i := i + 1;
    }
    i := 0;
    while i < |sources|
      invariant i <= |sources|
      invariant TextFrom(sources, i, 0) == TextFrom(sources, 0, 0)
    {
      var k := 0;
      while k < 4
        invariant k <= 4
        invariant TextFrom(sources, i, k) == TextFrom(sources, 0, 0)
      {
        var url := FieldUrl(sources[i], k);
        if url.Some? {
          return url;
        }
        k := k + 1;
      }
      i := i + 1;
    }
    return None;
  }

  /** The first usable blog is the answer, whatever URLs the text fields hold. */
  lemma {:induction false} BlogWins(sources: seq<Source>, j: nat)
    requires j < |sources| && UsableBlog(sources[j]).Some?
    requires forall i :: 0 <= i < j ==> UsableBlog(sources[i]).None?
    ensures PortfolioLink(sources) == UsableBlog(sources[j])
  {
    FirstPickSkips(sources, UsableBlog, 0, j);
  }

  lemma {:induction false} FirstPickSkips<T>(xs: seq<T>, pick: T -> Option<string>, i: nat, j: nat)
    requires i <= j < |xs| && pick(xs[j]).Some?
    requires forall l :: i <= l < j ==> pick(xs[l]).None?
    ensures FirstPick(xs, pick, i) == pick(xs[j])
    decreases j - i
  {
    if i < j {
      FirstPickSkips(xs, pick, i + 1, j);
    }
  }

  /** Field `k` of source `i` comes before field `k2` of source `i2` in the scan. */
  predicate ScannedBefore(i: int, k: int, i2: int, k2: int) {
    i < i2 || (i == i2 && k < k2)
  }

  /**
   * Without a usable blog, the answer is the URL of the first field, in scan order, that
   * holds one: sources in order, and within a source talks_about, title, bio, full_name.
   */
  lemma TextScanOrder(sources: seq<Source>, i: nat, k: nat)
    requires BlogFrom(sources, 0).None?
    requires i < |sources| && k < 4 && FieldUrl(sources[i], k).Some?
    requires forall a, b :: 0 <= a < |sources| && 0 <= b < 4 && ScannedBefore(a, b, i, k) ==> FieldUrl(sources[a], b).None?
    ensures PortfolioLink(sources) == FieldUrl(sources[i], k)
  {
    TextFromSkips(sources, 0, 0, i, k);
  }

  lemma {:induction false} TextFromSkips(sources: seq<Source>, i: nat, k: nat, i2: nat, k2: nat)
    requires i <= i2 < |sources| && k <= 4 && k2 < 4 && (i < i2 || k <= k2)
    requires FieldUrl(sources[i2], k2).Some?
    requires forall a, b :: i <= a < |sources| && 0 <= b < 4 && (a > i || b >= k) && ScannedBefore(a, b, i2, k2) ==>
      FieldUrl(sources[a], b).None?
    ensures TextFrom(sources, i, k) == FieldUrl(sources[i2], k2)
    decreases |sources| - i, 4 - k
  {
    if k == 4 {
      TextFromSkips(sources, i + 1, 0, i2, k2);
    } else if i == i2 && k == k2 {
    } else {
      assert FieldUrl(sources[i], k).None?;
      TextFromSkips(sources, i, k + 1, i2, k2);
    }
  }

  /** Nothing is found exactly when no source has a usable blog and no field holds a URL. */
  lemma {:induction false} NoneWhenNothingMatches(sources: seq<Source>)
    ensures PortfolioLink(sources).None? <==>
      && (forall i :: 0 <= i < |sources| ==> UsableBlog(sources[i]).None?)
      && (forall i, k :: 0 <= i < |sources| && 0 <= k < 4 ==> FieldUrl(sources[i], k).None?)
  {
    FirstPickNone(sources, UsableBlog, 0);
    TextFromNone(sources, 0, 0);
  }

  lemma {:induction false} FirstPickNone<T>(xs: seq<T>, pick: T -> Option<string>, i: nat)
    requires i <= |xs|
    ensures FirstPick(xs, pick, i).None? <==> forall l :: i <= l < |xs| ==> pick(xs[l]).None?
    decreases |xs| - i
  {
    if i < |xs| {
      FirstPickNone(xs, pick, i + 1);
    }
  }

  lemma {:induction false} TextFromNone(sources: seq<Source>, i: nat, k: nat)
    requires i <= |sources| && k <= 4
    ensures TextFrom(sources, i, k).None? <==>
      forall a, b :: i <= a < |sources| && 0 <= b < 4 && (a > i || b >= k) ==> FieldUrl(sources[a], b).None?
    decreases |sources| - i, 4 - k
  {
    if i < |sources| {
      if k == 4 {
        TextFromNone(sources, i + 1, 0);
      } else {
        TextFromNone(sources, i, k + 1);
      }
    }
  }

  /**
   * A link found in a text field has the shape the pattern promises: absolute, without
   * whitespace, and not ending in '.', ',' or ';'. A blog link is absolute and not "null".
   */
  lemma LinkShape(sources: seq<Source>)
    ensures var l := PortfolioLink(sources);
      && (l.Some? ==> StartsWith(l.value, "http") && l.value != "null")
      && (l.Some? && BlogFrom(sources, 0).None? ==> NoSpace(l.value) && l.value[|l.value| - 1] !in {'.', ',', ';'})
  {
    var j := FirstPickHit(sources, UsableBlog, 0);
    TextFromShape(sources, 0, 0);
  }

  /** Whatever the scan returns is a value `pick` gave for some element at or after `i`. */
  lemma {:induction false} FirstPickHit<T>(xs: seq<T>, pick: T -> Option<string>, i: nat) returns (l: nat)
    requires i <= |xs|
    ensures FirstPick(xs, pick, i).Some? ==> i <= l < |xs| && pick(xs[l]) == FirstPick(xs, pick, i)
    decreases |xs| - i
  {
    l := i;
    if i < |xs| && pick(xs[i]).None? {
      l := FirstPickHit(xs, pick, i + 1);
    }
  }

  lemma {:induction false} TextFromShape(sources: seq<Source>, i: nat, k: nat)
    requires i <= |sources| && k <= 4
    ensures var t := TextFrom(sources, i, k);
      t.Some? ==> StartsWith(t.value, "http") && NoSpace(t.value) && t.value[|t.value| - 1] !in {'.', ',', ';'}
    decreases |sources| - i, 4 - k
  {
    if i < |sources| {
      if k == 4 {
        TextFromShape(sources, i + 1, 0);
      } else if FieldUrl(sources[i], k).None? {
        TextFromShape(sources, i, k + 1);
      }
    }
  }
}
