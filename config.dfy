/**
 * The `.env` handling of the command-line package: reading the GitHub token (environment
 * first, then the first `GITHUB_TOKEN=` line of the file), saving it (every other line
 * kept, one token line appended) and the acceptance checks of the interactive setup.
 * A file is its text; `None` is a file that does not exist.
 */
module Config {
  import opened Wrappers
  import opened Text

  const TokenKey := "GITHUB_TOKEN="
  const MinTokenLength := 20

  // ---------------------------------------------------------------------------------------
  // Text files as lines
  // ---------------------------------------------------------------------------------------

  /** Reading in text mode with universal newlines: "\r\n" and a lone "\r" both become "\n". */
  function Translate(s: string): (r: string)
    ensures '\r' !in r
    decreases |s|
  {
    if s == [] then []
    else if s[0] == '\r' then "\n" + Translate(if |s| > 1 && s[1] == '\n' then s[2..] else s[1..])
    else [s[0]] + Translate(s[1..])
  }

  /** A line as iteration yields it: not empty, and a newline only as its last character. */
  predicate LineShaped(l: string) {
    l != [] && forall i :: 0 <= i < |l| - 1 ==> l[i] != '\n'
  }

  /** The line ends with a newline. */
  predicate Ended(l: string) {
    l != [] && l[|l| - 1] == '\n'
  }

  /** Every line but the last ends with a newline. */
  predicate EndedButLast(ls: seq<string>) {
    forall i :: 0 <= i < |ls| - 1 ==> Ended(ls[i])
  }

  /** The length of the first line of `s`: up to and including the first newline. */
  function LineLen(s: string): (n: nat)
    ensures n <= |s| && (s != [] ==> n > 0)
    ensures forall i :: 0 <= i < n - 1 ==> s[i] != '\n'
    ensures 0 < n < |s| ==> s[n - 1] == '\n'
  {
    if s == [] then 0
    else if s[0] == '\n' then 1
    else 1 + LineLen(s[1..])
  }

  /** `for line in f`: the lines of the text, each with its newline. */
  function Lines(s: string): (r: seq<string>)
    ensures forall i :: 0 <= i < |r| ==> LineShaped(r[i])
    ensures EndedButLast(r)
    ensures '\r' !in s ==> forall i :: 0 <= i < |r| ==> '\r' !in r[i]
    decreases |s|
  {
    if s == [] then []
    else
      var n := LineLen(s);
      var rest := Lines(s[n..]);
      assert rest != [] ==> n < |s|;
      assert forall c :: c in s[..n] ==> c in s;
      [s[..n]] + rest
  }

  /** `"".join(lines)`. */
  function Concat(ls: seq<string>): string {
    if ls == [] then [] else Concat(ls[..|ls| - 1]) + ls[|ls| - 1]
  }

  // ---------------------------------------------------------------------------------------
  // Loading
  // ---------------------------------------------------------------------------------------

  /** The line `save_github_token` writes: `f"GITHUB_TOKEN={token}\n"`. */
  function TokenLine(token: string): string {
    TokenKey + token + "\n"
  }

  /** `line.strip().startswith("GITHUB_TOKEN=")`. */
  predicate IsTokenLine(line: string) {
    StartsWith(Strip(line), TokenKey)
  }

  /** `line.strip().split("=", 1)[1].strip()`. */
  function ValueOf(line: string): string {
    Strip(After(Strip(line), "="))
  }

  /**
   * The value `valueOf` reads from the first line `isKey` accepts. The line test and the
   * value are parameters so that the lemmas about the scan need not look inside them.
   */
  function FirstValue(lines: seq<string>, isKey: string -> bool, valueOf: string -> string): Option<string> {
    if lines == [] then None
    else if isKey(lines[0]) then Some(valueOf(lines[0]))
    else FirstValue(lines[1..], isKey, valueOf)
  }

  /** The value of the first token line. */
  function TokenIn(lines: seq<string>): Option<string> {
    FirstValue(lines, IsTokenLine, ValueOf)
  }

  /** The lines of an existing file; none for a missing one. */
  function FileLines(file: Option<string>): seq<string> {
    if file.Some? then Lines(Translate(file.value)) else []
  }

  /** `load_github_token`: a non-empty environment value, else the file's first token, else "". */
  function Load(env: Option<string>, file: Option<string>): (r: string)
    ensures Truthy(env) ==> r == env.value
    ensures !Truthy(env) && file.None? ==> r == ""
  {
    if Truthy(env) then env.value
    else TokenIn(FileLines(file)).GetOr("")
  }

  /** `load_github_token`, with its loop over the lines. */
  method LoadGitHubToken(env: Option<string>, file: Option<string>) returns (token: string)
    ensures token == Load(env, file)
  {
    if Truthy(env) {
      return env.value;
    }
    if file.Some? {
      var lines := Lines(Translate(file.value));
      for i := 0 to |lines|
        invariant TokenIn(lines) == TokenIn(lines[i..])
      {
        assert lines[i..][1..] == lines[i + 1..];
        var line := Strip(lines[i]);
        if StartsWith(line, TokenKey) {
          return Strip(After(line, "="));
        }
      }
      assert lines[|lines|..] == [];
    }
    return "";
  }

  /** The result is the value of the first accepted line, and no earlier line is accepted. */
  lemma {:induction false} FirstValueIsFirst(lines: seq<string>, isKey: string -> bool, valueOf: string -> string) returns (i: nat)
    requires FirstValue(lines, isKey, valueOf).Some?
    ensures i < |lines| && isKey(lines[i]) && FirstValue(lines, isKey, valueOf).value == valueOf(lines[i])
    ensures forall j :: 0 <= j < i ==> !isKey(lines[j])
  {
    if isKey(lines[0]) {
      i := 0;
    } else {
      var tail := lines[1..];
      assert FirstValue(lines, isKey, valueOf) == FirstValue(tail, isKey, valueOf);
      var k := FirstValueIsFirst(tail, isKey, valueOf);
      i := k + 1;
      assert lines[i] == tail[k];
      forall j | 0 <= j < i
        ensures !isKey(lines[j])
      {
        if j > 0 {
          assert lines[j] == tail[j - 1];
        }
      }
    }
  }

  /** Without an accepted line there is no value. */
  lemma {:induction false} NoKeyLineNoValue(lines: seq<string>, isKey: string -> bool, valueOf: string -> string)
    requires forall j :: 0 <= j < |lines| ==> !isKey(lines[j])
    ensures FirstValue(lines, isKey, valueOf) == None
  {
    if lines != [] {
      NoKeyLineNoValue(lines[1..], isKey, valueOf);
    }
  }

  /** Lines that are not accepted, in front of others, do not change the value found. */
  lemma {:induction false} FirstValueSkips(a: seq<string>, b: seq<string>, isKey: string -> bool, valueOf: string -> string)
    requires forall j :: 0 <= j < |a| ==> !isKey(a[j])
    ensures FirstValue(a + b, isKey, valueOf) == FirstValue(b, isKey, valueOf)
  {
    if a != [] {
      assert (a + b)[1..] == a[1..] + b;
      FirstValueSkips(a[1..], b, isKey, valueOf);
    } else {
      assert a + b == b;
    }
  }

  /** `load_github_token` gives the first token line's value, and "" when the file has none. */
  lemma LoadIsFirstToken(file: Option<string>)
    ensures var lines := FileLines(file);
      && (Load(None, file) != "" ==> exists i :: 0 <= i < |lines| && IsTokenLine(lines[i]))
      && ((forall j :: 0 <= j < |lines| ==> !IsTokenLine(lines[j])) ==> Load(None, file) == "")
  {
    var lines := FileLines(file);
    if TokenIn(lines).Some? {
      var i := FirstValueIsFirst(lines, IsTokenLine, ValueOf);
    }
    if forall j :: 0 <= j < |lines| ==> !IsTokenLine(lines[j]) {
      NoKeyLineNoValue(lines, IsTokenLine, ValueOf);
    }
  }

  /** The token line for `token`: it is a token line and its value is the stripped token, '=' or not. */
  lemma KeyLineValue(token: string)
    ensures IsTokenLine(TokenLine(token))
    ensures ValueOf(TokenLine(token)) == Strip(token)
  {
    KeyLineStrip(token);
    ValueAfterKey(RStrip(token));
    StripOfRStrip(token);
  }

  /** Stripping the token line removes only the token's trailing whitespace and the newline. */
  lemma KeyLineStrip(token: string)
    ensures Strip(TokenLine(token)) == TokenKey + RStrip(token)
  {
    var line := TokenLine(token);
    assert line == TokenKey + (token + ['\n']);
    assert LStrip(line) == line by {
      assert line[0] == 'G';
    }
    RStripOfJoin(TokenKey, token + ['\n']);
    RStripDropsSpace(token, '\n');
  }

  /** What follows the key's '=' is the rest of the line, whatever '=' it holds. */
  lemma ValueAfterKey(v: string)
    ensures After(TokenKey + v, "=") == v
  {
    assert TokenKey + v == "GITHUB_TOKEN" + "=" + v;
    AfterOfJoin("GITHUB_TOKEN", "=", v);
  }

  // ---------------------------------------------------------------------------------------
  // Saving
  // ---------------------------------------------------------------------------------------

  /** The lines `isKey` does not accept, in order. */
  function Without(lines: seq<string>, isKey: string -> bool): (r: seq<string>)
    ensures |r| <= |lines|
    ensures forall j :: 0 <= j < |r| ==> !isKey(r[j])
    ensures forall l :: l in r ==> l in lines
  {
    if lines == [] then []
    else if isKey(lines[0]) then Without(lines[1..], isKey)
    else [lines[0]] + Without(lines[1..], isKey)
  }

  /** Filtering a concatenation filters each part. */
  lemma {:induction false} WithoutAppend(a: seq<string>, b: seq<string>, isKey: string -> bool)
    ensures Without(a + b, isKey) == Without(a, isKey) + Without(b, isKey)
    decreases |a|
  {
    if a == [] {
      assert a + b == b;
    } else {
      assert (a + b)[1..] == a[1..] + b;
      WithoutAppend(a[1..], b, isKey);
    }
  }

  /** A single line is dropped exactly when it passes the key test. */
  lemma WithoutOne(l: string, isKey: string -> bool)
    ensures Without([l], isKey) == if isKey(l) then [] else [l]
  {
    assert [l][1..] == [];
  }

  /** With no line passing the key test, every line is kept. */
  lemma {:induction false} WithoutNoKey(lines: seq<string>, isKey: string -> bool)
    requires forall i :: 0 <= i < |lines| ==> !isKey(lines[i])
    ensures Without(lines, isKey) == lines
    decreases |lines|
  {
    if lines != [] {
      WithoutNoKey(lines[1..], isKey);
      assert [lines[0]] + lines[1..] == lines;
    }
  }

  /** The lines `save_github_token` keeps: every line that is not a token line, in order. */
  function Kept(lines: seq<string>): seq<string> {
    Without(lines, IsTokenLine)
  }

  /** The text `save_github_token` writes: the kept lines, then "GITHUB_TOKEN=<token>\n". */
  function SavedText(token: string, file: Option<string>): string {
    Concat(Kept(FileLines(file))) + TokenLine(token)
  }

  /** A line that is not a token line survives the save, between what is kept before and after it. */
  lemma KeptAroundLine(before: seq<string>, l: string, after: seq<string>)
    requires !IsTokenLine(l)
    ensures Kept(before + [l] + after) == Kept(before) + [l] + Kept(after)
  {
    WithoutAppend(before + [l], after, IsTokenLine);
    WithoutAppend(before, [l], IsTokenLine);
    WithoutOne(l, IsTokenLine);
  }

  /** A file with no token line is written back as it reads (newlines translated), then the token line. */
  lemma SaveWithoutTokenLines(token: string, text: string)
    requires forall i :: 0 <= i < |FileLines(Some(text))| ==> !IsTokenLine(FileLines(Some(text))[i])
    ensures SavedText(token, Some(text)) == Translate(text) + TokenLine(token)
  {
    var lines := FileLines(Some(text));
    var isKey: string -> bool := IsTokenLine;
    forall i | 0 <= i < |lines|
      ensures !isKey(lines[i])
    {
      assert !IsTokenLine(lines[i]);
    }
    WithoutNoKey(lines, isKey);
    ConcatOfLines(Translate(text));
  }

  /** `save_github_token`: the text written to the file, and the new environment value. */
  method SaveGitHubToken(token: string, file: Option<string>) returns (written: string, env: string)
    ensures written == SavedText(token, file)
    ensures env == token
  {
    var existing: seq<string> := [];
    if file.Some? {
      var lines := Lines(Translate(file.value));
      existing := Kept(lines);
    }
    assert existing == Kept(FileLines(file));
    written := "";
    for i := 0 to |existing|
      invariant written == Concat(existing[..i])
    {
      ConcatStep(existing, i);
      written := written + existing[i];
    }
    assert existing[..|existing|] == existing;
    written := written + TokenLine(token);
    env := token;
  }

  /** Writing one more line appends it to the text written so far. */
  lemma ConcatStep(ls: seq<string>, i: nat)
    requires i < |ls|
    ensures Concat(ls[..i + 1]) == Concat(ls[..i]) + ls[i]
  {
    var p := ls[..i + 1];
    assert p[..|p| - 1] == ls[..i];
  }

  /** `"".join([l] + rest) == l + "".join(rest)`. */
  lemma {:induction false} ConcatCons(l: string, rest: seq<string>)
    ensures Concat([l] + rest) == l + Concat(rest)
    decreases |rest|
  {
    if rest == [] {
      assert [l] + rest == [l];
      assert [l][..0] == [];
    } else {
      var all := [l] + rest;
      var init, x := rest[..|rest| - 1], rest[|rest| - 1];
      assert all[..|all| - 1] == [l] + init;
      assert all[|all| - 1] == x;
      assert Concat(rest) == Concat(init) + x;
      ConcatCons(l, init);
      assert Concat(all) == (l + Concat(init)) + x;
    }
  }

  /** The lines of a text are the text, cut up: joined again they give it back. */
  lemma {:induction false} ConcatOfLines(s: string)
    ensures Concat(Lines(s)) == s
    decreases |s|
  {
    if s != [] {
      var n := LineLen(s);
      ConcatOfLines(s[n..]);
      assert Lines(s) == [s[..n]] + Lines(s[n..]);
      ConcatCons(s[..n], Lines(s[n..]));
      assert s[..n] + s[n..] == s;
    }
  }

  /** A text with no carriage return reads back unchanged. */
  lemma {:induction false} TranslateKeepsPlainText(s: string)
    requires '\r' !in s
    ensures Translate(s) == s
    decreases |s|
  {
    if s != [] {
      var tail := s[1..];
      assert s[0] != '\r' by {
        assert s[0] in s;
      }
      assert '\r' !in tail by {
        assert forall j :: 0 <= j < |tail| ==> tail[j] == s[j + 1];
      }
      TranslateKeepsPlainText(tail);
      assert s == [s[0]] + tail;
    }
  }

  lemma {:induction false} ConcatLacks(ls: seq<string>, c: char)
    requires forall i :: 0 <= i < |ls| ==> c !in ls[i]
    ensures c !in Concat(ls)
    decreases |ls|
  {
    if ls != [] {
      ConcatLacks(ls[..|ls| - 1], c);
    }
  }

  /** The first line of a text that starts with an ended line is that line. */
  lemma {:induction false} LineLenOfJoin(l: string, rest: string)
    requires LineShaped(l) && Ended(l)
    ensures LineLen(l + rest) == |l|
    decreases |l|
  {
    if |l| > 1 {
      assert l[0] in l[..|l| - 1];
      assert (l + rest)[1..] == l[1..] + rest;
      assert l[1..][..|l[1..]| - 1] == l[..|l| - 1][1..];
      LineLenOfJoin(l[1..], rest);
    }
  }

  /** Ended lines joined together split back into the same lines. */
  lemma {:induction false} LinesOfConcat(ls: seq<string>)
    requires forall i :: 0 <= i < |ls| ==> LineShaped(ls[i]) && Ended(ls[i])
    ensures Lines(Concat(ls)) == ls
    decreases |ls|
  {
    if ls != [] {
      ConcatCons(ls[0], ls[1..]);
      assert [ls[0]] + ls[1..] == ls;
      var s := ls[0] + Concat(ls[1..]);
      LineLenOfJoin(ls[0], Concat(ls[1..]));
      assert s[..|ls[0]|] == ls[0];
      assert s[|ls[0]|..] == Concat(ls[1..]);
      LinesOfConcat(ls[1..]);
    } else {
      assert Concat(ls) == [];
    }
  }

  /** All but the last of the lines left still end with a newline. */
  lemma {:induction false} WithoutEndedButLast(lines: seq<string>, isKey: string -> bool)
    requires EndedButLast(lines)
    ensures EndedButLast(Without(lines, isKey))
  {
    if lines != [] {
      assert EndedButLast(lines[1..]) by {
        assert forall i :: 0 <= i < |lines| - 2 ==> lines[1..][i] == lines[i + 1];
      }
      WithoutEndedButLast(lines[1..], isKey);
      if !isKey(lines[0]) && Without(lines[1..], isKey) != [] {
        assert lines[1..] != [];
        assert Ended(lines[0]);
      }
    }
  }

  /** The token line is a line: no newline before its last character. */
  lemma KeyLineShaped(token: string)
    requires '\n' !in token && '\r' !in token
    ensures var line := TokenLine(token);
      LineShaped(line) && Ended(line) && '\r' !in line
  {
    var line := TokenLine(token);
    assert line[..|line| - 1] == TokenKey + token;
    assert '\n' !in TokenKey && '\r' !in TokenKey;
  }

  /** The lines the saved text reads back as: the kept lines, then the token line. */
  lemma SavedLines(token: string, kept: seq<string>)
    requires '\n' !in token && '\r' !in token
    requires forall i :: 0 <= i < |kept| ==> LineShaped(kept[i]) && Ended(kept[i]) && '\r' !in kept[i]
    ensures var text := Concat(kept) + TokenLine(token);
      Lines(Translate(text)) == kept + [TokenLine(token)]
  {
    var line := TokenLine(token);
    var all := kept + [line];
    assert Concat(all) == Concat(kept) + line by {
      assert all[..|all| - 1] == kept;
    }
    assert forall i :: 0 <= i < |all| ==> LineShaped(all[i]) && Ended(all[i]) && '\r' !in all[i] by {
      KeyLineShaped(token);
      forall i | 0 <= i < |all| ensures LineShaped(all[i]) && Ended(all[i]) && '\r' !in all[i] {
        if i == |kept| {
          assert all[i] == line;
        } else {
          assert all[i] == kept[i];
        }
      }
    }
    ReadBack(all);
  }

  /** Ended lines without a carriage return, written out and read back, are the same lines. */
  lemma ReadBack(ls: seq<string>)
    requires forall i :: 0 <= i < |ls| ==> LineShaped(ls[i]) && Ended(ls[i]) && '\r' !in ls[i]
    ensures Lines(Translate(Concat(ls))) == ls
  {
    LinesOfConcat(ls);
    ConcatLacks(ls, '\r');
    TranslateKeepsPlainText(Concat(ls));
  }

  /** The kept lines of a file, all ended but the last. */
  lemma KeptLines(file: Option<string>)
    ensures var kept := Kept(FileLines(file));
      && EndedButLast(kept)
      && forall i :: 0 <= i < |kept| ==> LineShaped(kept[i]) && '\r' !in kept[i] && !IsTokenLine(kept[i])
  {
    var lines := FileLines(file);
    FileLinesShaped(file);
    WithoutEndedButLast(lines, IsTokenLine);
    var kept := Kept(lines);
    forall i | 0 <= i < |kept| ensures LineShaped(kept[i]) && '\r' !in kept[i] {
      assert kept[i] in lines;
    }
  }

  /** The lines of a file are lines, all ended but the last, with no carriage return left. */
  lemma FileLinesShaped(file: Option<string>)
    ensures var lines := FileLines(file);
      && EndedButLast(lines)
      && forall i :: 0 <= i < |lines| ==> LineShaped(lines[i]) && '\r' !in lines[i]
  {
    if file.Some? {
      var text := Translate(file.value);
      assert '\r' !in text;
    }
  }

  /**
   * Loading after saving gives back the stripped token, even when it contains '=': provided
   * the token has no line break and the last kept line ends with a newline.
   */
  lemma LoadAfterSave(token: string, file: Option<string>)
    requires '\n' !in token && '\r' !in token
    requires var kept := Kept(FileLines(file)); kept == [] || Ended(kept[|kept| - 1])
    ensures Load(None, Some(SavedText(token, file))) == Strip(token)
  {
    KeptReady(file);
    LoadOfWritten(token, Kept(FileLines(file)));
  }

  /** After a save the file holds exactly one token line, the last one, after the kept lines. */
  lemma SaveLeavesOneTokenLine(token: string, file: Option<string>)
    requires '\n' !in token && '\r' !in token
    requires var kept := Kept(FileLines(file)); kept == [] || Ended(kept[|kept| - 1])
    ensures var lines := Lines(Translate(SavedText(token, file)));
      && lines != [] && IsTokenLine(lines[|lines| - 1])
      && (forall j :: 0 <= j < |lines| - 1 ==> !IsTokenLine(lines[j]))
      && lines[..|lines| - 1] == Kept(FileLines(file))
  {
    var kept := Kept(FileLines(file));
    var line := TokenLine(token);
    var lines := kept + [line];
    assert Lines(Translate(SavedText(token, file))) == lines by {
      KeptReady(file);
      SavedLines(token, kept);
    }
    assert IsTokenLine(lines[|lines| - 1]) by {
      KeyLineValue(token);
      assert lines[|lines| - 1] == line;
    }
    assert lines[..|lines| - 1] == kept;
    KeptLines(file);
    forall j | 0 <= j < |lines| - 1
      ensures !IsTokenLine(lines[j])
    {
      assert lines[j] == kept[j];
    }
  }

  /** A line that is written out as it is and read back as itself. */
  predicate Ready(l: string) {
    LineShaped(l) && Ended(l) && '\r' !in l && !IsTokenLine(l)
  }

  /** When the last kept line ends with a newline, every kept line is ready to be written. */
  lemma KeptReady(file: Option<string>)
    requires var kept := Kept(FileLines(file)); kept == [] || Ended(kept[|kept| - 1])
    ensures var kept := Kept(FileLines(file)); forall i :: 0 <= i < |kept| ==> Ready(kept[i])
  {
    var kept := Kept(FileLines(file));
    KeptLines(file);
    forall i | 0 <= i < |kept|
      ensures Ready(kept[i])
    {
      if i < |kept| - 1 {
        assert Ended(kept[i]);
      }
    }
  }

  /** Loading a file written as ready lines followed by the token line gives back the stripped token. */
  lemma LoadOfWritten(token: string, ls: seq<string>)
    requires '\n' !in token && '\r' !in token
    requires forall i :: 0 <= i < |ls| ==> Ready(ls[i])
    ensures Load(None, Some(Concat(ls) + TokenLine(token))) == Strip(token)
  {
    var line := TokenLine(token);
    var text := Concat(ls) + line;
    assert FileLines(Some(text)) == ls + [line] by {
      SavedLines(token, ls);
    }
    assert TokenIn(ls + [line]) == TokenIn([line]) by {
      FirstValueSkips(ls, [line], IsTokenLine, ValueOf);
    }
    assert TokenIn([line]) == Some(Strip(token)) by {
      KeyLineValue(token);
      assert [line][0] == line;
    }
    LoadOfLines(text, ls + [line]);
  }

  /** With no environment value, loading a file gives the token its lines hold, or "". */
  lemma LoadOfLines(text: string, lines: seq<string>)
    requires FileLines(Some(text)) == lines
    ensures Load(None, Some(text)) == TokenIn(lines).GetOr("")
  {
  }

  /**
   * When the last kept line has no newline the token line is glued onto it and the token is
   * lost: a file holding one unterminated line such as "A=b" is saved with the token "t" as
   * "A=bGITHUB_TOKEN=t\n", one line that is not a token line, so loading finds no token.
   */
  lemma SaveCanLoseToken(s: string, token: string)
    requires s != [] && '\n' !in s && '\r' !in s && !IsSpace(s[0]) && s[0] != 'G'
    requires '\n' !in token && '\r' !in token
    ensures Load(None, Some(SavedText(token, Some(s)))) == ""
  {
    UnendedFile(s);
    NotTokenLineByFirst(s);
    assert Kept([s]) == [s];
    var text := s + TokenLine(token);
    assert SavedText(token, Some(s)) == text by {
      assert Concat([s]) == s;
    }
    GluedRead(s, token);
    NotTokenLineByFirst(text);
    NoKeyLineNoValue([text], IsTokenLine, ValueOf);
  }

  /** A line whose first character is neither whitespace nor 'G' is not a token line. */
  lemma NotTokenLineByFirst(l: string)
    requires l != [] && !IsSpace(l[0]) && l[0] != 'G'
    ensures !IsTokenLine(l)
  {
    assert LStrip(l) == l;
    var r := Strip(l);
    assert r <= l;
    if r != [] {
      assert r[0] == l[0];
    }
  }

  /** The glued text reads back as one line. */
  lemma GluedRead(s: string, token: string)
    requires '\n' !in s && '\r' !in s && '\n' !in token && '\r' !in token
    ensures FileLines(Some(s + TokenLine(token))) == [s + TokenLine(token)]
  {
    var text := s + TokenLine(token);
    assert Concat([text]) == text;
    assert LineShaped(text) && Ended(text) && '\r' !in text by {
      assert text == s + TokenKey + token + "\n";
      assert '\n' !in TokenKey && '\r' !in TokenKey;
    }
    ReadBack([text]);
  }

  /** A file whose whole text has no line break reads as that one line. */
  lemma UnendedFile(s: string)
    requires s != [] && '\n' !in s && '\r' !in s
    ensures FileLines(Some(s)) == [s]
  {
    TranslateKeepsPlainText(s);
    assert LineLen(s) == |s| by {
      UnendedLineLen(s);
    }
    assert s[|s|..] == [] && s[..|s|] == s;
  }

  /** Without a newline the first line is the whole text. */
  lemma {:induction false} UnendedLineLen(s: string)
    requires '\n' !in s
    ensures LineLen(s) == |s|
  {
    if s != [] {
      assert s[0] in s;
      assert forall c :: c in s[1..] ==> c in s;
      UnendedLineLen(s[1..]);
    }
  }

  /** The corrected save: a last kept line without a newline gets one before the token line is added. */
  function Terminated(kept: seq<string>): (r: seq<string>)
    ensures |r| == |kept|
  {
    if kept == [] || Ended(kept[|kept| - 1]) then kept
    else kept[..|kept| - 1] + [kept[|kept| - 1] + "\n"]
  }

  function SavedTextFixed(token: string, file: Option<string>): string {
    Concat(Terminated(Kept(FileLines(file)))) + TokenLine(token)
  }

  /** With the corrected save, loading always gives back the stripped token (when it has no line break). */
  lemma LoadAfterFixedSave(token: string, file: Option<string>)
    requires '\n' !in token && '\r' !in token
    ensures Load(None, Some(SavedTextFixed(token, file))) == Strip(token)
  {
    TerminatedReady(file);
    LoadOfWritten(token, Terminated(Kept(FileLines(file))));
  }

  /** With the missing newline added, every kept line is ready to be written. */
  lemma TerminatedReady(file: Option<string>)
    ensures var fixed := Terminated(Kept(FileLines(file))); forall i :: 0 <= i < |fixed| ==> Ready(fixed[i])
  {
    var kept := Kept(FileLines(file));
    var fixed := Terminated(kept);
    if kept == [] || Ended(kept[|kept| - 1]) {
      KeptReady(file);
    } else {
      KeptLines(file);
      var n := |kept| - 1;
      var last := kept[n];
      TerminatedLine(last);
      assert fixed == kept[..n] + [last + "\n"];
      forall i | 0 <= i < |fixed|
        ensures Ready(fixed[i])
      {
        if i < n {
          assert fixed[i] == kept[i];
          assert Ended(kept[i]);
        } else {
          assert fixed[i] == last + "\n";
        }
      }
    }
  }

  /** Adding the missing newline keeps a line a line, and a non-token line a non-token line. */
  lemma TerminatedLine(l: string)
    requires LineShaped(l) && !Ended(l) && '\r' !in l && !IsTokenLine(l)
    ensures LineShaped(l + "\n") && Ended(l + "\n") && '\r' !in l + "\n" && !IsTokenLine(l + "\n")
  {
    assert (l + "\n")[..|l|] == l;
    assert '\n' !in l;
    assert Strip(l + "\n") == Strip(l) by {
      StripDropsSpace(l, '\n');
    }
  }

  // ---------------------------------------------------------------------------------------
  // Setup
  // ---------------------------------------------------------------------------------------

  /**
   * The answers of the interactive setup: whether to replace a configured token, whether
   * to configure now, the text typed in, and whether the token then works against the API.
   */
  datatype SetupAnswers = SetupAnswers(updateExisting: bool, configureNow: bool, entered: string, tokenWorks: bool)

  /** The result of `setup_github_token`, and the token it saves, if any. */
  datatype SetupOutcome = SetupOutcome(ok: bool, saved: Option<string>)

  /** `setup_github_token`, given the token already configured. */
  function SetupGitHubToken(existing: string, a: SetupAnswers): (r: SetupOutcome)
    ensures r.saved.Some? <==>
      (existing == "" || a.updateExisting) && a.configureNow && |Strip(a.entered)| >= MinTokenLength
    ensures r.saved.Some? ==> r.saved.value == Strip(a.entered) && r.ok == a.tokenWorks
    ensures r.saved.None? ==> (r.ok <==> existing != "" && !a.updateExisting)
  {
    if existing != "" && !a.updateExisting then SetupOutcome(true, None)
    else if !a.configureNow then SetupOutcome(false, None)
    else
      var token := Strip(a.entered);
      if token == "" then SetupOutcome(false, None)
      else if |token| < MinTokenLength then SetupOutcome(false, None)
      else SetupOutcome(a.tokenWorks, Some(token))
  }
}
