/** The two-host podcast script: lines labelled `Tony:`/`Host A:` or `Kimmi:`/`Host B:`
    become the speaking parts, and each part's text decides the pause after it. */
module TwoHostScript {
  import opened Wrappers
  import opened Text
  import opened Seqs

  datatype Speaker = A | B

  /** One spoken line: who says it and what they say. */
  datatype Part = Part(speaker: Speaker, text: string)

  // ---------------------------------------------------------------- the tag regexes

  /** `\s*(.+)$` on a line without `\n`: the greedy `\s*` takes all leading whitespace, and
      gives one character back when nothing would be left for `.+`. */
  function RestGroup(u: string): (g: Option<string>)
    ensures g.Some? <==> u != []
    ensures g.Some? ==> g.value != [] && EndsWith(u, g.value)
  {
    if u == [] then None
    else
      var w := LStrip(u);
      if w != [] then Some(w) else Some(u[|u| - 1..])
  }

  /** `\s*:\s*(.+)$`, what the tag must be followed by. */
  function AfterLabel(s: string): (g: Option<string>)
    ensures g.Some? ==> g.value != [] && |g.value| < |s| && EndsWith(s, g.value)
    ensures g.Some? ==> ':' in s[..|s| - |g.value|]
  {
    var t := LStrip(s);
    if t != [] && t[0] == ':' then
      var u := t[1..];
      var g := RestGroup(u);
      if g.Some? then
        assert EndsWith(t, u);
        EndsWithTrans(s, t, u);
        EndsWithTrans(s, u, g.value);
        assert s[|s| - |t|] == ':';
        assert s[..|s| - |g.value|][|s| - |t|] == ':';
        g
      else None
    else None
  }

  /** The `Host\s*X` alternative at the start of `s`, then the rest of the pattern. */
  function HostBranch(s: string, letter: char): (g: Option<string>)
    ensures g.Some? ==> g.value != [] && EndsWith(s, g.value)
  {
    if StartsWith(Lower(s), "host") then
      var r := LStrip(s[4..]);
      if r != [] && LowerChar(r[0]) == letter then
        var g := AfterLabel(r[1..]);
        if g.Some? then
          EndsWithTrans(s, r[1..], g.value);
          g
        else None
      else None
    else None
  }

  /** The literal-name alternative at the start of `s`, then the rest of the pattern. */
  function NameBranch(s: string, name: string): (g: Option<string>)
    ensures g.Some? ==> g.value != [] && EndsWith(s, g.value)
  {
    if StartsWith(Lower(s), name) then
      var g := AfterLabel(s[|name|..]);
      if g.Some? then
        EndsWithTrans(s, s[|name|..], g.value);
        g
      else None
    else None
  }

  /** The regex `^\s*(Host\s*X|name)\s*:\s*(.+)$` with IGNORECASE applied to a line, for the
      lower-case letter `letter` and lower-case name `name`; the result is group 2. The `Host`
      alternative is tried first. Lines never hold `\n` here: they come from `SplitLines`. */
  function MatchLabel(line: string, letter: char, name: string): (g: Option<string>)
    ensures g.Some? ==> g.value != [] && EndsWith(line, g.value)
  {
    var s := LStrip(line);
    var viaHost := HostBranch(s, letter);
    var g := if viaHost.Some? then viaHost else NameBranch(s, name);
    if g.Some? then
      EndsWithTrans(line, s, g.value);
      g
    else None
  }

  /** `HOST_A_RE`: `Host A` or `Tony`. */
  function MatchA(line: string): (g: Option<string>)
    ensures g.Some? ==> g.value != [] && EndsWith(line, g.value)
  {
    MatchLabel(line, 'a', "tony")
  }

  /** `HOST_B_RE`: `Host B` or `Kimmi`. */
  function MatchB(line: string): (g: Option<string>)
    ensures g.Some? ==> g.value != [] && EndsWith(line, g.value)
  {
    MatchLabel(line, 'b', "kimmi")
  }

  /** Whitespace, a colon, whitespace and text that starts with a non-space character: the
      rest of the pattern captures exactly that text. */
  lemma AfterLabelCaptures(ws2: string, ws3: string, text: string)
    requires AllSpace(ws2) && AllSpace(ws3)
    requires text != [] && !IsSpace(text[0])
    ensures AfterLabel(ws2 + (":" + (ws3 + text))) == Some(text)
  {
    SkipLeadingSpace(ws2, ":" + (ws3 + text));
    assert (":" + (ws3 + text))[1..] == ws3 + text;
    SkipLeadingSpace(ws3, text);
  }

  /** Leading whitespace before a non-space start is what the regex's `^\s*` skips. */
  lemma SkipLeadingSpace(ws1: string, s: string)
    requires AllSpace(ws1) && s != [] && !IsSpace(s[0])
    ensures LStrip(ws1 + s) == s
  {
    LStripSpacePrefix(ws1, s);
    LStripNoop(s);
  }

  /** A name written in any case selects the name alternative, which goes on after it. */
  lemma NameBranchAfter(tag: string, rest: string, name: string)
    requires Lower(tag) == name
    ensures NameBranch(tag + rest, name) == AfterLabel(rest)
  {
    LowerAppend(tag, rest);
    assert Lower(tag + rest)[..|name|] == name;
    assert (tag + rest)[|name|..] == rest;
  }

  /** Text that does not start with `h` in any case fails the `Host` alternative. */
  lemma HostBranchNeedsH(s: string, letter: char)
    requires s != [] && LowerChar(s[0]) != 'h'
    ensures HostBranch(s, letter) == None
  {
    var low := Lower(s);
    assert low[0] != 'h';
    assert !StartsWith(low, "host") by {
      if |low| >= 4 {
        assert low[..4][0] == low[0];
      }
    }
  }

  /** `Host` in any case, whitespace and the letter select the `Host` alternative, which goes on
      after the letter. */
  lemma HostBranchAfter(host: string, gap: string, x: char, tail: string, letter: char)
    requires Lower(host) == "host" && AllSpace(gap) && 'a' <= LowerChar(x) <= 'z'
    ensures HostBranch(host + (gap + ([x] + tail)), letter) ==
            if LowerChar(x) == letter then AfterLabel(tail) else None
  {
    var rest := gap + ([x] + tail);
    LowerAppend(host, rest);
    assert Lower(host + rest)[..4] == "host";
    assert (host + rest)[4..] == rest;
    SkipLeadingSpace(gap, [x] + tail);
    assert ([x] + tail)[1..] == tail;
  }

  /** Text that does not start with the name's first letter, in any case, fails the name
      alternative. */
  lemma NameBranchNeedsName(s: string, name: string)
    requires s != [] && name != [] && LowerChar(s[0]) != name[0]
    ensures NameBranch(s, name) == None
  {
    var low := Lower(s);
    assert low[0] != name[0];
    assert !StartsWith(low, name) by {
      if |low| >= |name| {
        assert low[..|name|][0] == low[0];
      }
    }
  }

  /** A line written as a name in any case, a colon and some text, with any whitespace around
      the name and the colon, yields that text, provided the name starts with a letter other
      than `h`. */
  lemma MatchNamedLabel(ws1: string, tag: string, ws2: string, ws3: string, text: string,
                        letter: char, name: string)
    requires AllSpace(ws1) && AllSpace(ws2) && AllSpace(ws3)
    requires Lower(tag) == name && name != [] && 'a' <= name[0] <= 'z' && name[0] != 'h'
    requires text != [] && !IsSpace(text[0])
    ensures MatchLabel(ws1 + (tag + (ws2 + (":" + (ws3 + text)))), letter, name) == Some(text)
  {
    var rest := ws2 + (":" + (ws3 + text));
    var s := tag + rest;
    assert LowerChar(tag[0]) == name[0];
    SkipLeadingSpace(ws1, s);
    HostBranchNeedsH(s, letter);
    NameBranchAfter(tag, rest, name);
    AfterLabelCaptures(ws2, ws3, text);
  }

  /** A line written as `Host`, whitespace and the host's letter, in any case, then a colon and
      some text, yields that text. */
  lemma MatchHostLabel(ws1: string, host: string, gap: string, x: char, ws2: string, ws3: string,
                       text: string, letter: char, name: string)
    requires AllSpace(ws1) && AllSpace(gap) && AllSpace(ws2) && AllSpace(ws3)
    requires Lower(host) == "host" && 'a' <= letter <= 'z' && LowerChar(x) == letter
    requires text != [] && !IsSpace(text[0])
    ensures MatchLabel(ws1 + (host + (gap + ([x] + (ws2 + (":" + (ws3 + text)))))), letter, name)
            == Some(text)
  {
    var tail := ws2 + (":" + (ws3 + text));
    var s := host + (gap + ([x] + tail));
    assert LowerChar(host[0]) == 'h';
    SkipLeadingSpace(ws1, s);
    HostBranchAfter(host, gap, x, tail, letter);
    AfterLabelCaptures(ws2, ws3, text);
  }

  /** `Host`, whitespace and a letter, in any case: the tag of the `Host` alternative. */
  predicate HostTag(tag: string, letter: char) {
    |tag| >= 5 && Lower(tag[..4]) == "host" && AllSpace(tag[4..|tag| - 1]) &&
    LowerChar(tag[|tag| - 1]) == letter
  }

  /** `line` is whitespace `ws1`, the tag (the name, or `Host` and the letter, in any case),
      whitespace `ws2`, a colon, whitespace `ws3` and then `text`. */
  predicate LabelledLine(line: string, letter: char, name: string,
                         ws1: string, tag: string, ws2: string, ws3: string, text: string) {
    && AllSpace(ws1) && AllSpace(ws2) && AllSpace(ws3)
    && (Lower(tag) == name || HostTag(tag, letter))
    && line == ws1 + (tag + (ws2 + (":" + (ws3 + text))))
  }

  /** What `\s*(.+)$` captures follows whitespace only. */
  lemma {:induction false} RestGroupSound(u: string) returns (ws3: string)
    requires RestGroup(u).Some?
    ensures AllSpace(ws3) && u == ws3 + RestGroup(u).value
  {
    var w := LStrip(u);
    if w != [] {
      ws3 := u[..|u| - |w|];
      assert u == ws3 + w;
    } else {
      ws3 := u[..|u| - 1];
      assert AllSpace(u[..|u|]);
      assert forall i :: 0 <= i < |ws3| ==> ws3[i] == u[..|u|][i];
      assert u == ws3 + u[|u| - 1..];
    }
  }

  /** What `\s*:\s*(.+)$` captures follows whitespace, a colon and whitespace. */
  lemma {:induction false} AfterLabelSound(s: string) returns (ws2: string, ws3: string)
    requires AfterLabel(s).Some?
    ensures AllSpace(ws2) && AllSpace(ws3)
    ensures s == ws2 + (":" + (ws3 + AfterLabel(s).value))
  {
    AfterLabelFacts(s);
    var t := LStrip(s);
    ws2 := s[..|s| - |t|];
    ws3 := RestGroupSound(t[1..]);
    Glue(s, t, ws3, AfterLabel(s).value);
  }

  /** What a match of `\s*:\s*(.+)$` says about the text. */
  lemma AfterLabelFacts(s: string)
    requires AfterLabel(s).Some?
    ensures LStrip(s) != [] && LStrip(s)[0] == ':'
    ensures AfterLabel(s) == RestGroup(LStrip(s)[1..])
  {
  }

  /** A suffix `t` of `s` that is a colon and then `rest` splits `s` at the colon. */
  lemma {:induction false} Glue(s: string, t: string, ws3: string, g: string)
    requires |t| <= |s| && t == s[|s| - |t|..] && t != [] && t[0] == ':' && t[1..] == ws3 + g
    ensures s == s[..|s| - |t|] + (":" + (ws3 + g))
  {
    SplitAt(s, |s| - |t|);
    assert t == ":" + t[1..];
  }

  lemma {:induction false} LowerPrefix(s: string, k: nat)
    requires k <= |s|
    ensures Lower(s[..k]) == Lower(s)[..k]
  {
  }

  lemma {:induction false} SplitAt(s: string, k: nat)
    requires k <= |s|
    ensures s == s[..k] + s[k..]
  {
  }

  /** A match through the name alternative starts with the name, in some case. */
  lemma {:induction false} NameBranchSound(s: string, name: string) returns (tag: string, rest: string)
    requires NameBranch(s, name).Some?
    ensures Lower(tag) == name && s == tag + rest && NameBranch(s, name) == AfterLabel(rest)
  {
    tag, rest := s[..|name|], s[|name|..];
    SplitAt(s, |name|);
    LowerPrefix(s, |name|);
  }

  /** `Host`, whitespace and the letter start the text: they form a `Host` tag, and the rest
      follows the letter. */
  lemma {:induction false} HostBranchSound(s: string, letter: char) returns (tag: string, rest: string)
    requires |s| >= 4 && StartsWith(Lower(s), "host")
    requires LStrip(s[4..]) != [] && LowerChar(LStrip(s[4..])[0]) == letter
    ensures HostTag(tag, letter) && s == tag + rest && rest == LStrip(s[4..])[1..]
  {
    LStripOfSuffix(s, 4);
    tag, rest := HostSplit(s, LStrip(s[4..]), letter);
  }

  /** What a match through the `Host` alternative says about the text. */
  lemma HostBranchFacts(s: string, letter: char)
    requires HostBranch(s, letter).Some?
    ensures |s| >= 4 && StartsWith(Lower(s), "host")
    ensures LStrip(s[4..]) != [] && LowerChar(LStrip(s[4..])[0]) == letter
    ensures HostBranch(s, letter) == AfterLabel(LStrip(s[4..])[1..])
  {
  }

  /** `lstrip` of the text from index `j` on: a suffix of the text, after whitespace only. */
  lemma {:induction false} LStripOfSuffix(s: string, j: nat)
    requires j <= |s|
    ensures var r := LStrip(s[j..]);
      |r| <= |s| - j && r == s[|s| - |r|..] && AllSpace(s[j..|s| - |r|])
  {
    var u := s[j..];
    var r := LStrip(u);
    var k := |s| - |r|;
    var w := u[..|u| - |r|];
    assert r == u[|u| - |r|..];
    forall i | 0 <= i < |r| ensures r[i] == s[k..][i] {
      assert r[i] == u[|u| - |r| + i];
    }
    forall i | 0 <= i < k - j ensures s[j..k][i] == w[i] {
      assert w[i] == u[i];
    }
    assert r == s[k..];
    assert s[j..k] == w;
  }

  /** `Host`, whitespace, and a remainder `r` that starts with the letter: the tag ends with
      that letter and the rest is what follows it. */
  lemma {:induction false} HostSplit(s: string, r: string, letter: char) returns (tag: string, rest: string)
    requires |s| >= 4 && StartsWith(Lower(s), "host")
    requires |r| <= |s| - 4 && r == s[|s| - |r|..] && AllSpace(s[4..|s| - |r|])
    requires r != [] && LowerChar(r[0]) == letter
    ensures HostTag(tag, letter) && s == tag + rest && rest == r[1..]
  {
    var k := |s| - |r|;
    HostTagOf(s, k, letter);
    tag, rest := s[..k + 1], s[k + 1..];
    SplitAt(s, k + 1);
  }

  /** `Host`, whitespace up to index `k` and the letter at `k` make a `Host` tag. */
  lemma {:induction false} HostTagOf(s: string, k: nat, letter: char)
    requires 4 <= k < |s| && StartsWith(Lower(s), "host")
    requires AllSpace(s[4..k]) && LowerChar(s[k]) == letter
    ensures HostTag(s[..k + 1], letter)
  {
    var tag := s[..k + 1];
    assert tag[..4] == s[..4];
    LowerPrefix(s, 4);
    assert tag[4..k] == s[4..k];
  }

  /** Every match is a labelled line: whitespace, the name or `Host` and the letter (in any
      case), whitespace, a colon, whitespace, and then exactly the captured text. */
  lemma {:induction false} MatchLabelSound(line: string, letter: char, name: string, g: string)
    requires MatchLabel(line, letter, name) == Some(g)
    ensures exists ws1, tag, ws2, ws3 :: LabelledLine(line, letter, name, ws1, tag, ws2, ws3, g)
  {
    var s := LStrip(line);
    var ws1 := line[..|line| - |s|];
    SplitAt(line, |line| - |s|);
    var tag: string, rest: string;
    if HostBranch(s, letter).Some? {
      HostBranchFacts(s, letter);
      tag, rest := HostBranchSound(s, letter);
    } else {
      tag, rest := NameBranchSound(s, name);
    }
    var ws2, ws3 := AfterLabelSound(rest);
    Assemble(line, ws1, s, tag, rest, ws2 + (":" + (ws3 + g)));
    assert LabelledLine(line, letter, name, ws1, tag, ws2, ws3, g);
  }

  /** Substituting equal parts into a concatenation. */
  lemma Assemble(line: string, ws1: string, s: string, tag: string, rest: string, tail: string)
    requires line == ws1 + s && s == tag + rest && rest == tail
    ensures line == ws1 + (tag + tail)
  {
  }

  // ---------------------------------------------------------------- parsing

  /** What one raw line of the script contributes: nothing when blank; a part for A when the
      stripped line matches A's pattern, else one for B when it matches B's, else nothing. A
      part's text is never empty and has nothing left to strip. */
  function ParseLine(raw: string): (p: Option<Part>)
    ensures Strip(raw) == [] ==> p.None?
    ensures p.Some? && p.value.speaker == A <==> MatchA(Strip(raw)).Some?
    ensures p.Some? && p.value.speaker == B <==> MatchA(Strip(raw)).None? && MatchB(Strip(raw)).Some?
    ensures p.Some? ==> p.value.text != [] && Strip(p.value.text) == p.value.text
  {
    var line := Strip(raw);
    if line == [] then None
    else
      var ma := MatchA(line);
      if ma.Some? then Some(Part(A, LabelText(line, ma.value)))
      else
        var mb := MatchB(line);
        if mb.Some? then Some(Part(B, LabelText(line, mb.value)))
        else None
  }

  /** A name run on into more text, as in `Tonya: hi` or `Tony's note: hi`, is not a label. */
  lemma NameRunOnIsNoLabel(ws1: string, tag: string, c: char, rest: string, letter: char, name: string)
    requires AllSpace(ws1) && Lower(tag) == name && name != [] && 'a' <= name[0] <= 'z' && name[0] != 'h'
    requires !IsSpace(c) && c != ':'
    ensures MatchLabel(ws1 + (tag + ([c] + rest)), letter, name) == None
  {
    var s := tag + ([c] + rest);
    assert LowerChar(tag[0]) == name[0];
    SkipLeadingSpace(ws1, s);
    HostBranchNeedsH(s, letter);
    NameBranchAfter(tag, [c] + rest, name);
    LStripNoop([c] + rest);
  }

  /** `Host` with another host's letter, as in `Host C: hi`, is not this host's label. */
  lemma OtherHostIsNoLabel(ws1: string, host: string, gap: string, x: char, tail: string,
                           letter: char, name: string)
    requires AllSpace(ws1) && Lower(host) == "host" && AllSpace(gap)
    requires 'a' <= LowerChar(x) <= 'z' && LowerChar(x) != letter
    requires name != [] && name[0] != 'h'
    ensures MatchLabel(ws1 + (host + (gap + ([x] + tail))), letter, name) == None
  {
    var s := host + (gap + ([x] + tail));
    assert LowerChar(host[0]) == 'h';
    SkipLeadingSpace(ws1, s);
    HostBranchAfter(host, gap, x, tail, letter);
    NameBranchNeedsName(s, name);
  }

  /** Only labelled lines give parts: a part for A comes from a line labelled `Tony` or
      `Host A`, one for B from a line labelled `Kimmi` or `Host B`, and the part's text is what
      follows the colon, stripped. */
  lemma ParsedLineIsLabelled(raw: string)
    requires ParseLine(raw).Some?
    ensures ParseLine(raw).value.speaker == A ==>
      exists ws1, tag, ws2, ws3, g :: LabelledLine(Strip(raw), 'a', "tony", ws1, tag, ws2, ws3, g) &&
        ParseLine(raw).value.text == Strip(g)
    ensures ParseLine(raw).value.speaker == B ==>
      exists ws1, tag, ws2, ws3, g :: LabelledLine(Strip(raw), 'b', "kimmi", ws1, tag, ws2, ws3, g) &&
        ParseLine(raw).value.text == Strip(g)
  {
    var line := Strip(raw);
    if MatchA(line).Some? {
      var g := MatchA(line).value;
      MatchLabelSound(line, 'a', "tony", g);
      var ws1, tag, ws2, ws3 :| LabelledLine(line, 'a', "tony", ws1, tag, ws2, ws3, g);
      assert LabelledLine(line, 'a', "tony", ws1, tag, ws2, ws3, g) && ParseLine(raw).value.text == Strip(g);
    } else {
      var g := MatchB(line).value;
      MatchLabelSound(line, 'b', "kimmi", g);
      var ws1, tag, ws2, ws3 :| LabelledLine(line, 'b', "kimmi", ws1, tag, ws2, ws3, g);
      assert LabelledLine(line, 'b', "kimmi", ws1, tag, ws2, ws3, g) && ParseLine(raw).value.text == Strip(g);
    }
  }

  /** `group(2).strip()`: group 2 ends the stripped line, so it ends in a non-space character
      and its strip is not empty. */
  function LabelText(line: string, g: string): (t: string)
    requires line != [] && !IsSpace(line[|line| - 1])
    requires g != [] && EndsWith(line, g)
    ensures t != [] && Strip(t) == t
  {
    assert g[|g| - 1] == line[|line| - 1];
    StripKeepsNonSpace(g, |g| - 1);
    StripIdempotent(g);
    Strip(g)
  }

  /** What `parse` makes of each line, in line order, the lines it skips left out. */
  function Collect(lines: seq<string>, parse: string -> Option<Part>): (ps: seq<Part>)
    ensures |ps| <= |lines|
  {
    if lines == [] then []
    else
      var p := parse(lines[|lines| - 1]);
      Collect(lines[..|lines| - 1], parse) + (if p.Some? then [p.value] else [])
  }

  /** The parts of a list of raw lines, in line order: at most one per line, each with a
      non-empty, stripped text. */
  function Parts(lines: seq<string>): (ps: seq<Part>)
    ensures |ps| <= |lines|
    ensures forall i :: 0 <= i < |ps| ==> ps[i].text != [] && Strip(ps[i].text) == ps[i].text
  {
    CollectKeeps(lines, ParseLine, (p: Part) => p.text != [] && Strip(p.text) == p.text);
    Collect(lines, ParseLine)
  }

  const NoLabelsError: string := "No lines found with 'Tony:'/'Kimmi:' (or Host A/Host B) labels"

  /** `parse_script(script_text)`: the parts of every line, or the error when there are none. */
  method ParseScript(scriptText: string) returns (r: Result<seq<Part>, string>)
    ensures r.Failure? <==> Parts(SplitLines(scriptText)) == []
    ensures r.Success? ==> r.value == Parts(SplitLines(scriptText))
    ensures r.Failure? ==> r.error == NoLabelsError
  {
    var lines := SplitLines(scriptText);
    var parts: seq<Part> := [];
    for i := 0 to |lines|
      invariant parts == Collect(lines[..i], ParseLine)
    {
      var p := ParseLine(lines[i]);
      CollectStep(lines, i, ParseLine);
      if p.Some? {
        parts := parts + [p.value];
      }
    }
    assert lines[..|lines|] == lines;
    if parts == [] {
      return Failure(NoLabelsError);
    }
    return Success(parts);
  }

  /** Collecting one more line adds what `parse` makes of it. */
  lemma CollectStep(lines: seq<string>, i: nat, parse: string -> Option<Part>)
    requires i < |lines|
    ensures Collect(lines[..i + 1], parse) ==
            Collect(lines[..i], parse) + (if parse(lines[i]).Some? then [parse(lines[i]).value] else [])
  {
    assert lines[..i + 1][..i] == lines[..i];
  }

  /** Parsing works line by line: the parts of two blocks of lines are the parts of the first
      followed by the parts of the second. */
  lemma {:induction false} CollectAppend(a: seq<string>, b: seq<string>, parse: string -> Option<Part>)
    ensures Collect(a + b, parse) == Collect(a, parse) + Collect(b, parse)
    decreases |b|
  {
    if b == [] {
      assert a + b == a;
    } else {
      var b' := b[..|b| - 1];
      assert (a + b)[..|a + b| - 1] == a + b';
      assert (a + b)[|a + b| - 1] == b[|b| - 1];
      CollectAppend(a, b', parse);
    }
  }

  /** The parts of two blocks of script lines are those of the first, then those of the
      second. */
  lemma PartsAppend(a: seq<string>, b: seq<string>)
    ensures Parts(a + b) == Parts(a) + Parts(b)
  {
    CollectAppend(a, b, ParseLine);
  }

  /** A blank line may be added anywhere without changing the parts. */
  lemma BlankLineIsSkipped(a: seq<string>, blank: string, b: seq<string>)
    requires Strip(blank) == []
    ensures Parts(a + [blank] + b) == Parts(a + b)
  {
    CollectSkips(a, blank, b, ParseLine);
  }

  /** A line `parse` skips may be added anywhere without changing what is collected. */
  lemma CollectSkips(a: seq<string>, x: string, b: seq<string>, parse: string -> Option<Part>)
    requires parse(x).None?
    ensures Collect(a + [x] + b, parse) == Collect(a + b, parse)
  {
    assert [x][..0] == [];
    assert Collect([x], parse) == [];
    CollectAppend(a, [x], parse);
    CollectAppend(a + [x], b, parse);
    CollectAppend(a, b, parse);
  }

  /** Every part `parse` gives has a property, so every collected part has it. */
  lemma {:induction false} CollectKeeps(lines: seq<string>, parse: string -> Option<Part>, good: Part -> bool)
    requires forall x :: parse(x).Some? ==> good(parse(x).value)
    ensures forall i :: 0 <= i < |Collect(lines, parse)| ==> good(Collect(lines, parse)[i])
  {
    if lines != [] {
      CollectKeeps(lines[..|lines| - 1], parse, good);
    }
  }

  /** A stripped line that matches A's pattern is A's part with group 2, stripped. */
  lemma ParseLineA(line: string, g: string)
    requires line != [] && Strip(line) == line && MatchA(line) == Some(g)
    ensures ParseLine(line) == Some(Part(A, Strip(g)))
  {
  }

  /** A stripped line that matches only B's pattern is B's part with group 2, stripped. */
  lemma ParseLineB(line: string, g: string)
    requires line != [] && Strip(line) == line && MatchA(line) == None && MatchB(line) == Some(g)
    ensures ParseLine(line) == Some(Part(B, Strip(g)))
  {
  }

  // ---------------------------------------------------------------- pauses

  /** The pause a final cue adds: `0.10` after `?`, `0.08` after `!`, `0.06` after a full stop,
      each in its ASCII and its full-width form. */
  function EndBonus(t: string): (r: real)
    ensures 0.0 <= r <= 0.10
    ensures r == 0.0 <==> !EndsInCue(t)
  {
    EndsWithChar(t, '?');
    EndsWithChar(t, '\U{FF1F}');
    EndsWithChar(t, '!');
    EndsWithChar(t, '\U{FF01}');
    EndsWithChar(t, '\U{3002}');
    EndsWithChar(t, '.');
    (if EndsWith(t, "?") || EndsWith(t, "\U{FF1F}") then 0.10 else 0.0)
    + (if EndsWith(t, "!") || EndsWith(t, "\U{FF01}") then 0.08 else 0.0)
    + (if EndsWith(t, "\U{3002}") || EndsWith(t, ".") then 0.06 else 0.0)
  }

  /** The pause commas add: `0.02` per ASCII or full-width comma, capped at `0.14`. */
  function CommaBonus(t: string): (r: real)
    ensures 0.0 <= r <= 0.14
    ensures r == 0.0 <==> ',' !in t && '\U{FF0C}' !in t
  {
    RMin(0.14, 0.02 * Count(t, '\U{FF0C}') as real + 0.02 * Count(t, ',') as real)
  }

  /** `pause_for_line(text, base_pause)`: the pause after a line grows with a final question
      mark, exclamation mark or full stop and with commas, in the stripped text. */
  function PauseForLine(text: string, basePause: real): (r: real)
    ensures basePause <= r <= basePause + 0.24
    ensures r == basePause <==> !EndsInCue(Strip(text)) && ',' !in Strip(text) && '\U{FF0C}' !in Strip(text)
  {
    var t := Strip(text);
    basePause + EndBonus(t) + CommaBonus(t)
  }

  /** The stripped text ends in one of the six cue characters. */
  predicate EndsInCue(t: string) {
    t != [] && t[|t| - 1] in {'?', '\U{FF1F}', '!', '\U{FF01}', '\U{3002}', '.'}
  }

  /** `t.endswith(c)` for a one-character `c` is a test of the last character. */
  lemma EndsWithChar(t: string, c: char)
    ensures EndsWith(t, [c]) <==> t != [] && t[|t| - 1] == c
  {
  }

  /** The pause depends only on the stripped text. */
  lemma PauseIgnoresSurroundingSpace(text: string, basePause: real)
    ensures PauseForLine(Strip(text), basePause) == PauseForLine(text, basePause)
  {
    StripIdempotent(text);
  }

  /** A question without commas earns the question bonus and nothing else, whatever space
      surrounds it. */
  lemma QuestionEarnsQuestionBonus(text: string, basePause: real)
    requires Strip(text) != [] && Strip(text)[|Strip(text)| - 1] == '?'
    requires ',' !in Strip(text) && '\U{FF0C}' !in Strip(text)
    ensures PauseForLine(text, basePause) == basePause + 0.10
  {
    var t := Strip(text);
    EndsWithChar(t, '?');
    EndsWithChar(t, '!');
    EndsWithChar(t, '\U{FF01}');
    EndsWithChar(t, '\U{3002}');
    EndsWithChar(t, '.');
    assert EndBonus(t) == 0.10;
    assert CommaBonus(t) == 0.0;
  }
}
