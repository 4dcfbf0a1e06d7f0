/** Python string idioms over `seq<char>`, restricted to a subset of ASCII: whitespace is
    ` \t\n\r\v\f` only, and case folding maps `A`-`Z` only. */
module Text {

  /** The six usual ASCII whitespace characters. Python's `str.strip()` and `\s` also treat
      `\x1c`-`\x1f` and non-ASCII spaces as whitespace; this model does not. */
  predicate IsSpace(c: char) {
    c == ' ' || c == '\t' || c == '\n' || c == '\r' || c == '\U{000B}' || c == '\U{000C}'
  }

  predicate AllSpace(s: string) {
    forall i :: 0 <= i < |s| ==> IsSpace(s[i])
  }

  /** `s.lstrip()`: drops the leading whitespace and nothing else. */
  function LStrip(s: string): (r: string)
    ensures |r| <= |s| && r == s[|s| - |r|..]
    ensures AllSpace(s[..|s| - |r|])
    ensures r == [] || !IsSpace(r[0])
    decreases |s|
  {
    if s != [] && IsSpace(s[0]) then LStrip(s[1..]) else s
  }

  /** `s.rstrip()`: drops the trailing whitespace and nothing else. */
  function RStrip(s: string): (r: string)
    ensures |r| <= |s| && r == s[..|r|]
    ensures AllSpace(s[|r|..])
    ensures r == [] || !IsSpace(r[|r| - 1])
    decreases |s|
  {
    if s != [] && IsSpace(s[|s| - 1]) then RStrip(s[..|s| - 1]) else s
  }

  /** `s.strip()` */
  function Strip(s: string): (r: string)
    ensures r == [] || (!IsSpace(r[0]) && !IsSpace(r[|r| - 1]))
    ensures exists i, j :: 0 <= i <= j <= |s| && r == s[i..j] && AllSpace(s[..i]) && AllSpace(s[j..])
  {
    var l := LStrip(s);
    var r := RStrip(l);
    var i := |s| - |l|;
    assert l == s[i..];
    assert r == s[i..i + |r|];
    assert s[i + |r|..] == l[|r|..];
    r
  }

  /** Whitespace in front of a string disappears under `lstrip`. */
  lemma {:induction false} LStripSpacePrefix(w: string, s: string)
    requires AllSpace(w)
    ensures LStrip(w + s) == LStrip(s)
    decreases |w|
  {
    if w != [] {
      assert (w + s)[0] == w[0] && (w + s)[1..] == w[1..] + s;
      assert LStrip(w + s) == LStrip(w[1..] + s);
      LStripSpacePrefix(w[1..], s);
    } else {
      assert w + s == s;
    }
  }

  /** A string that does not start with whitespace is its own `lstrip`. */
  lemma LStripNoop(s: string)
    requires s == [] || !IsSpace(s[0])
    ensures LStrip(s) == s
  {
  }

  /** A string that does not end with whitespace is its own `rstrip`. */
  lemma RStripNoop(s: string)
    requires s == [] || !IsSpace(s[|s| - 1])
    ensures RStrip(s) == s
  {
  }

  /** `strip` is idempotent: a stripped string has nothing left to strip. */
  lemma StripIdempotent(s: string)
    ensures Strip(Strip(s)) == Strip(s)
  {
    var r := Strip(s);
    LStripNoop(r);
    RStripNoop(r);
  }

  /** A string that holds a non-space character does not strip to nothing. */
  lemma {:induction false} StripKeepsNonSpace(s: string, i: int)
    requires 0 <= i < |s| && !IsSpace(s[i])
    ensures Strip(s) != []
  {
    var l := LStrip(s);
    assert i >= |s| - |l|;
    assert l[i - (|s| - |l|)] == s[i];
  }

  /** The lower case of an ASCII letter; every other character is unchanged. */
  function LowerChar(c: char): (d: char)
    ensures 'A' <= c <= 'Z' ==> 'a' <= d <= 'z' && d as int - c as int == 32
    ensures !('A' <= c <= 'Z') ==> d == c
  {
    if 'A' <= c <= 'Z' then (c as int + 32) as char else c
  }

  /** `s.lower()` */
  function Lower(s: string): (r: string)
    ensures |r| == |s|
    ensures forall i :: 0 <= i < |s| ==> r[i] == LowerChar(s[i])
  {
    if s == [] then [] else [LowerChar(s[0])] + Lower(s[1..])
  }

  /** Lowering twice is lowering once, and lowering keeps whitespace as it is. */
  lemma LowerIdempotent(s: string)
    ensures Lower(Lower(s)) == Lower(s)
    ensures forall i :: 0 <= i < |s| ==> (IsSpace(Lower(s)[i]) <==> IsSpace(s[i]))
  {
  }

  /** A string without capital letters is its own lower case. */
  lemma LowerNoCapitals(s: string)
    requires forall i :: 0 <= i < |s| ==> !('A' <= s[i] <= 'Z')
    ensures Lower(s) == s
  {
  }

  /** `lower` works character by character, so it distributes over concatenation. */
  lemma LowerAppend(a: string, b: string)
    ensures Lower(a + b) == Lower(a) + Lower(b)
  {
  }

  /** `s.startswith(p)` */
  predicate StartsWith(s: string, p: string) {
    |p| <= |s| && s[..|p|] == p
  }

  /** `s.endswith(p)` */
  predicate EndsWith(s: string, p: string) {
    |p| <= |s| && s[|s| - |p|..] == p
  }

  /** A suffix of a suffix is a suffix. */
  lemma EndsWithTrans(a: string, b: string, c: string)
    requires EndsWith(a, b) && EndsWith(b, c)
    ensures EndsWith(a, c)
  {
    assert a[|a| - |c|..] == a[|a| - |b|..][|b| - |c|..];
  }

  /** `s.count(c)` for a one-character `c`: the number of occurrences of `c`. */
  function Count(s: string, c: char): (n: nat)
    ensures n == multiset(s)[c]
    ensures n <= |s|
    ensures n == 0 <==> c !in s
  {
    if s == [] then 0
    else
      assert s == s[..|s| - 1] + [s[|s| - 1]];
      Count(s[..|s| - 1], c) + (if s[|s| - 1] == c then 1 else 0)
  }

  /** `s.find(c)` for a one-character `c`, with `|s|` standing for "not found". */
  function IndexOf(s: string, c: char): (i: nat)
    ensures i <= |s|
    ensures c !in s[..i]
    ensures i < |s| ==> s[i] == c
    decreases |s|
  {
    if s == [] then 0
    else if s[0] == c then 0
    else
      var j := IndexOf(s[1..], c);
      assert s[..j + 1] == [s[0]] + s[1..][..j];
      j + 1
  }

  /** `text.splitlines()` for text whose only line break is `\n`: a final `\n` does not
      open another line, and empty text has no lines. */
  function SplitLines(text: string): (lines: seq<string>)
    ensures forall i :: 0 <= i < |lines| ==> '\n' !in lines[i]
    ensures |lines| <= |text|
    decreases |text|
  {
    if text == [] then []
    else
      var i := IndexOf(text, '\n');
      if i == |text| then
        assert text[..i] == text;
        [text]
      else
        [text[..i]] + SplitLines(text[i + 1..])
  }

  /** The text whose lines are `lines`, each followed by `\n`. */
  function JoinLines(lines: seq<string>): string {
    if lines == [] then [] else lines[0] + "\n" + JoinLines(lines[1..])
  }

  /** Splitting a joined list of lines gives the lines back. */
  lemma {:induction false} SplitJoinLines(lines: seq<string>)
    requires forall i :: 0 <= i < |lines| ==> '\n' !in lines[i]
    ensures SplitLines(JoinLines(lines)) == lines
  {
    if lines != [] {
      var l := lines[0];
      var rest := JoinLines(lines[1..]);
      var t := l + "\n" + rest;
      assert t[..|l|] == l;
      assert t[|l|] == '\n';
      var i := IndexOf(t, '\n');
      assert i == |l|;
      assert t[i + 1..] == rest;
      SplitJoinLines(lines[1..]);
    }
  }

  lemma JoinLinesCons(l: string, ls: seq<string>)
    ensures JoinLines([l] + ls) == l + "\n" + JoinLines(ls)
  {
    assert ([l] + ls)[1..] == ls;
  }

  /** Joining the lines of a text gives the text back, with a final `\n` added when the text
      did not already end with one. */
  lemma {:induction false} JoinSplitLines(text: string)
    ensures JoinLines(SplitLines(text)) ==
            if text == [] || text[|text| - 1] == '\n' then text else text + "\n"
    decreases |text|
  {
    if text != [] {
      var i := IndexOf(text, '\n');
      if i == |text| {
        assert text[..i] == text;
        JoinLinesCons(text, []);
      } else {
        var line, rest := text[..i], text[i + 1..];
        assert SplitLines(text) == [line] + SplitLines(rest);
        JoinLinesCons(line, SplitLines(rest));
        JoinSplitLines(rest);
        assert text == line + "\n" + rest;
        if rest != [] {
          assert text[|text| - 1] == rest[|rest| - 1];
          if rest[|rest| - 1] != '\n' {
            assert line + "\n" + (rest + "\n") == text + "\n";
          }
        }
      }
    }
  }
}
