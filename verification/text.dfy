/** The string operations the scripts lean on, with Python's meaning:
    `str.isspace`, `str.strip`, `str.split(sep)` with a one-character
    separator, `sep.join(parts)`, and the iteration of a text file line by
    line (`for line in f`), which keeps each line's `\n` terminator.
 */
module Text {

  /** Python `c.isspace()`: the code points Python counts as white space. */
  predicate IsSpace(c: char) {
    var n := c as int;
    || (0x09 <= n <= 0x0D) || (0x1C <= n <= 0x20)
    || n == 0x85 || n == 0xA0 || n == 0x1680
    || (0x2000 <= n <= 0x200A)
    || n == 0x2028 || n == 0x2029 || n == 0x202F || n == 0x205F || n == 0x3000
  }

  predicate AllSpace(s: string) {
    forall i :: 0 <= i < |s| ==> IsSpace(s[i])
  }

  /** `s` neither starts nor ends with white space. */
  predicate Trimmed(s: string) {
    s == [] || (!IsSpace(s[0]) && !IsSpace(s[|s| - 1]))
  }

  /** Python `s.lstrip()`: the longest suffix of `s` not starting with white space. */
  function LStrip(s: string): (r: string)
    ensures |r| <= |s| && r == s[|s| - |r|..]
    ensures AllSpace(s[..|s| - |r|])
    ensures r == [] || !IsSpace(r[0])
  {
    if s != [] && IsSpace(s[0]) then
      var r := LStrip(s[1..]);
      assert s[..|s| - |r|] == [s[0]] + s[1..][..|s[1..]| - |r|];
      r
    else s
  }

  /** Python `s.rstrip()`: the longest prefix of `s` not ending with white space. */
  function RStrip(s: string): (r: string)
    ensures |r| <= |s| && r == s[..|r|]
    ensures AllSpace(s[|r|..])
    ensures r == [] || !IsSpace(r[|r| - 1])
  {
    if s != [] && IsSpace(s[|s| - 1]) then
      var r := RStrip(s[..|s| - 1]);
      assert s[|r|..] == s[..|s| - 1][|r|..] + [s[|s| - 1]];
      r
    else s
  }

  /** `r` is `s` with `i` characters of white space cut from the front and
      only white space cut from the back. */
  predicate CutsTo(s: string, i: nat, r: string) {
    i + |r| <= |s| && r == s[i..i + |r|] && AllSpace(s[..i]) && AllSpace(s[i + |r|..])
  }

  /** Python `s.strip()`: `s` with its leading and trailing white space removed. */
  function Strip(s: string): (r: string)
    ensures Trimmed(r)
    ensures CutsTo(s, |s| - |LStrip(s)|, r)
  {
    var l := LStrip(s);
    var r := RStrip(l);
    StripTrims(l, r);
    StripCuts(s, |s| - |l|, l, r);
    r
  }

  lemma StripTrims(l: string, r: string)
    requires l == [] || !IsSpace(l[0])
    requires |r| <= |l| && r == l[..|r|]
    requires r == [] || !IsSpace(r[|r| - 1])
    ensures Trimmed(r)
  {
    if r != [] {
      assert r[0] == l[0];
    }
  }

  lemma StripCuts(s: string, i: nat, l: string, r: string)
    requires i <= |s| && l == s[i..] && AllSpace(s[..i])
    requires |r| <= |l| && r == l[..|r|] && AllSpace(l[|r|..])
    ensures CutsTo(s, i, r)
  {
    assert s[i + |r|..] == l[|r|..];
  }

  /** Stripping never introduces a character. */
  lemma StripKeeps(s: string, c: char)
    requires c !in s
    ensures c !in Strip(s)
  {
    var r := Strip(s);
    var i := |s| - |LStrip(s)|;
    assert CutsTo(s, i, r);
    assert r == s[i..i + |r|];
    forall k | 0 <= k < |r| ensures r[k] != c {
      assert r[k] == s[i + k] && s[i + k] in s;
    }
  }

  /** Stripping a string that already has no outer white space changes nothing. */
  lemma StripTrimmed(s: string)
    requires Trimmed(s)
    ensures Strip(s) == s
  {
  }

  lemma {:induction false} LStripAllSpace(t: string)
    requires AllSpace(t)
    ensures LStrip(t) == []
    decreases |t|
  {
    if t != [] {
      LStripAllSpace(t[1..]);
    }
  }

  /** Left-stripping a concatenation stops inside the first part unless that
      part is all white space. */
  lemma {:induction false} LStripAppend(s: string, t: string)
    ensures LStrip(s + t) == if LStrip(s) == [] then LStrip(t) else LStrip(s) + t
    decreases |s|
  {
    if s == [] {
      assert s + t == t;
    } else {
      assert (s + t)[0] == s[0] && (s + t)[1..] == s[1..] + t;
      if IsSpace(s[0]) {
        LStripAppend(s[1..], t);
      }
    }
  }

  lemma {:induction false} RStripTrailingSpace(s: string, t: string)
    requires AllSpace(t)
    ensures RStrip(s + t) == RStrip(s)
    decreases |t|
  {
    if t != [] {
      var u := t[..|t| - 1];
      assert s + t == (s + u) + [t[|t| - 1]];
      assert (s + t)[..|s + t| - 1] == s + u;
      RStripTrailingSpace(s, u);
    } else {
      assert s + t == s;
    }
  }

  /** Trailing white space never survives a strip: in particular a line's
      `\n` terminator does not. */
  lemma StripTrailingSpace(s: string, t: string)
    requires AllSpace(t)
    ensures Strip(s + t) == Strip(s)
  {
    LStripAppend(s, t);
    if LStrip(s) == [] {
      LStripAllSpace(t);
    } else {
      RStripTrailingSpace(LStrip(s), t);
    }
  }

  // ---------------------------------------------------------------------
  // Searching, splitting and joining

  function IndexOf(s: string, c: char): (i: nat)
    requires c in s
    ensures i < |s| && s[i] == c && c !in s[..i]
  {
    if s[0] == c then 0 else IndexOf(s[1..], c) + 1
  }

  /** The first occurrence is the only position holding `c` with no `c` before it. */
  lemma {:induction false} IndexOfUnique(s: string, c: char, j: nat)
    requires j < |s| && s[j] == c && c !in s[..j]
    ensures IndexOf(s, c) == j
    decreases j
  {
    if j > 0 {
      assert s[0] == s[..j][0];
      assert s[1..][..j - 1] == s[1..j];
      assert s[..j] == [s[0]] + s[1..j];
      IndexOfUnique(s[1..], c, j - 1);
    }
  }

  /** Python `sep.join(parts)` for a one-character separator. */
  function JoinWith(parts: seq<string>, sep: char): string {
    if |parts| == 0 then ""
    else if |parts| == 1 then parts[0]
    else parts[0] + [sep] + JoinWith(parts[1..], sep)
  }

  /** Python `s.split(sep)` for a one-character separator: the maximal
      separator-free pieces, in order; there is always at least one. */
  function Split(s: string, sep: char): (r: seq<string>)
    ensures |r| >= 1
    ensures forall i :: 0 <= i < |r| ==> sep !in r[i]
    ensures JoinWith(r, sep) == s
    ensures |r| == 1 <==> sep !in s
    decreases |s|
  {
    if sep !in s then [s]
    else
      var i := IndexOf(s, sep);
      var rest := Split(s[i + 1..], sep);
      assert s == s[..i] + [sep] + s[i + 1..];
      [s[..i]] + rest
  }

  /** A separator-free head followed by the separator splits off first. */
  lemma SplitAtFirst(a: string, sep: char, t: string)
    requires sep !in a
    ensures Split(a + [sep] + t, sep) == [a] + Split(t, sep)
  {
    var s := a + [sep] + t;
    assert s[|a|] == sep && s[..|a|] == a;
    IndexOfUnique(s, sep, |a|);
    assert s[|a| + 1..] == t;
  }

  /** Splitting undoes joining, when no part contains the separator. */
  lemma {:induction false} SplitJoin(parts: seq<string>, sep: char)
    requires |parts| >= 1
    requires forall i :: 0 <= i < |parts| ==> sep !in parts[i]
    ensures Split(JoinWith(parts, sep), sep) == parts
    decreases |parts|
  {
    if |parts| > 1 {
      var t := JoinWith(parts[1..], sep);
      assert JoinWith(parts, sep) == parts[0] + [sep] + t;
      SplitAtFirst(parts[0], sep, t);
      SplitJoin(parts[1..], sep);
    } else {
      assert JoinWith(parts, sep) == parts[0];
    }
  }

  function Concat(ss: seq<string>): string {
    if ss == [] then "" else ss[0] + Concat(ss[1..])
  }

  lemma {:induction false} ConcatAppend(a: seq<string>, b: seq<string>)
    ensures Concat(a + b) == Concat(a) + Concat(b)
    decreases |a|
  {
    if a == [] {
      assert a + b == b;
    } else {
      assert (a + b)[0] == a[0] && (a + b)[1..] == a[1..] + b;
      ConcatAppend(a[1..], b);
    }
  }

  // ---------------------------------------------------------------------
  // Text files read line by line

  /** `line` is one line as `for line in f` yields it: non-empty, with no
      newline except possibly a final one. */
  predicate IsLine(line: string) {
    |line| > 0 && '\n' !in line[..|line| - 1]
  }

  /** `line` is a complete line: it ends with its terminator. */
  predicate IsFullLine(line: string) {
    IsLine(line) && line[|line| - 1] == '\n'
  }

  /** The lines `for line in f` yields for a file whose content is `t`. */
  function Lines(t: string): (ls: seq<string>)
    ensures Concat(ls) == t
    ensures forall i :: 0 <= i < |ls| ==> IsLine(ls[i])
    ensures forall i :: 0 <= i < |ls| - 1 ==> IsFullLine(ls[i])
    decreases |t|
  {
    if t == [] then []
    else if '\n' !in t then [t]
    else
      var i := IndexOf(t, '\n');
      var rest := Lines(t[i + 1..]);
      assert t == t[..i + 1] + t[i + 1..];
      assert t[..i + 1][..i] == t[..i];
      [t[..i + 1]] + rest
  }

  /** Reading back a file written as complete lines yields those lines. */
  lemma {:induction false} LinesConcat(ls: seq<string>)
    requires forall i :: 0 <= i < |ls| ==> IsFullLine(ls[i])
    ensures Lines(Concat(ls)) == ls
    decreases |ls|
  {
    if ls != [] {
      var t := Concat(ls);
      var l := ls[0];
      assert t == l + Concat(ls[1..]);
      assert t[|l| - 1] == '\n' && t[..|l| - 1] == l[..|l| - 1];
      IndexOfUnique(t, '\n', |l| - 1);
      var i := IndexOf(t, '\n');
      assert t[..i + 1] == l;
      assert t[i + 1..] == Concat(ls[1..]);
      LinesConcat(ls[1..]);
    }
  }

  function StartsWith(s: string, prefix: string): bool {
    |prefix| <= |s| && s[..|prefix|] == prefix
  }

  function EndsWith(s: string, suffix: string): bool {
    |suffix| <= |s| && s[|s| - |suffix|..] == suffix
  }
}
