/**
 * The string operations the scripts rely on: decimal formatting of ints in
 * f-strings, `str.strip()`, `file.readlines()` and `"".join(...)`.
 */
module Text {
  import opened Wrappers

  // ---------------------------------------------------------------- decimal

  function DigitChar(d: int): (ch: char)
    requires 0 <= d < 10
    ensures '0' <= ch <= '9'
  {
    ('0' as int + d) as char
  }

  /** Decimal digits of a natural number, most significant first (`str(n)`). */
  function NatToString(n: nat): (s: string)
    ensures |s| >= 1 && (n < 10 <==> |s| == 1)
    ensures forall ch :: ch in s ==> '0' <= ch <= '9'
    decreases n
  {
    if n < 10 then [DigitChar(n)] else NatToString(n / 10) + [DigitChar(n % 10)]
  }

  /** `str(i)` for a Python int: a minus sign, then the digits of the magnitude. */
  function IntToString(i: int): (s: string)
    ensures |s| >= 1
    ensures forall ch :: ch in s ==> ch == '-' || '0' <= ch <= '9'
    ensures i < 0 <==> s[0] == '-'
  {
    if i < 0 then "-" + NatToString(-i)
    else var s := NatToString(i); assert s[0] in s; s
  }

  lemma {:induction false} NatToStringInjective(a: nat, b: nat)
    requires NatToString(a) == NatToString(b)
    ensures a == b
    decreases a
  {
    var sa, sb := NatToString(a), NatToString(b);
    if a < 10 {
      assert sa[0] == DigitChar(a) && sb[0] == DigitChar(b);
    } else {
      var pa, pb := NatToString(a / 10), NatToString(b / 10);
      assert sa == pa + [DigitChar(a % 10)] && sb == pb + [DigitChar(b % 10)];
      assert |pa| == |pb|;
      assert pa == sa[..|pa|] && pb == sb[..|pb|];
      assert sa[|sa| - 1] == DigitChar(a % 10) && sb[|sb| - 1] == DigitChar(b % 10);
      NatToStringInjective(a / 10, b / 10);
    }
  }

  /** Distinct ints print differently, so names built from them do not collide. */
  lemma IntToStringInjective(a: int, b: int)
    requires IntToString(a) == IntToString(b)
    ensures a == b
  {
    var s := IntToString(a);
    if a < 0 {
      assert IntToString(a)[1..] == NatToString(-a) && IntToString(b)[1..] == NatToString(-b);
      NatToStringInjective(-a, -b);
    } else {
      NatToStringInjective(a, b);
    }
  }

  // -------------------------------------------------------- searching, affixes

  /** Index of the first occurrence of `c` in `s` (`str.index`). */
  function IndexOf(s: string, c: char): (k: nat)
    requires c in s
    ensures k < |s| && s[k] == c && c !in s[..k]
  {
    if s[0] == c then 0 else assert c in s[1..]; 1 + IndexOf(s[1..], c)
  }

  lemma {:induction false} IndexOfSeparator(x: string, sep: char, y: string)
    requires sep !in x
    ensures sep in x + [sep] + y
    ensures IndexOf(x + [sep] + y, sep) == |x|
  {
    var s := x + [sep] + y;
    assert s[|x|] == sep;
    if x != [] {
      assert s[1..] == x[1..] + [sep] + y;
      IndexOfSeparator(x[1..], sep, y);
    }
  }

  /**
   * A name of the form `x + sep + y` whose head `x` has no `sep` in it
   * determines both `x` and `y`.
   */
  lemma SplitAtSeparator(x: string, y: string, x': string, y': string, sep: char)
    requires sep !in x && sep !in x'
    requires x + [sep] + y == x' + [sep] + y'
    ensures x == x' && y == y'
  {
    IndexOfSeparator(x, sep, y);
    IndexOfSeparator(x', sep, y');
    var s := x + [sep] + y;
    assert x == s[..|x|] && x' == s[..|x'|];
    assert y == s[|x| + 1..] && y' == s[|x'| + 1..];
  }

  predicate HasSuffix(s: string, suffix: string) {
    |suffix| <= |s| && s[|s| - |suffix|..] == suffix
  }

  predicate HasPrefix(s: string, prefix: string) {
    |prefix| <= |s| && s[..|prefix|] == prefix
  }

  lemma SuffixOfConcat(a: string, b: string, suffix: string)
    requires HasSuffix(b, suffix)
    ensures HasSuffix(a + b, suffix)
  {
    assert (a + b)[|a + b| - |suffix|..] == b[|b| - |suffix|..];
  }

  /** A suffix of a suffix is a suffix. */
  lemma SuffixOfSuffix(s: string, t: string, u: string)
    requires HasSuffix(s, t) && HasSuffix(t, u)
    ensures HasSuffix(s, u)
  {
    assert s[|s| - |u|..] == t[|t| - |u|..];
  }

  /** Two strings with different last characters differ. */
  lemma DifferentEnds(s: string, t: string)
    requires s != [] && t != [] && s[|s| - 1] != t[|t| - 1]
    ensures s != t
  {
  }

  // -------------------------------------------------------------- join, lines

  /** `"".join(parts)`. */
  function Join(parts: seq<string>): string {
    if parts == [] then "" else parts[0] + Join(parts[1..])
  }

  lemma {:induction false} JoinAppend(a: seq<string>, b: seq<string>)
    ensures Join(a + b) == Join(a) + Join(b)
  {
    if a == [] {
      assert a + b == b;
    } else {
      assert (a + b)[0] == a[0] && (a + b)[1..] == a[1..] + b;
      JoinAppend(a[1..], b);
    }
  }

  /** Length of the first line of `s`, including its newline if it has one. */
  function LineEnd(s: string): (k: nat)
    requires s != []
    ensures 0 < k <= |s|
    ensures '\n' !in s[..k - 1]
    ensures k < |s| ==> s[k - 1] == '\n'
  {
    if '\n' in s then IndexOf(s, '\n') + 1 else |s|
  }

  /** `readlines()`: the text cut after every newline, each piece keeping it. */
  function Lines(s: string): (ls: seq<string>)
    ensures s == [] <==> ls == []
    decreases |s|
  {
    if s == [] then [] else [s[..LineEnd(s)]] + Lines(s[LineEnd(s)..])
  }

  /** Reading the lines back in order gives the text that was split. */
  lemma {:induction false} JoinLines(s: string)
    ensures Join(Lines(s)) == s
    decreases |s|
  {
    if s != [] {
      var k := LineEnd(s);
      JoinLines(s[k..]);
      JoinCons(s[..k], Lines(s[k..]));
      SplitAt(s, k);
    }
  }

  lemma JoinCons(p: string, ps: seq<string>)
    ensures Join([p] + ps) == p + Join(ps)
  {
    assert ([p] + ps)[0] == p && ([p] + ps)[1..] == ps;
  }

  /** A text that starts with a newline-free label line splits there. */
  lemma LinesAfterLabel(head: string, rest: string)
    requires '\n' !in head
    ensures Lines(head + "\n" + rest) == [head + "\n"] + Lines(rest)
  {
    var s := head + "\n" + rest;
    IndexOfSeparator(head, '\n', rest);
    assert LineEnd(s) == |head| + 1;
    assert s[..|head| + 1] == head + "\n";
    assert s[|head| + 1..] == rest;
  }

  // -------------------------------------------------------------- strip

  /** The characters for which Python's `str.isspace()` is true. */
  predicate IsSpace(ch: char) {
    || ('\t' <= ch <= '\r')
    || ('\U{1C}' <= ch <= '\U{1F}')
    || ch == ' '
    || ch == '\U{85}'
    || ch == '\U{A0}'
    || ch == '\U{1680}'
    || ('\U{2000}' <= ch <= '\U{200A}')
    || ch == '\U{2028}'
    || ch == '\U{2029}'
    || ch == '\U{202F}'
    || ch == '\U{205F}'
    || ch == '\U{3000}'
  }

  /** Every character of `s` satisfies `p`. */
  predicate All(s: string, p: char -> bool) {
    forall k :: 0 <= k < |s| ==> p(s[k])
  }

  predicate AllSpace(s: string) {
    All(s, IsSpace)
  }

  lemma AllCons(ch: char, t: string, p: char -> bool)
    requires p(ch) && All(t, p)
    ensures All([ch] + t, p)
  {
    assert forall k :: 1 <= k < |t| + 1 ==> ([ch] + t)[k] == t[k - 1];
  }

  lemma AllSnoc(t: string, ch: char, p: char -> bool)
    requires All(t, p) && p(ch)
    ensures All(t + [ch], p)
  {
    assert forall k :: 0 <= k < |t| ==> (t + [ch])[k] == t[k];
  }

  lemma AllSplit(s: string, k: nat, p: char -> bool)
    requires k <= |s|
    ensures All(s, p) <==> All(s[..k], p) && All(s[k..], p)
  {
    if All(s[..k], p) && All(s[k..], p) {
      forall i | 0 <= i < |s| ensures p(s[i]) {
        if i < k { assert s[i] == s[..k][i]; } else { assert s[i] == s[k..][i - k]; }
      }
    }
  }

  /** The suffix left after dropping the leading characters that satisfy `p` (`lstrip`). */
  function TrimStart(s: string, p: char -> bool): (r: string)
    ensures |r| <= |s| && r == s[|s| - |r|..]
    ensures All(s[..|s| - |r|], p)
    ensures r == [] || !p(r[0])
  {
    if s != [] && p(s[0]) then
      var r := TrimStart(s[1..], p);
      assert s[..|s| - |r|] == [s[0]] + s[1..][..|s[1..]| - |r|];
      AllCons(s[0], s[1..][..|s[1..]| - |r|], p);
      r
    else s
  }

  /** The prefix left after dropping the trailing characters that satisfy `p` (`rstrip`). */
  function TrimEnd(s: string, p: char -> bool): (r: string)
    ensures |r| <= |s| && r == s[..|r|]
    ensures All(s[|r|..], p)
    ensures r == [] || !p(r[|r| - 1])
  {
    if s != [] && p(s[|s| - 1]) then
      var rest := s[..|s| - 1];
      var r := TrimEnd(rest, p);
      assert s[|r|..] == rest[|r|..] + [s[|s| - 1]];
      AllSnoc(rest[|r|..], s[|s| - 1], p);
      r
    else s
  }

  /** Both ends trimmed. */
  function TrimBoth(s: string, p: char -> bool): (r: string)
    ensures r == [] || (!p(r[0]) && !p(r[|r| - 1]))
    ensures r == [] <==> All(s, p)
    ensures |r| <= |s|
    ensures exists i, j :: 0 <= i <= j <= |s| && r == s[i..j] && All(s[..i], p) && All(s[j..], p)
  {
    var t := TrimStart(s, p);
    var r := TrimEnd(t, p);
    TrimmedSlice(s, t, r, p);
    TrimmedEnds(s, t, r, p);
    r
  }

  /** The ends and the emptiness of a prefix `r` of a suffix `t` of `s`, both trimmed. */
  lemma TrimmedEnds(s: string, t: string, r: string, p: char -> bool)
    requires |t| <= |s| && t == s[|s| - |t|..] && All(s[..|s| - |t|], p) && (t == [] || !p(t[0]))
    requires |r| <= |t| && r == t[..|r|] && All(t[|r|..], p) && (r == [] || !p(r[|r| - 1]))
    ensures r == [] || (!p(r[0]) && !p(r[|r| - 1]))
    ensures r == [] <==> All(s, p)
  {
    AllSplit(s, |s| - |t|, p);
    AllSplit(t, |r|, p);
    assert r != [] ==> r[0] == t[0];
  }

  /** A prefix `r` of a suffix `t` of `s`, both left after dropping class characters, is a slice of `s`. */
  lemma TrimmedSlice(s: string, t: string, r: string, p: char -> bool)
    requires |t| <= |s| && t == s[|s| - |t|..] && All(s[..|s| - |t|], p)
    requires |r| <= |t| && r == t[..|r|] && All(t[|r|..], p)
    ensures exists i, j :: 0 <= i <= j <= |s| && r == s[i..j] && All(s[..i], p) && All(s[j..], p)
  {
    var i := |s| - |t|;
    var j := i + |r|;
    assert s[i..j] == r;
    assert s[j..] == t[|r|..];
  }

  lemma TrimBothIdempotent(s: string, p: char -> bool)
    ensures TrimBoth(TrimBoth(s, p), p) == TrimBoth(s, p)
  {
    var r := TrimBoth(s, p);
    if r != [] {
      assert TrimStart(r, p) == r;
      assert TrimEnd(r, p) == r;
    }
  }

  /** `strip()`: whitespace removed from both ends. */
  function Strip(s: string): (r: string)
    ensures r == [] || (!IsSpace(r[0]) && !IsSpace(r[|r| - 1]))
    ensures r == [] <==> AllSpace(s)
    ensures |r| <= |s|
    ensures exists i, j :: 0 <= i <= j <= |s| && r == s[i..j] && AllSpace(s[..i]) && AllSpace(s[j..])
  {
    TrimBoth(s, IsSpace)
  }

  lemma StripEmpty()
    ensures Strip("") == ""
  {
    assert |Strip("")| <= 0;
  }

  lemma StripIdempotent(s: string)
    ensures Strip(Strip(s)) == Strip(s)
  {
    TrimBothIdempotent(s, IsSpace);
  }
}
