/** The few PHP string functions the configuration code relies on. */
module PhpStrings {

  /**
   * The characters mb_trim removes by default: space, tab, line feed, carriage
   * return, NUL, vertical tab, form feed and the Unicode space characters.
   */
  const DefaultTrimChars: set<char> := {
    ' ', '\t', '\n', '\r', '\0', '\U{000B}', '\U{000C}', '\U{0085}', '\U{00A0}',
    '\U{1680}', '\U{180E}', '\U{2000}', '\U{2001}', '\U{2002}', '\U{2003}', '\U{2004}',
    '\U{2005}', '\U{2006}', '\U{2007}', '\U{2008}', '\U{2009}', '\U{200A}', '\U{2028}',
    '\U{2029}', '\U{202F}', '\U{205F}', '\U{3000}'
  }

  /** Every character of s belongs to cs. */
  predicate AllIn(s: string, cs: set<char>) {
    forall i :: 0 <= i < |s| ==> s[i] in cs
  }

  /** No character of s belongs to cs. */
  predicate NoneIn(s: string, cs: set<char>) {
    forall i :: 0 <= i < |s| ==> s[i] !in cs
  }

  /** How many characters at the start of s belong to cs. */
  function LeadingIn(s: string, cs: set<char>): (n: nat)
    ensures n <= |s| && AllIn(s[..n], cs)
    ensures n == |s| || s[n] !in cs
  {
    if s == [] || s[0] !in cs then 0
    else
      var n := LeadingIn(s[1..], cs);
      assert s[..n + 1] == [s[0]] + s[1..][..n];
      n + 1
  }

  /** How many characters at the end of s belong to cs. */
  function TrailingIn(s: string, cs: set<char>): (n: nat)
    ensures n <= |s| && AllIn(s[|s| - n..], cs)
    ensures n == |s| || s[|s| - n - 1] !in cs
  {
    if s == [] || s[|s| - 1] !in cs then 0
    else
      var t := s[..|s| - 1];
      var n := TrailingIn(t, cs);
      assert s == t + [s[|s| - 1]];
      assert s[|s| - (n + 1)..] == t[|t| - n..] + [s[|s| - 1]];
      n + 1
  }

  /** ltrim of s with the characters cs. */
  function TrimLeft(s: string, cs: set<char>): string {
    s[LeadingIn(s, cs)..]
  }

  /** rtrim of s with the characters cs. */
  function TrimRight(s: string, cs: set<char>): string {
    s[..|s| - TrailingIn(s, cs)]
  }

  /** ltrim gives the longest suffix of s that does not start with a character of cs. */
  lemma TrimLeftSuffix(s: string, cs: set<char>)
    ensures var r := TrimLeft(s, cs);
      |r| <= |s| && r == s[|s| - |r|..] && AllIn(s[..|s| - |r|], cs) && (r == [] || r[0] !in cs)
  {
  }

  /** rtrim gives the longest prefix of s that does not end with a character of cs. */
  lemma TrimRightPrefix(s: string, cs: set<char>)
    ensures var r := TrimRight(s, cs);
      |r| <= |s| && r == s[..|r|] && AllIn(s[|r|..], cs) && (r == [] || r[|r| - 1] !in cs)
  {
  }

  /** mb_trim of s with the characters cs: strip characters of cs from both ends. */
  function Trim(s: string, cs: set<char>): string {
    TrimRight(TrimLeft(s, cs), cs)
  }

  /** mb_trim of s with the default characters. */
  function TrimSpace(s: string): string {
    Trim(s, DefaultTrimChars)
  }

  /** A string trims to nothing exactly when all its characters are trimmed ones. */
  lemma TrimEmptyIff(s: string, cs: set<char>)
    ensures Trim(s, cs) == [] <==> AllIn(s, cs)
  {
  }

  /** A string that neither starts nor ends with a trimmed character is left alone. */
  lemma TrimUntouched(s: string, cs: set<char>)
    requires s == [] || (s[0] !in cs && s[|s| - 1] !in cs)
    ensures Trim(s, cs) == s
  {
  }

  // ---------------------------------------------------------------------------
  // Splitting on separator characters (explode, preg_split on a character class)
  // ---------------------------------------------------------------------------

  /** Split s at every character of seps; n separators give n + 1 pieces, possibly empty. */
  function Split(s: string, seps: set<char>): (r: seq<string>)
    ensures |r| >= 1
    ensures forall i :: 0 <= i < |r| ==> NoneIn(r[i], seps)
    ensures NoneIn(s, seps) ==> r == [s]
  {
    if s == [] then [""]
    else
      var rest := Split(s[1..], seps);
      assert s == [s[0]] + s[1..];
      if s[0] in seps then [""] + rest
      else [[s[0]] + rest[0]] + rest[1..]
  }

  /** implode: the pieces with c between them. */
  function Join(pieces: seq<string>, c: char): string
    requires |pieces| >= 1
  {
    if |pieces| == 1 then pieces[0] else pieces[0] + [c] + Join(pieces[1..], c)
  }

  lemma {:induction false} SplitPrefix(x: string, t: string, seps: set<char>)
    requires NoneIn(x, seps)
    ensures Split(x + t, seps) == [x + Split(t, seps)[0]] + Split(t, seps)[1..]
  {
    if x != [] {
      assert (x + t)[1..] == x[1..] + t;
      SplitPrefix(x[1..], t, seps);
      assert [x[0]] + (x[1..] + Split(t, seps)[0]) == x + Split(t, seps)[0];
    } else {
      var r := Split(t, seps);
      assert x + t == t;
      assert x + r[0] == r[0];
      assert [r[0]] + r[1..] == r;
    }
  }

  /** Splitting undoes joining with any separator, so the separators are interchangeable. */
  lemma {:induction false} SplitJoin(pieces: seq<string>, c: char, seps: set<char>)
    requires |pieces| >= 1 && c in seps
    requires forall i :: 0 <= i < |pieces| ==> NoneIn(pieces[i], seps)
    ensures Split(Join(pieces, c), seps) == pieces
  {
    if |pieces| == 1 {
    } else {
      var rest := Join(pieces[1..], c);
      SplitJoin(pieces[1..], c, seps);
      SplitAtSeparator(c, rest, seps);
      SplitPrefix(pieces[0], [c] + rest, seps);
      assert Join(pieces, c) == pieces[0] + ([c] + rest);
      assert pieces[0] + "" == pieces[0];
      assert pieces == [pieces[0]] + pieces[1..];
    }
  }

  /** A separator in front starts a new, empty first piece. */
  lemma SplitAtSeparator(c: char, t: string, seps: set<char>)
    requires c in seps
    ensures Split([c] + t, seps) == [""] + Split(t, seps)
  {
    assert ([c] + t)[0] == c && ([c] + t)[1..] == t;
  }

  /** str_replace of one character by another. */
  function ReplaceChar(s: string, from: char, to: char): (r: string)
    ensures |r| == |s|
    ensures forall i :: 0 <= i < |s| ==> r[i] == if s[i] == from then to else s[i]
  {
    if s == [] then [] else [if s[0] == from then to else s[0]] + ReplaceChar(s[1..], from, to)
  }

  // ---------------------------------------------------------------------------
  // str_replace of pat by nothing: remove every occurrence, scanning left to right
  // ---------------------------------------------------------------------------

  function RemoveAll(s: string, pat: string): (r: string)
    requires pat != []
    ensures |r| <= |s|
    decreases |s|
  {
    if |s| < |pat| then s
    else if s[..|pat|] == pat then RemoveAll(s[|pat|..], pat)
    else [s[0]] + RemoveAll(s[1..], pat)
  }

  /** pat occurs in s starting at position i. */
  predicate OccursAt(s: string, pat: string, i: int) {
    0 <= i && i + |pat| <= |s| && s[i..i + |pat|] == pat
  }

  /** pat does not occur anywhere in s. */
  predicate NoOccurrence(s: string, pat: string) {
    forall i | 0 <= i <= |s| :: !OccursAt(s, pat, i)
  }

  lemma {:induction false} RemoveAllAbsent(s: string, pat: string)
    requires pat != [] && NoOccurrence(s, pat)
    ensures RemoveAll(s, pat) == s
    decreases |s|
  {
    if |s| >= |pat| {
      assert !OccursAt(s, pat, 0);
      assert s[0..|pat|] == s[..|pat|];
      forall i ensures !OccursAt(s[1..], pat, i) {
        if 0 <= i && i + |pat| <= |s[1..]| {
          assert s[1..][i..i + |pat|] == s[i + 1..i + 1 + |pat|];
          assert !OccursAt(s, pat, i + 1);
        }
      }
      RemoveAllAbsent(s[1..], pat);
      assert s == [s[0]] + s[1..];
    }
  }

  /** Characters that cannot start an occurrence are copied through unchanged. */
  lemma {:induction false} RemoveAllSkip(x: string, t: string, pat: string)
    requires pat != [] && NoneIn(x, {pat[0]})
    ensures RemoveAll(x + t, pat) == x + RemoveAll(t, pat)
    decreases |x|
  {
    if x == [] {
      assert x + t == t;
    } else {
      var s := x + t;
      assert s[0] == x[0] && s[1..] == x[1..] + t;
      RemoveAllHead(s, pat);
      assert NoneIn(x[1..], {pat[0]}) by {
        forall i | 0 <= i < |x[1..]| ensures x[1..][i] !in {pat[0]} {
          assert x[1..][i] == x[i + 1];
        }
      }
      RemoveAllSkip(x[1..], t, pat);
      HeadConcat(x, RemoveAll(t, pat));
    }
  }

  lemma HeadConcat<T>(x: seq<T>, y: seq<T>)
    requires x != []
    ensures [x[0]] + (x[1..] + y) == x + y
  {
    assert x == [x[0]] + x[1..];
  }

  /** A first character that cannot start an occurrence is kept. */
  lemma RemoveAllHead(s: string, pat: string)
    requires pat != [] && s != [] && s[0] != pat[0]
    ensures RemoveAll(s, pat) == [s[0]] + RemoveAll(s[1..], pat)
  {
    if |s| < |pat| {
      assert s == [s[0]] + s[1..];
    } else {
      assert s[..|pat|][0] == s[0];
    }
  }

  // ---------------------------------------------------------------------------
  // basename and mb_substr
  // ---------------------------------------------------------------------------

  /** The part of s after its last c (all of s when c does not occur). */
  function AfterLast(s: string, c: char): (r: string)
    ensures NoneIn(r, {c})
    ensures |r| <= |s| && r == s[|s| - |r|..]
  {
    if s == [] then []
    else if s[|s| - 1] == c then []
    else
      var r := AfterLast(s[..|s| - 1], c);
      assert s[..|s| - 1][|s| - 1 - |r|..] + [s[|s| - 1]] == s[|s| - 1 - |r|..];
      r + [s[|s| - 1]]
  }

  /** PHP's basename of a path with a suffix, on '/'-separated paths. */
  function Basename(path: string, suffix: string): string {
    var name := AfterLast(TrimRight(path, {'/'}), '/');
    if |suffix| < |name| && name[|name| - |suffix|..] == suffix then name[..|name| - |suffix|]
    else name
  }

  lemma BasenameOfFile(dir: string, name: string, suffix: string)
    requires name != [] && NoneIn(name, {'/'}) && suffix != [] && NoneIn(suffix, {'/'})
    ensures Basename(dir + "/" + name + suffix, suffix) == name
  {
    var n := name + suffix;
    var p := (dir + "/") + n;
    assert dir + "/" + name + suffix == p;
    assert p[|p| - 1] == suffix[|suffix| - 1];
    TrimRightKeeps(p, {'/'});
    AfterLastTail(dir + "/", n, '/');
    SuffixSplit(name, suffix);
  }

  lemma TrimRightKeeps(s: string, cs: set<char>)
    requires s != [] && s[|s| - 1] !in cs
    ensures TrimRight(s, cs) == s
  {
  }

  lemma SuffixSplit(name: string, suffix: string)
    ensures var n := name + suffix; n[|n| - |suffix|..] == suffix && n[..|n| - |suffix|] == name
  {
  }

  lemma AfterLastStep(s: string, last: char, c: char)
    requires last != c
    ensures AfterLast(s + [last], c) == AfterLast(s, c) + [last]
  {
    assert (s + [last])[..|s|] == s;
  }

  lemma {:induction false} AfterLastTail(x: string, y: string, c: char)
    requires x != [] && x[|x| - 1] == c && NoneIn(y, {c})
    ensures AfterLast(x + y, c) == y
    decreases |y|
  {
    if y == [] {
      assert x + y == x;
    } else {
      var init, last := y[..|y| - 1], y[|y| - 1];
      var s := x + y;
      assert s == (x + init) + [last] && y == init + [last];
      assert last != c;
      AfterLastTail(x, init, c);
      AfterLastStep(x + init, last, c);
    }
  }

  /** mb_substr of s from start with length, for a start >= 0 and a negative length. */
  function SubstrDropEnd(s: string, start: nat, dropEnd: nat): (r: string)
    ensures start + dropEnd <= |s| ==> r == s[start..|s| - dropEnd]
    ensures start + dropEnd > |s| ==> r == []
  {
    if start + dropEnd <= |s| then s[start..|s| - dropEnd] else []
  }
}
