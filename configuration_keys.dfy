/**
 * Dot-notation keys of Configuration: a key is split at '.', '/' and '\' into
 * segments, and every segment must contain something besides whitespace.
 */
module ConfigurationKeys {
  import opened Results
  import opened PhpStrings
  import opened ConfigurationErrors

  /** The character class of KEY_SEPARATOR. */
  const KeySeparators: set<char> := {'.', '/', '\\'}

  /** mb_trim of s is empty: every character is one mb_trim removes (see BlankIsTrimEmpty). */
  predicate Blank(s: string) {
    AllIn(s, DefaultTrimChars)
  }

  lemma BlankIsTrimEmpty(s: string)
    ensures Blank(s) <==> TrimSpace(s) == []
  {
    TrimEmptyIff(s, DefaultTrimChars);
  }

  /** A segment that a valid key can contain. */
  predicate GoodSegment(seg: string) {
    NoneIn(seg, KeySeparators) && !Blank(seg)
  }

  /**
   * validateAndSplitDotNotationKey. preg_split on a valid UTF-8 string always
   * yields at least one piece, so the empty-list check never fires here.
   */
  function ValidateKey(key: string): (r: Result<seq<string>, ConfigError>)
    ensures r.Ok? ==> |r.value| >= 1 && forall i :: 0 <= i < |r.value| ==> GoodSegment(r.value[i])
    ensures r.Ok? ==> r.value == Split(key, KeySeparators)
    ensures r == Err(KeyMustBeNonEmpty) <==> Blank(key)
    ensures r.Err? ==> r.error == KeyMustBeNonEmpty || r.error == InvalidDotNotationKey(key)
  {
    if Blank(key) then Err(KeyMustBeNonEmpty)
    else
      var parts := Split(key, KeySeparators);
      if exists i :: 0 <= i < |parts| && Blank(parts[i]) then Err(InvalidDotNotationKey(key))
      else Ok(parts)
  }

  /** splitDotNotationKey: the segments leading to the leaf, and the leaf's own segment. */
  function SplitKey(key: string): (r: Result<(seq<string>, string), ConfigError>)
    ensures ValidateKey(key).Ok? <==> r.Ok?
    ensures r.Ok? ==> ValidateKey(key).value == r.value.0 + [r.value.1]
    ensures r.Err? ==> r.error == ValidateKey(key).error
  {
    match ValidateKey(key)
    case Err(e) => Err(e)
    case Ok(segs) =>
      assert segs == segs[..|segs| - 1] + [segs[|segs| - 1]];
      Ok((segs[..|segs| - 1], segs[|segs| - 1]))
  }

  lemma {:induction false} JoinFirstLast(segs: seq<string>, c: char)
    requires |segs| >= 1 && forall i :: 0 <= i < |segs| ==> segs[i] != []
    ensures Join(segs, c) != []
    ensures Join(segs, c)[0] == segs[0][0]
    ensures Join(segs, c)[|Join(segs, c)| - 1] == segs[|segs| - 1][|segs[|segs| - 1]| - 1]
  {
    if |segs| > 1 {
      JoinFirstLast(segs[1..], c);
    }
  }

  /** A key written as its segments joined by any separator validates to those segments. */
  lemma ValidateJoin(segs: seq<string>, c: char)
    requires c in KeySeparators && |segs| >= 1
    requires forall i :: 0 <= i < |segs| ==> GoodSegment(segs[i])
    ensures ValidateKey(Join(segs, c)) == Ok(segs)
  {
    JoinNotBlank(segs, c);
    SplitJoin(segs, c, KeySeparators);
    ValidateGoodParts(Join(segs, c), segs);
  }

  lemma ValidateGoodParts(key: string, parts: seq<string>)
    requires !Blank(key) && Split(key, KeySeparators) == parts
    requires forall i :: 0 <= i < |parts| ==> GoodSegment(parts[i])
    ensures ValidateKey(key) == Ok(parts)
  {
    assert !exists i :: 0 <= i < |parts| && Blank(parts[i]) by {
      forall i | 0 <= i < |parts| ensures !Blank(parts[i]) {
        assert GoodSegment(parts[i]);
      }
    }
  }

  lemma JoinNotBlank(segs: seq<string>, c: char)
    requires |segs| >= 1 && !Blank(segs[0])
    ensures !Blank(Join(segs, c))
  {
    var key := Join(segs, c);
    var k :| 0 <= k < |segs[0]| && segs[0][k] !in DefaultTrimChars;
    if |segs| > 1 {
      assert key == segs[0] + ([c] + Join(segs[1..], c));
    }
    assert key[k] == segs[0][k];
  }

  /** '.', '/' and '\' are interchangeable as separators. */
  lemma SeparatorsInterchangeable(segs: seq<string>, c: char, d: char)
    requires c in KeySeparators && d in KeySeparators && |segs| >= 1
    requires forall i :: 0 <= i < |segs| ==> GoodSegment(segs[i])
    ensures ValidateKey(Join(segs, c)) == ValidateKey(Join(segs, d))
  {
    ValidateJoin(segs, c);
    ValidateJoin(segs, d);
  }

  /** A key with a blank segment, such as "a..b", is rejected with its own text. */
  lemma BlankSegmentRejected(segs: seq<string>, c: char, j: int)
    requires c in KeySeparators && |segs| >= 1 && 0 <= j < |segs| && Blank(segs[j])
    requires forall i :: 0 <= i < |segs| ==> NoneIn(segs[i], KeySeparators)
    requires !Blank(Join(segs, c))
    ensures ValidateKey(Join(segs, c)) == Err(InvalidDotNotationKey(Join(segs, c)))
  {
    SplitJoin(segs, c, KeySeparators);
  }

  // ---------------------------------------------------------------------------
  // File paths as keys (convertFilePathToConfigKey)
  // ---------------------------------------------------------------------------

  /**
   * The key of a file found under a directory: the path after the directory and
   * its separator, without the last four characters (".php"), trimmed of '/',
   * with '/' turned into '.'.
   */
  function FilePathToKey(realDirectory: string, path: string): string {
    ReplaceChar(Trim(SubstrDropEnd(path, |realDirectory| + 1, 4), {'/'}), '/', '.')
  }

  lemma {:induction false} ReplaceJoin(segs: seq<string>, c: char, d: char)
    requires |segs| >= 1 && forall i :: 0 <= i < |segs| ==> NoneIn(segs[i], {c})
    ensures ReplaceChar(Join(segs, c), c, d) == Join(segs, d)
  {
    ReplaceNone(segs[0], c, d);
    if |segs| > 1 {
      ReplaceJoin(segs[1..], c, d);
      ReplaceConcat(segs[0] + [c], Join(segs[1..], c), c, d);
      ReplaceConcat(segs[0], [c], c, d);
    }
  }

  lemma ReplaceNone(s: string, c: char, d: char)
    requires NoneIn(s, {c})
    ensures ReplaceChar(s, c, d) == s
  {
  }

  lemma ReplaceConcat(s: string, t: string, c: char, d: char)
    ensures ReplaceChar(s + t, c, d) == ReplaceChar(s, c, d) + ReplaceChar(t, c, d)
  {
  }

  /**
   * A file `<dir>/a/b/c.php` gets the key "a.b.c", which validates back to the
   * segments a, b, c: a configuration directory's layout becomes nesting.
   */
  lemma Middle(a: string, b: string, c: string)
    ensures (a + b + c)[|a|..|a + b + c| - |c|] == b
  {
  }

  lemma FileKeyOfNestedPath(realDirectory: string, segs: seq<string>)
    requires |segs| >= 1 && forall i :: 0 <= i < |segs| ==> segs[i] != [] && NoneIn(segs[i], {'/'})
    ensures FilePathToKey(realDirectory, realDirectory + "/" + Join(segs, '/') + ".php") == Join(segs, '.')
    ensures (forall i :: 0 <= i < |segs| ==> GoodSegment(segs[i])) ==>
      ValidateKey(FilePathToKey(realDirectory, realDirectory + "/" + Join(segs, '/') + ".php")) == Ok(segs)
  {
    var rel := Join(segs, '/');
    var path := realDirectory + "/" + rel + ".php";
    Middle(realDirectory + "/", rel, ".php");
    assert SubstrDropEnd(path, |realDirectory| + 1, 4) == rel;
    JoinFirstLast(segs, '/');
    TrimUntouched(rel, {'/'});
    ReplaceJoin(segs, '/', '.');
    if forall i :: 0 <= i < |segs| ==> GoodSegment(segs[i]) {
      ValidateJoin(segs, '.');
    }
  }
}
