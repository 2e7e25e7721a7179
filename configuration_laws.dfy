/**
 * What the helpers of Configuration guarantee: reading follows the key's
 * segments, writing changes the value at the key's path and nothing on any
 * path that branches off it, a write fails exactly when a segment on the way
 * holds a scalar, and merge, unset and wrap behave as written.
 */
module ConfigurationLaws {
  import opened Results
  import opened PhpArrays
  import opened ConfigurationErrors
  import opened ConfigurationKeys
  import opened ConfigurationValues
  import opened ConfigurationTree

  // ---------------------------------------------------------------------------
  // Reading
  // ---------------------------------------------------------------------------

  lemma {:induction false} ResolveNotFound(segments: seq<string>)
    ensures ResolveFold((false, Null), segments) == (false, Null)
    decreases |segments|
  {
    if segments != [] {
      ResolveNotFound(segments[1..]);
    }
  }

  /** The fold of traverseConfigurationSegment is the path lookup. */
  lemma {:induction false} ResolveIsLookup(v: Value, segments: seq<string>)
    ensures ResolveFold((true, v), segments)
      == if LookupPath(v, segments).Some? then (true, LookupPath(v, segments).value) else (false, Null)
    decreases |segments|
  {
    if segments != [] {
      if v.Arr? && Find(v.entries, StrK(segments[0])).Some? {
        ResolveIsLookup(Find(v.entries, StrK(segments[0])).value, segments[1..]);
      } else {
        ResolveNotFound(segments[1..]);
      }
    }
  }

  /**
   * get returns the value at the key's path, a stored null included, and the
   * default only when the path does not exist; has says whether it exists.
   * Both reject an invalid key.
   */
  lemma GetIsLookup(root: PArray, key: string, default: Value)
    ensures ValidateKey(key).Err? ==>
      GetKey(root, key, default) == Err(ValidateKey(key).error) && HasKey(root, key) == Err(ValidateKey(key).error)
    ensures ValidateKey(key).Ok? ==>
      GetKey(root, key, default) == Ok(LookupPath(Arr(root), ValidateKey(key).value).GetOr(default))
      && HasKey(root, key) == Ok(LookupPath(Arr(root), ValidateKey(key).value).Some?)
  {
    if ValidateKey(key).Ok? {
      ResolveIsLookup(Arr(root), ValidateKey(key).value);
    }
  }

  // ---------------------------------------------------------------------------
  // Paths
  // ---------------------------------------------------------------------------

  /** Two paths that differ at some position both have: neither lies on the other. */
  predicate Diverges(p: seq<string>, q: seq<string>) {
    exists i :: 0 <= i < |p| && i < |q| && p[i] != q[i]
  }

  lemma DivergesTail(p: seq<string>, q: seq<string>)
    requires Diverges(p, q) && p != [] && q != [] && p[0] == q[0]
    ensures Diverges(p[1..], q[1..]) && q[1..] != []
  {
    var i :| 0 <= i < |p| && i < |q| && p[i] != q[i];
    assert p[1..][i - 1] == p[i] && q[1..][i - 1] == q[i];
  }

  lemma AppendTail(segs: seq<string>, last: string)
    requires segs != []
    ensures (segs + [last])[0] == segs[0] && (segs + [last])[1..] == segs[1..] + [last]
  {
  }

  lemma LookupThroughPut(node: PArray, s: string, x: Value, q: seq<string>)
    requires q != []
    ensures LookupPath(Arr(Put(node, StrK(s), x)), q)
      == if q[0] == s then LookupPath(x, q[1..]) else LookupPath(Arr(node), q)
  {
  }

  /** What the walk sees below a segment: the child array it continues with. */
  lemma ChildView(node: PArray, s: string, child: PArray, rest: seq<string>)
    requires rest != []
    requires child == ArrayOrEmpty(node, s)
    ensures LookupPath(Arr(node), [s] + rest) == LookupPath(Arr(child), rest)
  {
    assert ([s] + rest)[1..] == rest;
  }

  /** What the walk sees below a segment, for a path whose first segment is s. */
  lemma ChildStep(node: PArray, s: string, q: seq<string>)
    requires |q| >= 2 && q[0] == s
    ensures LookupPath(Arr(node), q) == LookupPath(Arr(ArrayOrEmpty(node, s)), q[1..])
  {
  }

  lemma ChildArrayView(node: PArray, s: string, fullKey: string, operation: string, rest: seq<string>)
    requires rest != [] && ChildArray(node, s, fullKey, operation).Ok?
    ensures LookupPath(Arr(node), [s] + rest) == LookupPath(Arr(ChildArray(node, s, fullKey, operation).value), rest)
  {
    ChildView(node, s, ChildArray(node, s, fullKey, operation).value, rest);
  }

  /** The same, for a path whose first segment is s. */
  lemma ChildArrayStep(node: PArray, s: string, fk: string, operation: string, q: seq<string>)
    requires |q| >= 2 && q[0] == s && ChildArray(node, s, fk, operation).Ok?
    ensures LookupPath(Arr(node), q) == LookupPath(Arr(ChildArray(node, s, fk, operation).value), q[1..])
  {
  }

  /** A stored array holds stored values. */
  lemma StoredFind(node: PArray, k: Key)
    requires StoredEntries(node) && Find(node, k).Some?
    ensures Stored(Find(node, k).value) && (k.StrK? ==> !Find(node, k).value.Object?)
  {
    var i :| 0 <= i < |node| && node[i] == (k, Find(node, k).value);
  }

  // ---------------------------------------------------------------------------
  // set, append, prepend
  // ---------------------------------------------------------------------------

  /** After a successful walk, the leaf holds the new leaf value computed from the old one. */
  lemma {:induction false} UpdateReachesLeaf(node: PArray, segs: seq<string>, last: string, op: LeafOp, v: Value, fk: string)
    requires UpdateAt(node, segs, last, op, v, fk).Ok?
    ensures LeafResult(LookupPath(Arr(node), segs + [last]).GetOr(Null), op, v).Ok?
    ensures LookupPath(Arr(UpdateAt(node, segs, last, op, v, fk).value), segs + [last])
      == Some(LeafResult(LookupPath(Arr(node), segs + [last]).GetOr(Null), op, v).value)
    decreases |segs|
  {
    if segs == [] {
      assert segs + [last] == [last];
    } else {
      var c := ChildArray(node, segs[0], fk, OpName(op)).value;
      var sub := UpdateAt(c, segs[1..], last, op, v, fk).value;
      UpdateReachesLeaf(c, segs[1..], last, op, v, fk);
      AppendTail(segs, last);
      ChildArrayStep(node, segs[0], fk, OpName(op), segs + [last]);
      LookupThroughPut(node, segs[0], Arr(sub), segs + [last]);
    }
  }

  /** A successful walk leaves every path that branches off the written one as it was. */
  lemma {:induction false} UpdateOthers(node: PArray, segs: seq<string>, last: string, op: LeafOp, v: Value, fk: string,
                                        q: seq<string>)
    requires UpdateAt(node, segs, last, op, v, fk).Ok? && Diverges(segs + [last], q)
    ensures LookupPath(Arr(UpdateAt(node, segs, last, op, v, fk).value), q) == LookupPath(Arr(node), q)
    decreases |segs|
  {
    var p := segs + [last];
    var k :| 0 <= k < |p| && k < |q| && p[k] != q[k];
    if segs == [] {
      var x := LeafResult(Find(node, StrK(last)).GetOr(Null), op, v).value;
      assert q[0] != last;
      LookupThroughPut(node, last, x, q);
    } else {
      var c := ChildArray(node, segs[0], fk, OpName(op)).value;
      var sub := UpdateAt(c, segs[1..], last, op, v, fk).value;
      LookupThroughPut(node, segs[0], Arr(sub), q);
      if q[0] == segs[0] {
        AppendTail(segs, last);
        DivergesTail(p, q);
        UpdateOthers(c, segs[1..], last, op, v, fk, q[1..]);
        ChildArrayStep(node, segs[0], fk, OpName(op), q);
      }
    }
  }

  /** The segment at position j holds a value that is neither null nor an array. */
  predicate BlockedAt(node: PArray, segs: seq<string>, j: int) {
    0 <= j < |segs| &&
    match LookupPath(Arr(node), segs[..j + 1])
    case Some(w) => !w.Null? && !w.Arr?
    case None => false
  }

  /** Some segment on the way holds a value that is neither null nor an array. */
  predicate Blocked(node: PArray, segs: seq<string>) {
    exists j | 0 <= j < |segs| :: BlockedAt(node, segs, j)
  }

  lemma BlockedShift(node: PArray, segs: seq<string>, fk: string, operation: string, j: int)
    requires 1 <= j < |segs| && ChildArray(node, segs[0], fk, operation).Ok?
    ensures LookupPath(Arr(node), segs[..j + 1])
      == LookupPath(Arr(ChildArray(node, segs[0], fk, operation).value), segs[1..][..j])
    ensures BlockedAt(node, segs, j) <==> BlockedAt(ChildArray(node, segs[0], fk, operation).value, segs[1..], j - 1)
  {
    assert segs[..j + 1] == [segs[0]] + segs[1..][..j];
    ChildArrayView(node, segs[0], fk, operation, segs[1..][..j]);
  }

  lemma LeafSucceeds(node: PArray, last: string, op: LeafOp, v: Value)
    requires op == Assign || (StoredEntries(node) && Stored(v))
    ensures LeafResult(Find(node, StrK(last)).GetOr(Null), op, v).Ok?
  {
    if op != Assign {
      var existing := Find(node, StrK(last)).GetOr(Null);
      if Find(node, StrK(last)).Some? {
        StoredFind(node, StrK(last));
      }
      WrapStored(existing);
      WrapStored(v);
    }
  }

  /**
   * set, append and prepend fail exactly when a segment on the way holds a
   * value that is neither null nor an array, and the error names that segment
   * and the type of its value. (append and prepend also wrap the old and new
   * values, which cannot fail on stored values.)
   */
  lemma {:induction false} UpdateFailsIff(node: PArray, segs: seq<string>, last: string, op: LeafOp, v: Value, fk: string)
    requires op == Assign || (StoredEntries(node) && Stored(v))
    ensures UpdateAt(node, segs, last, op, v, fk).Err? <==> exists j :: BlockedAt(node, segs, j)
    ensures UpdateAt(node, segs, last, op, v, fk).Err? ==> exists j :: (BlockedAt(node, segs, j)
      && UpdateAt(node, segs, last, op, v, fk).error
         == InvalidKey(OpName(op), fk, segs[j], TypeName(LookupPath(Arr(node), segs[..j + 1]).value)))
    decreases |segs|
  {
    var r := UpdateAt(node, segs, last, op, v, fk);
    if segs == [] {
      LeafSucceeds(node, last, op, v);
    } else {
      var s := segs[0];
      assert segs[..1] == [s];
      assert LookupPath(Arr(node), segs[..1]) == Find(node, StrK(s));
      var ch := ChildArray(node, s, fk, OpName(op));
      if ch.Err? {
        assert BlockedAt(node, segs, 0);
      } else {
        var c := ch.value;
        assert !BlockedAt(node, segs, 0);
        if StoredEntries(node) && Find(node, StrK(s)).Some? {
          StoredFind(node, StrK(s));
        }
        UpdateFailsIff(c, segs[1..], last, op, v, fk);
        forall j | 1 <= j < |segs|
          ensures BlockedAt(node, segs, j) <==> BlockedAt(c, segs[1..], j - 1)
          ensures LookupPath(Arr(node), segs[..j + 1]) == LookupPath(Arr(c), segs[1..][..j])
        {
          BlockedShift(node, segs, fk, OpName(op), j);
        }
        if exists j :: BlockedAt(node, segs, j) {
          var j :| BlockedAt(node, segs, j);
          assert BlockedAt(c, segs[1..], j - 1);
        }
        if r.Err? {
          var j :| BlockedAt(c, segs[1..], j) && UpdateAt(c, segs[1..], last, op, v, fk).error
            == InvalidKey(OpName(op), fk, segs[1..][j], TypeName(LookupPath(Arr(c), segs[1..][..j + 1]).value));
          assert BlockedAt(node, segs, j + 1);
        }
      }
    }
  }

  /** The walk for a whole key: the key's segments split into the way and the leaf. */
  lemma SplitAtLeaf(key: string, path: seq<string>)
    requires ValidateKey(key) == Ok(path)
    ensures SplitKey(key) == Ok((path[..|path| - 1], path[|path| - 1]))
    ensures path == path[..|path| - 1] + [path[|path| - 1]]
  {
    var (segs, last) := SplitKey(key).value;
    assert segs + [last] == path;
    assert segs == path[..|path| - 1];
  }

  /** After set, has is true and get returns the normalised value; every path branching off the key is untouched. */
  lemma SetThenGet(root: PArray, key: string, value: Value, default: Value, q: seq<string>)
    requires UpdateKey(root, key, Assign, value).Ok?
    ensures ValidateKey(key).Ok? && Normalize(key, value).Ok?
    ensures GetKey(UpdateKey(root, key, Assign, value).value, key, default) == Ok(Normalize(key, value).value)
    ensures HasKey(UpdateKey(root, key, Assign, value).value, key) == Ok(true)
    ensures Diverges(ValidateKey(key).value, q) ==>
      LookupPath(Arr(UpdateKey(root, key, Assign, value).value), q) == LookupPath(Arr(root), q)
  {
    var path := ValidateKey(key).value;
    SplitAtLeaf(key, path);
    var n := Normalize(key, value).value;
    var r := UpdateKey(root, key, Assign, value).value;
    UpdateReachesLeaf(root, path[..|path| - 1], path[|path| - 1], Assign, n, key);
    GetIsLookup(r, key, default);
    if Diverges(path, q) {
      UpdateOthers(root, path[..|path| - 1], path[|path| - 1], Assign, n, key, q);
    }
  }

  /** set fails on a valid key and value exactly when some segment on the way holds a scalar. */
  lemma SetFailsIff(root: PArray, key: string, value: Value)
    requires ValidateKey(key).Ok? && Normalize(key, value).Ok?
    ensures UpdateKey(root, key, Assign, value).Err? <==>
      Blocked(root, ValidateKey(key).value[..|ValidateKey(key).value| - 1])
  {
    var path := ValidateKey(key).value;
    SplitAtLeaf(key, path);
    UpdateFailsIff(root, path[..|path| - 1], path[|path| - 1], Assign, Normalize(key, value).value, key);
  }

  lemma StoredLookup(v: Value, path: seq<string>)
    requires Stored(v) && LookupPath(v, path).Some?
    ensures Stored(LookupPath(v, path).value)
    decreases |path|
  {
    if path != [] {
      StoredFind(v.entries, StrK(path[0]));
      StoredLookup(Find(v.entries, StrK(path[0])).value, path[1..]);
    }
  }

  lemma StoredCast(v: Value)
    requires Stored(v)
    ensures StoredEntries(Cast(v))
  {
  }

  /**
   * append and prepend on a stored configuration: the value at the key becomes
   * array_merge of the (array)-casts of the old and the new value, in that order
   * for append and the other way round for prepend.
   */
  lemma AppendPrependLeaf(root: PArray, key: string, op: LeafOp, value: Value)
    requires op != Assign && StoredEntries(root) && TreesStored(value)
    requires ValidateKey(key).Ok? && Normalize(key, value).Ok?
    requires UpdateKey(root, key, op, value).Ok?
    ensures var path := ValidateKey(key).value;
      var old_ := Cast(LookupPath(Arr(root), path).GetOr(Null));
      var new_ := Cast(Normalize(key, value).value);
      LookupPath(Arr(UpdateKey(root, key, op, value).value), path)
        == Some(Arr(if op == AppendTo then ArrayMerge(old_, new_) else ArrayMerge(new_, old_)))
  {
    var path := ValidateKey(key).value;
    SplitAtLeaf(key, path);
    var n := Normalize(key, value).value;
    NormalizeYieldsStored(key, value);
    UpdateReachesLeaf(root, path[..|path| - 1], path[|path| - 1], op, n, key);
    var existing := LookupPath(Arr(root), path).GetOr(Null);
    if LookupPath(Arr(root), path).Some? {
      StoredLookup(Arr(root), path);
    }
    WrapStored(existing);
    WrapStored(n);
  }

  /** Appending a scalar to a list pushes it at the end with the next index. */
  lemma AppendScalarToList(root: PArray, key: string, list: PArray, value: Value)
    requires StoredEntries(root) && IsScalar(value) && IsList(list)
    requires ValidateKey(key).Ok? && LookupPath(Arr(root), ValidateKey(key).value) == Some(Arr(list))
    requires UpdateKey(root, key, AppendTo, value).Ok?
    ensures LookupPath(Arr(UpdateKey(root, key, AppendTo, value).value), ValidateKey(key).value)
      == Some(Arr(list + [(IntK(|list|), value)]))
  {
    AppendPrependLeaf(root, key, AppendTo, value);
    ArrayMergeOfLists(list, [(IntK(0), value)]);
    assert Numbered(IntValues([(IntK(0), value)]), |list|) == [(IntK(|list|), value)];
  }

  /**
   * Appending null to a list (or to a missing key, read as the empty list)
   * leaves that list: null casts to no entries, so append(k, null) repeated
   * on a fresh key keeps yielding [].
   */
  lemma AppendNullKeepsList(root: PArray, key: string, list: PArray)
    requires StoredEntries(root) && IsList(list) && ValidateKey(key).Ok?
    requires LookupPath(Arr(root), ValidateKey(key).value) == Some(Arr(list))
      || (LookupPath(Arr(root), ValidateKey(key).value) == None && list == [])
    requires UpdateKey(root, key, AppendTo, Null).Ok?
    ensures LookupPath(Arr(UpdateKey(root, key, AppendTo, Null).value), ValidateKey(key).value)
      == Some(Arr(list))
  {
    var path := ValidateKey(key).value;
    assert Normalize(key, Null) == Ok(Null);
    AppendPrependLeaf(root, key, AppendTo, Null);
    assert Cast(LookupPath(Arr(root), path).GetOr(Null)) == list;
    ArrayMergeEmptyList(list);
  }

  /** Prepending a scalar to a list puts it first and renumbers the rest from 1. */
  lemma PrependScalarToList(root: PArray, key: string, list: PArray, value: Value)
    requires StoredEntries(root) && IsScalar(value) && IsList(list)
    requires ValidateKey(key).Ok? && LookupPath(Arr(root), ValidateKey(key).value) == Some(Arr(list))
    requires UpdateKey(root, key, PrependTo, value).Ok?
    ensures LookupPath(Arr(UpdateKey(root, key, PrependTo, value).value), ValidateKey(key).value)
      == Some(Arr([(IntK(0), value)] + Numbered(IntValues(list), 1)))
  {
    AppendPrependLeaf(root, key, PrependTo, value);
    ArrayMergeOfLists([(IntK(0), value)], list);
  }

  // ---------------------------------------------------------------------------
  // merge
  // ---------------------------------------------------------------------------

  /** After mergeNestedValue the leaf holds mergeTwoValues(old value or null, value). */
  lemma {:induction false} MergeReachesLeaf(node: PArray, segs: seq<string>, last: string, v: Value)
    ensures LookupPath(Arr(MergeNested(node, segs, last, v)), segs + [last])
      == Some(MergeTwoValues(LookupPath(Arr(node), segs + [last]).GetOr(Null), v))
    decreases |segs|
  {
    if segs == [] {
      assert segs + [last] == [last];
      LookupThroughPut(node, last, MergeTwoValues(Find(node, StrK(last)).GetOr(Null), v), [last]);
    } else {
      var child := ArrayOrEmpty(node, segs[0]);
      var sub := MergeNested(child, segs[1..], last, v);
      var p := segs + [last];
      assert MergeNested(node, segs, last, v) == Put(node, StrK(segs[0]), Arr(sub));
      AppendTail(segs, last);
      MergeReachesLeaf(child, segs[1..], last, v);
      ChildStep(node, segs[0], p);
      LookupThroughPut(node, segs[0], Arr(sub), p);
    }
  }

  /** mergeNestedValue leaves every path that branches off the merged one as it was. */
  lemma {:induction false} MergeOthers(node: PArray, segs: seq<string>, last: string, v: Value, q: seq<string>)
    requires Diverges(segs + [last], q)
    ensures LookupPath(Arr(MergeNested(node, segs, last, v)), q) == LookupPath(Arr(node), q)
    decreases |segs|
  {
    var p := segs + [last];
    var k :| 0 <= k < |p| && k < |q| && p[k] != q[k];
    if segs == [] {
      assert q[0] != last;
      LookupThroughPut(node, last, MergeTwoValues(Find(node, StrK(last)).GetOr(Null), v), q);
    } else {
      var child := ArrayOrEmpty(node, segs[0]);
      var sub := MergeNested(child, segs[1..], last, v);
      assert MergeNested(node, segs, last, v) == Put(node, StrK(segs[0]), Arr(sub));
      LookupThroughPut(node, segs[0], Arr(sub), q);
      if q[0] == segs[0] {
        AppendTail(segs, last);
        DivergesTail(p, q);
        MergeOthers(child, segs[1..], last, v, q[1..]);
        ChildStep(node, segs[0], q);
      }
    }
  }

  /**
   * Merging one pair: an integer key is refused, a valid string key gets
   * mergeTwoValues(old value or null, normalised value) at its path, and every
   * path branching off it is untouched.
   */
  lemma MergePairEffect(root: PArray, key: Key, value: Value, q: seq<string>)
    ensures key.IntK? ==> MergePair(root, key, value) == Err(KeyMustBeString)
    ensures key.StrK? && ValidateKey(key.s).Ok? && Normalize(key.s, value).Ok? ==>
      MergePair(root, key, value).Ok? &&
      LookupPath(Arr(MergePair(root, key, value).value), ValidateKey(key.s).value)
        == Some(MergeTwoValues(LookupPath(Arr(root), ValidateKey(key.s).value).GetOr(Null), Normalize(key.s, value).value))
      && (Diverges(ValidateKey(key.s).value, q) ==>
          LookupPath(Arr(MergePair(root, key, value).value), q) == LookupPath(Arr(root), q))
    ensures key.StrK? && ValidateKey(key.s).Err? ==> MergePair(root, key, value) == Err(ValidateKey(key.s).error)
  {
    if key.StrK? && ValidateKey(key.s).Ok? && Normalize(key.s, value).Ok? {
      var path := ValidateKey(key.s).value;
      SplitAtLeaf(key.s, path);
      var n := Normalize(key.s, value).value;
      MergeReachesLeaf(root, path[..|path| - 1], path[|path| - 1], n);
      if Diverges(path, q) {
        MergeOthers(root, path[..|path| - 1], path[|path| - 1], n, q);
      }
    }
  }

  /** merge is a left fold: merging p1 + p2 is merging p1, then p2 unless p1 stopped. */
  lemma {:induction false} MergeAllConcat(root: PArray, p1: PArray, p2: PArray)
    ensures MergeAll(root, p1 + p2)
      == match MergeAll(root, p1) case Done(r) => MergeAll(r, p2) case Stopped(r, e) => Stopped(r, e)
    decreases |p1|
  {
    if p1 == [] {
      assert p1 + p2 == p2;
    } else {
      assert (p1 + p2)[0] == p1[0] && (p1 + p2)[1..] == p1[1..] + p2;
      if MergePair(root, p1[0].0, p1[0].1).Ok? {
        MergeAllConcat(MergePair(root, p1[0].0, p1[0].1).value, p1[1..], p2);
      }
    }
  }

  /** merge is not atomic: the pairs before the first failing one stay merged. */
  lemma MergeStopsAtFailure(root: PArray, p1: PArray, bad: (Key, Value), p2: PArray)
    requires MergeAll(root, p1).Done? && MergePair(MergeAll(root, p1).root, bad.0, bad.1).Err?
    ensures MergeAll(root, p1 + [bad] + p2)
      == Stopped(MergeAll(root, p1).root, MergePair(MergeAll(root, p1).root, bad.0, bad.1).error)
  {
    assert p1 + [bad] + p2 == p1 + ([bad] + p2);
    MergeAllConcat(root, p1, [bad] + p2);
  }

  /**
   * Merging single-segment string keys that are new into an array appends them:
   * merging a stored bundle with fresh, plain keys stores it as it is.
   */
  lemma {:induction false} MergeFreshKeys(acc: PArray, e: PArray)
    requires UniqueKeys(acc + e)
    requires forall i :: 0 <= i < |e| ==>
      e[i].0.StrK? && GoodSegment(e[i].0.s) && Stored(e[i].1) && !e[i].1.Object?
    ensures MergeAll(acc, e) == Done(acc + e)
    decreases |e|
  {
    if e == [] {
      assert acc + e == acc;
    } else {
      assert Find(acc, e[0].0).None? by {
        forall i | 0 <= i < |acc| ensures acc[i].0 != e[0].0 {
          assert (acc + e)[i] == acc[i] && (acc + e)[|acc|] == e[0];
        }
      }
      MergeFreshKey(acc, e[0]);
      assert (acc + [e[0]]) + e[1..] == acc + e;
      MergeFreshKeys(acc + [e[0]], e[1..]);
    }
  }

  /** One step of MergeFreshKeys: a fresh, plain key is appended with its value. */
  lemma MergeFreshKey(acc: PArray, p: (Key, Value))
    requires p.0.StrK? && GoodSegment(p.0.s) && Stored(p.1) && !p.1.Object?
    requires Find(acc, p.0).None?
    ensures MergePair(acc, p.0, p.1) == Ok(acc + [p])
  {
    ValidateJoin([p.0.s], '.');
    SplitAtLeaf(p.0.s, [p.0.s]);
    NormalizeStored(p.0.s, p.1);
  }

  // ---------------------------------------------------------------------------
  // unset
  // ---------------------------------------------------------------------------

  lemma LookupThroughRemove(node: PArray, s: string, q: seq<string>)
    requires q != [] && q[0] != s
    ensures LookupPath(Arr(Remove(node, StrK(s))), q) == LookupPath(Arr(node), q)
  {
  }

  /** After unsetNestedValue nothing is found at the path. */
  lemma {:induction false} UnsetRemoves(node: PArray, segs: seq<string>)
    requires |segs| >= 1
    ensures LookupPath(Arr(UnsetNested(node, segs)), segs) == None
    decreases |segs|
  {
    if |segs| > 1 {
      match Find(node, StrK(segs[0]))
      case Some(Arr(e)) =>
        UnsetRemoves(e, segs[1..]);
        LookupThroughPut(node, segs[0], Arr(UnsetNested(e, segs[1..])), segs);
      case _ =>
    }
  }

  /** unsetNestedValue leaves every path that branches off the removed one as it was. */
  lemma {:induction false} UnsetOthers(node: PArray, segs: seq<string>, q: seq<string>)
    requires |segs| >= 1 && Diverges(segs, q)
    ensures LookupPath(Arr(UnsetNested(node, segs)), q) == LookupPath(Arr(node), q)
    decreases |segs|
  {
    if |segs| == 1 {
      assert q[0] != segs[0];
      LookupThroughRemove(node, segs[0], q);
    } else {
      match Find(node, StrK(segs[0]))
      case Some(Arr(e)) =>
        LookupThroughPut(node, segs[0], Arr(UnsetNested(e, segs[1..])), q);
        if q[0] == segs[0] {
          DivergesTail(segs, q);
          UnsetOthers(e, segs[1..], q[1..]);
        }
      case _ =>
    }
  }

  /** unsetNestedValue of a path that does not exist leaves the array as it was. */
  lemma {:induction false} UnsetAbsentNoop(node: PArray, segs: seq<string>)
    requires |segs| >= 1 && LookupPath(Arr(node), segs).None?
    ensures UnsetNested(node, segs) == node
    decreases |segs|
  {
    if |segs| > 1 {
      match Find(node, StrK(segs[0]))
      case Some(Arr(e)) =>
        UnsetAbsentNoop(e, segs[1..]);
        PutFound(node, StrK(segs[0]), Arr(e));
      case _ =>
    }
  }

  /** unsetNestedValue removes only the last segment: an array on the way stays an array. */
  lemma {:induction false} UnsetKeepsParent(node: PArray, segs: seq<string>, j: int)
    requires 0 <= j < |segs|
    requires LookupPath(Arr(node), segs[..j]).Some? && LookupPath(Arr(node), segs[..j]).value.Arr?
    ensures LookupPath(Arr(UnsetNested(node, segs)), segs[..j]).Some?
    ensures LookupPath(Arr(UnsetNested(node, segs)), segs[..j]).value.Arr?
    decreases |segs|
  {
    if j > 0 {
      assert segs[..j][0] == segs[0] && segs[..j][1..] == segs[1..][..j - 1];
      match Find(node, StrK(segs[0]))
      case Some(Arr(e)) =>
        UnsetKeepsParent(e, segs[1..], j - 1);
        LookupThroughPut(node, segs[0], Arr(UnsetNested(e, segs[1..])), segs[..j]);
    }
  }

  /**
   * unset: an exact top-level key is removed; otherwise a valid key's path is
   * cleared and every path branching off it is untouched; an invalid key that is
   * not a top-level key is refused.
   */
  lemma UnsetEffect(root: PArray, key: string, q: seq<string>, j: int)
    ensures KeyExists(root, StrK(key)) ==>
      UnsetKey(root, key) == Ok(Remove(root, StrK(key))) && !KeyExists(UnsetKey(root, key).value, StrK(key))
    ensures !KeyExists(root, StrK(key)) && ValidateKey(key).Err? ==> UnsetKey(root, key) == Err(ValidateKey(key).error)
    ensures !KeyExists(root, StrK(key)) && ValidateKey(key).Ok? ==>
      UnsetKey(root, key).Ok?
      && LookupPath(Arr(UnsetKey(root, key).value), ValidateKey(key).value) == None
      && (Diverges(ValidateKey(key).value, q) ==>
          LookupPath(Arr(UnsetKey(root, key).value), q) == LookupPath(Arr(root), q))
    ensures (!KeyExists(root, StrK(key)) && ValidateKey(key).Ok?
      && LookupPath(Arr(root), ValidateKey(key).value).None?) ==> UnsetKey(root, key) == Ok(root)
    ensures (!KeyExists(root, StrK(key)) && ValidateKey(key).Ok? && 0 <= j < |ValidateKey(key).value|
      && LookupPath(Arr(root), ValidateKey(key).value[..j]).Some?
      && LookupPath(Arr(root), ValidateKey(key).value[..j]).value.Arr?) ==>
        LookupPath(Arr(UnsetKey(root, key).value), ValidateKey(key).value[..j]).Some?
        && LookupPath(Arr(UnsetKey(root, key).value), ValidateKey(key).value[..j]).value.Arr?
  {
    if !KeyExists(root, StrK(key)) && ValidateKey(key).Ok? {
      var path := ValidateKey(key).value;
      UnsetRemoves(root, path);
      if Diverges(path, q) {
        UnsetOthers(root, path, q);
      }
      if LookupPath(Arr(root), path).None? {
        UnsetAbsentNoop(root, path);
      }
      if 0 <= j < |path| && LookupPath(Arr(root), path[..j]).Some? && LookupPath(Arr(root), path[..j]).value.Arr? {
        UnsetKeepsParent(root, path, j);
      }
    }
  }

  // ---------------------------------------------------------------------------
  // wrap
  // ---------------------------------------------------------------------------

  /**
   * wrap of an array whose keys are distinct plain segments and whose values are
   * stored gives a configuration holding exactly that array.
   */
  lemma WrapRoundTrip(root: PArray, key: string, default: PArray, e: PArray)
    requires ValidateKey(key).Ok? && LookupPath(Arr(root), ValidateKey(key).value) == Some(Arr(e))
    requires UniqueKeys(e)
    requires forall i :: 0 <= i < |e| ==> e[i].0.StrK? && GoodSegment(e[i].0.s) && Stored(e[i].1) && !e[i].1.Object?
    ensures WrapKey(root, key, default) == Ok(e)
  {
    GetIsLookup(root, key, Arr(default));
    assert [] + e == e;
    MergeFreshKeys([], e);
  }

  /** wrap of a missing key builds the configuration from the default. */
  lemma WrapMissing(root: PArray, key: string, default: PArray)
    requires ValidateKey(key).Ok? && LookupPath(Arr(root), ValidateKey(key).value).None?
    ensures WrapKey(root, key, default)
      == match MergeAll([], default) case Done(r) => Ok(r) case Stopped(_, x) => Err(x)
  {
    GetIsLookup(root, key, Arr(default));
  }

  /** wrap of a non-array value is refused with the value's type. */
  lemma WrapNonArray(root: PArray, key: string, default: PArray)
    requires ValidateKey(key).Ok? && LookupPath(Arr(root), ValidateKey(key).value).Some?
    requires !LookupPath(Arr(root), ValidateKey(key).value).value.Arr?
    ensures WrapKey(root, key, default)
      == Err(CannotWrap(key, TypeName(LookupPath(Arr(root), ValidateKey(key).value).value)))
  {
    GetIsLookup(root, key, Arr(default));
  }

  /**
   * wrap of a list (such as one append built) is refused: its first key is an
   * integer, which merge does not accept.
   */
  lemma WrapOfListFails(root: PArray, key: string, default: PArray, e: PArray)
    requires ValidateKey(key).Ok? && LookupPath(Arr(root), ValidateKey(key).value) == Some(Arr(e))
    requires e != [] && e[0].0.IntK?
    ensures WrapKey(root, key, default) == Err(KeyMustBeString)
  {
    GetIsLookup(root, key, Arr(default));
  }

  // ---------------------------------------------------------------------------
  // Stored values stay stored
  // ---------------------------------------------------------------------------

  /** The entries of a stored configuration: stored values under distinct keys. */
  ghost predicate WellFormed(root: PArray) {
    StoredEntries(root) && UniqueKeys(root)
  }

  lemma StoredPut(node: PArray, s: string, x: Value)
    requires StoredEntries(node) && Stored(x) && !x.Object?
    ensures StoredEntries(Put(node, StrK(s), x))
  {
    var r := Put(node, StrK(s), x);
    forall i | 0 <= i < |r| ensures Stored(r[i].1) && (r[i].0.StrK? ==> !r[i].1.Object?) {
      PutEntry(node, StrK(s), x, i);
    }
  }

  lemma {:induction false} RemoveKeepsUniqueKeys(a: PArray, k: Key)
    requires UniqueKeys(a)
    ensures UniqueKeys(Remove(a, k))
  {
    if a != [] {
      RemoveKeepsUniqueKeys(a[1..], k);
      var t := Remove(a[1..], k);
      if a[0].0 != k {
        forall j | 0 <= j < |t| ensures t[j].0 != a[0].0 {
          assert t[j] in a[1..];
        }
      }
    }
  }

  lemma WellFormedPut(node: PArray, s: string, x: Value)
    requires WellFormed(node) && Stored(x) && !x.Object?
    ensures WellFormed(Put(node, StrK(s), x))
  {
    StoredPut(node, s, x);
    PutKeepsUniqueKeys(node, StrK(s), x);
  }

  /** set, append and prepend keep a stored configuration stored, given a stored value. */
  lemma UpdateKeepsWellFormed(node: PArray, segs: seq<string>, last: string, op: LeafOp, v: Value, fk: string)
    requires WellFormed(node) && Stored(v) && !v.Object? && UpdateAt(node, segs, last, op, v, fk).Ok?
    ensures WellFormed(UpdateAt(node, segs, last, op, v, fk).value)
  {
    StoredUpdateAt(node, segs, last, op, v, fk);
    if segs == [] {
      PutKeepsUniqueKeys(node, StrK(last), LeafResult(Find(node, StrK(last)).GetOr(Null), op, v).value);
    } else {
      var c := ChildArray(node, segs[0], fk, OpName(op)).value;
      PutKeepsUniqueKeys(node, StrK(segs[0]), Arr(UpdateAt(c, segs[1..], last, op, v, fk).value));
    }
  }

  /** The nested arrays a walk rewrites stay stored (their keys are PHP's to keep distinct). */
  lemma {:induction false} StoredUpdateAt(node: PArray, segs: seq<string>, last: string, op: LeafOp, v: Value, fk: string)
    requires StoredEntries(node) && Stored(v) && !v.Object? && UpdateAt(node, segs, last, op, v, fk).Ok?
    ensures StoredEntries(UpdateAt(node, segs, last, op, v, fk).value)
    decreases |segs|
  {
    if segs == [] {
      var existing := Find(node, StrK(last)).GetOr(Null);
      if Find(node, StrK(last)).Some? {
        StoredFind(node, StrK(last));
      }
      if op != Assign {
        WrapStored(existing);
        WrapStored(v);
        ArrayMergeStored(Cast(existing), Cast(v));
        ArrayMergeStored(Cast(v), Cast(existing));
      }
      StoredPut(node, last, LeafResult(existing, op, v).value);
    } else {
      var c := ChildArray(node, segs[0], fk, OpName(op)).value;
      if Find(node, StrK(segs[0])).Some? {
        StoredFind(node, StrK(segs[0]));
      }
      StoredUpdateAt(c, segs[1..], last, op, v, fk);
      StoredPut(node, segs[0], Arr(UpdateAt(c, segs[1..], last, op, v, fk).value));
    }
  }

  /** The nested arrays a merge rewrites stay stored. */
  lemma {:induction false} StoredMergeNested(node: PArray, segs: seq<string>, last: string, v: Value)
    requires StoredEntries(node) && Stored(v) && !v.Object?
    ensures StoredEntries(MergeNested(node, segs, last, v))
    decreases |segs|
  {
    if segs == [] {
      var existing := Find(node, StrK(last)).GetOr(Null);
      if Find(node, StrK(last)).Some? {
        StoredFind(node, StrK(last));
      }
      MergeTwoValuesStored(existing, v);
      StoredPut(node, last, MergeTwoValues(existing, v));
    } else {
      var child := ArrayOrEmpty(node, segs[0]);
      if Find(node, StrK(segs[0])).Some? {
        StoredFind(node, StrK(segs[0]));
      }
      StoredMergeNested(child, segs[1..], last, v);
      StoredPut(node, segs[0], Arr(MergeNested(child, segs[1..], last, v)));
    }
  }

  /** The nested arrays an unset rewrites stay stored. */
  lemma {:induction false} StoredUnsetNested(node: PArray, segs: seq<string>)
    requires StoredEntries(node) && |segs| >= 1
    ensures StoredEntries(UnsetNested(node, segs))
    decreases |segs|
  {
    if |segs| == 1 {
      var r := Remove(node, StrK(segs[0]));
      forall i | 0 <= i < |r| ensures Stored(r[i].1) && (r[i].0.StrK? ==> !r[i].1.Object?) {
        assert r[i] in node;
      }
    } else {
      match Find(node, StrK(segs[0]))
      case Some(Arr(e)) =>
        StoredFind(node, StrK(segs[0]));
        StoredUnsetNested(e, segs[1..]);
        StoredPut(node, segs[0], Arr(UnsetNested(e, segs[1..])));
      case _ =>
    }
  }

  /** set, append and prepend of a value whose embedded configurations are stored keep the configuration stored. */
  lemma UpdateKeyKeepsWellFormed(root: PArray, key: string, op: LeafOp, value: Value)
    requires WellFormed(root) && TreesStored(value) && UpdateKey(root, key, op, value).Ok?
    ensures WellFormed(UpdateKey(root, key, op, value).value)
  {
    var (segs, last) := SplitKey(key).value;
    NormalizeYieldsStored(key, value);
    UpdateKeepsWellFormed(root, segs, last, op, Normalize(key, value).value, key);
  }

  /** One merged pair keeps the configuration stored. */
  lemma MergePairKeepsWellFormed(root: PArray, key: Key, value: Value)
    requires WellFormed(root) && TreesStored(value) && MergePair(root, key, value).Ok?
    ensures WellFormed(MergePair(root, key, value).value)
  {
    var (segs, last) := SplitKey(key.s).value;
    NormalizeYieldsStored(key.s, value);
    var n := Normalize(key.s, value).value;
    StoredMergeNested(root, segs, last, n);
    if segs == [] {
      PutKeepsUniqueKeys(root, StrK(last), MergeTwoValues(Find(root, StrK(last)).GetOr(Null), n));
    } else {
      var child := ArrayOrEmpty(root, segs[0]);
      PutKeepsUniqueKeys(root, StrK(segs[0]), Arr(MergeNested(child, segs[1..], last, n)));
    }
  }

  /** Every value of the pairs holds only stored embedded configurations. */
  ghost predicate PairsStored(pairs: PArray) {
    forall i :: 0 <= i < |pairs| ==> TreesStored(pairs[i].1)
  }

  /** merge keeps the configuration stored, also when it stops part-way. */
  lemma {:induction false} MergeAllKeepsWellFormed(root: PArray, pairs: PArray)
    requires WellFormed(root) && PairsStored(pairs)
    ensures WellFormed(MergeAll(root, pairs).root)
    decreases |pairs|
  {
    if pairs != [] {
      var r := MergePair(root, pairs[0].0, pairs[0].1);
      if r.Ok? {
        MergePairKeepsWellFormed(root, pairs[0].0, pairs[0].1);
        assert PairsStored(pairs[1..]) by {
          forall i | 0 <= i < |pairs[1..]| ensures TreesStored(pairs[1..][i].1) {
            assert pairs[1..][i] == pairs[i + 1];
          }
        }
        MergeAllKeepsWellFormed(r.value, pairs[1..]);
      }
    }
  }

  /** unset keeps the configuration stored. */
  lemma UnsetKeyKeepsWellFormed(root: PArray, key: string)
    requires WellFormed(root) && UnsetKey(root, key).Ok?
    ensures WellFormed(UnsetKey(root, key).value)
  {
    if KeyExists(root, StrK(key)) {
      StoredUnsetNested(root, [key]);
      RemoveKeepsUniqueKeys(root, StrK(key));
    } else {
      var segs := ValidateKey(key).value;
      StoredUnsetNested(root, segs);
      if |segs| == 1 {
        RemoveKeepsUniqueKeys(root, StrK(segs[0]));
      } else if Find(root, StrK(segs[0])).Some? && Find(root, StrK(segs[0])).value.Arr? {
        PutKeepsUniqueKeys(root, StrK(segs[0]), Arr(UnsetNested(Find(root, StrK(segs[0])).value.entries, segs[1..])));
      }
    }
  }
}
