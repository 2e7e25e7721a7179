/**
 * What Config's operations do to the array, stated through LookupPath: the
 * value reached by following string indexes through nested arrays.
 */
module ConfigLaws {
  import opened Results
  import opened PhpArrays
  import opened Config
  import T = ConfigurationTree
  import L = ConfigurationLaws

  // ---------------------------------------------------------------------------
  // Walking
  // ---------------------------------------------------------------------------

  /** Following the first j indexes reaches something that is not an array. */
  predicate NonArrayAt(cur: Value, path: seq<string>, j: int)
    requires 0 <= j <= |path|
  {
    T.LookupPath(cur, path[..j]).Some? && !T.LookupPath(cur, path[..j]).value.Arr?
  }

  /** Following path reaches an array. */
  predicate ArrayAt(cur: Value, path: seq<string>) {
    T.LookupPath(cur, path).Some? && T.LookupPath(cur, path).value.Arr?
  }

  /** Some index of path is looked up in a value that is not an array. */
  predicate ReachesNonArray(cur: Value, path: seq<string>) {
    exists j | 0 <= j < |path| :: NonArrayAt(cur, path, j)
  }

  /** Following the first j indexes reaches a value `??= []` keeps: neither null nor an array. */
  predicate BlocksAt(cur: Value, path: seq<string>, j: int)
    requires 0 <= j <= |path|
  {
    T.LookupPath(cur, path[..j]).Some?
      && !T.LookupPath(cur, path[..j]).value.Null? && !T.LookupPath(cur, path[..j]).value.Arr?
  }

  lemma PrefixStep(cur: Value, c: Value, path: seq<string>, j: int)
    requires cur.Arr? && path != [] && Find(cur.entries, StrK(path[0])) == Some(c) && 0 <= j < |path|
    ensures T.LookupPath(cur, path[..j + 1]) == T.LookupPath(c, path[1..][..j])
  {
    assert path[..j + 1][0] == path[0];
    assert path[..j + 1][1..] == path[1..][..j];
  }

  lemma PrefixMissing(cur: Value, path: seq<string>, j: int)
    requires cur.Arr? && path != [] && Find(cur.entries, StrK(path[0])).None? && 1 <= j <= |path|
    ensures T.LookupPath(cur, path[..j]) == None
  {
    assert path[..j][0] == path[0];
  }

  /**
   * get and has on a dotted key: they fail exactly when some index is looked up
   * in a non-array, and otherwise give the value found (or the default) and
   * whether one was found.
   */
  lemma {:induction false} WalkIsLookup(cur: Value, path: seq<string>, default: Value)
    ensures PathGet(cur, path, default).Ok? <==> !ReachesNonArray(cur, path)
    ensures PathHas(cur, path).Ok? <==> !ReachesNonArray(cur, path)
    ensures !ReachesNonArray(cur, path) ==>
      PathGet(cur, path, default).value == T.LookupPath(cur, path).GetOr(default)
      && PathHas(cur, path).value == T.LookupPath(cur, path).Some?
    decreases |path|
  {
    if path == [] {
    } else if !cur.Arr? {
      assert path[..0] == [];
      assert NonArrayAt(cur, path, 0);
    } else {
      assert path[..0] == [];
      assert !NonArrayAt(cur, path, 0);
      match Find(cur.entries, StrK(path[0]))
      case None =>
        forall j | 1 <= j < |path| ensures !NonArrayAt(cur, path, j) {
          PrefixMissing(cur, path, j);
        }
      case Some(c) =>
        WalkIsLookup(c, path[1..], default);
        if ReachesNonArray(cur, path) {
          var j :| 0 <= j < |path| && NonArrayAt(cur, path, j);
          PrefixStep(cur, c, path, j - 1);
          assert NonArrayAt(c, path[1..], j - 1);
        }
        if ReachesNonArray(c, path[1..]) {
          var j :| 0 <= j < |path[1..]| && NonArrayAt(c, path[1..], j);
          PrefixStep(cur, c, path, j);
          assert NonArrayAt(cur, path, j + 1);
        }
    }
  }

  /** A value that lookup finds is what get returns on the walk, and has is true. */
  lemma {:induction false} FoundByWalk(cur: Value, path: seq<string>, x: Value, default: Value)
    requires T.LookupPath(cur, path) == Some(x)
    ensures PathGet(cur, path, default) == Ok(x) && PathHas(cur, path) == Ok(true)
    decreases |path|
  {
    if path != [] {
      FoundByWalk(Find(cur.entries, StrK(path[0])).value, path[1..], x, default);
    }
  }

  lemma {:induction false} EmptyWalkSucceeds(path: seq<string>, act: LeafAction)
    requires |path| >= 1
    ensures PathUpdate(Arr([]), path, act).Ok?
    decreases |path|
  {
    if |path| > 1 {
      EmptyWalkSucceeds(path[1..], act);
    }
  }

  /**
   * The set and remove walk fails exactly when some intermediate index reaches a
   * value that is neither null nor an array; missing and null ones become [].
   */
  lemma {:induction false} UpdateFailsIff(node: PArray, path: seq<string>, act: LeafAction)
    requires |path| >= 1
    ensures PathUpdate(Arr(node), path, act).Err? <==> exists j | 1 <= j < |path| :: BlocksAt(Arr(node), path, j)
    decreases |path|
  {
    if |path| > 1 {
      var cur := Arr(node);
      match Find(node, StrK(path[0]))
      case None =>
        EmptyWalkSucceeds(path[1..], act);
        forall j | 1 <= j < |path| ensures !BlocksAt(cur, path, j) {
          PrefixMissing(cur, path, j);
        }
      case Some(c) =>
        PrefixStep(cur, c, path, 0);
        assert path[1..][..0] == [];
        if c.Null? {
          EmptyWalkSucceeds(path[1..], act);
          forall j | 1 <= j < |path| ensures !BlocksAt(cur, path, j) {
            PrefixStep(cur, c, path, j - 1);
          }
        } else if !c.Arr? {
          assert BlocksAt(cur, path, 1);
        } else {
          UpdateFailsIff(c.entries, path[1..], act);
          if exists j | 1 <= j < |path| :: BlocksAt(cur, path, j) {
            var j :| 1 <= j < |path| && BlocksAt(cur, path, j);
            PrefixStep(cur, c, path, j - 1);
            assert BlocksAt(c, path[1..], j - 1);
          }
          if exists j | 1 <= j < |path[1..]| :: BlocksAt(c, path[1..], j) {
            var j :| 1 <= j < |path[1..]| && BlocksAt(c, path[1..], j);
            PrefixStep(cur, c, path, j);
            assert BlocksAt(cur, path, j + 1);
          }
        }
    }
  }

  /** After the walk, get and has see the written value, or nothing after an unset. */
  lemma {:induction false} UpdateReads(cur: Value, path: seq<string>, act: LeafAction, default: Value)
    requires |path| >= 1 && PathUpdate(cur, path, act).Ok?
    ensures PathHas(PathUpdate(cur, path, act).value, path) == Ok(act.Write?)
    ensures PathGet(PathUpdate(cur, path, act).value, path, default) == Ok(if act.Write? then act.value else default)
    decreases |path|
  {
    if |path| > 1 {
      UpdateReads(Slot(cur.entries, path[0]), path[1..], act, default);
    }
  }

  /** The walk leaves every path that branches off the updated one as it was. */
  lemma {:induction false} UpdateOthers(cur: Value, path: seq<string>, act: LeafAction, q: seq<string>)
    requires |path| >= 1 && PathUpdate(cur, path, act).Ok? && L.Diverges(path, q)
    ensures T.LookupPath(PathUpdate(cur, path, act).value, q) == T.LookupPath(cur, q)
    decreases |path|
  {
    var i :| 0 <= i < |path| && i < |q| && path[i] != q[i];
    if q[0] == path[0] {
      L.DivergesTail(path, q);
      UpdateOthers(Slot(cur.entries, path[0]), path[1..], act, q[1..]);
    }
  }

  lemma SplitLast(p: seq<string>)
    requires p != []
    ensures p == p[..|p| - 1] + [p[|p| - 1]]
  {
  }

  /** The walk leaves the array holding the last index in place, creating it if it was missing. */
  lemma {:induction false} UpdateKeepsParent(cur: Value, parent: seq<string>, last: string, act: LeafAction, r: Value)
    requires PathUpdate(cur, parent + [last], act) == Ok(r)
    ensures ArrayAt(r, parent)
    decreases |parent|
  {
    if parent != [] {
      L.AppendTail(parent, last);
      var slot := Slot(cur.entries, parent[0]);
      var sub := PathUpdate(slot, parent[1..] + [last], act).value;
      UpdateKeepsParent(slot, parent[1..], last, act, sub);
    }
  }

  // ---------------------------------------------------------------------------
  // Keys
  // ---------------------------------------------------------------------------

  /** A key without '.' takes the shortcut, which agrees with a one-index walk except that get's `??` treats null as missing. */
  lemma FlatKeyIsOneIndex(options: PArray, key: string, act: LeafAction, default: Value)
    requires !Dotted(key)
    ensures UpdateValue(options, key, act) == Ok(PathUpdate(Arr(options), [key], act).value.entries)
    ensures HasValue(options, key) == PathHas(Arr(options), [key])
    ensures GetValue(options, key, default)
      == if Find(options, StrK(key)) == Some(Null) then Ok(default) else PathGet(Arr(options), [key], default)
  {
    assert [key][1..] == [];
  }

  /**
   * get and has through lookup: a flat key reads the top level (`??` turning a
   * stored null into the default), a dotted key fails exactly when it indexes a
   * non-array and otherwise finds what lookup finds.
   */
  lemma GetHasIsLookup(options: PArray, key: string, default: Value)
    ensures !Dotted(key) ==>
      GetValue(options, key, default) == Ok(Coalesce(T.LookupPath(Arr(options), [key]), default))
      && HasValue(options, key) == Ok(T.LookupPath(Arr(options), [key]).Some?)
    ensures Dotted(key) ==>
      (GetValue(options, key, default).Ok? <==> !ReachesNonArray(Arr(options), Indexes(key)))
      && (HasValue(options, key).Ok? <==> !ReachesNonArray(Arr(options), Indexes(key)))
    ensures Dotted(key) && !ReachesNonArray(Arr(options), Indexes(key)) ==>
      GetValue(options, key, default).value == T.LookupPath(Arr(options), Indexes(key)).GetOr(default)
      && HasValue(options, key).value == T.LookupPath(Arr(options), Indexes(key)).Some?
  {
    assert [key][1..] == [];
    WalkIsLookup(Arr(options), Indexes(key), default);
  }

  /** A stored null counts as present for has; get returns it for a dotted key and the default for a flat one. */
  lemma StoredNull(options: PArray, key: string, default: Value)
    requires T.LookupPath(Arr(options), Indexes(key)) == Some(Null)
    ensures HasValue(options, key) == Ok(true)
    ensures GetValue(options, key, default) == Ok(if Dotted(key) then Null else default)
  {
    if Dotted(key) {
      FoundByWalk(Arr(options), Indexes(key), Null, default);
    } else {
      assert [key][1..] == [];
    }
  }

  /** After set, get returns the value (the default for a null under a flat key) and has is true. */
  lemma SetThenGet(options: PArray, key: string, value: Value, default: Value)
    requires UpdateValue(options, key, Write(value)).Ok?
    ensures GetValue(UpdateValue(options, key, Write(value)).value, key, default)
      == Ok(if !Dotted(key) && value.Null? then default else value)
    ensures HasValue(UpdateValue(options, key, Write(value)).value, key) == Ok(true)
  {
    if Dotted(key) {
      UpdateReads(Arr(options), Indexes(key), Write(value), default);
    }
  }

  /** After remove, get returns the default and has is false. */
  lemma RemoveThenGet(options: PArray, key: string, default: Value)
    requires UpdateValue(options, key, Unset).Ok?
    ensures GetValue(UpdateValue(options, key, Unset).value, key, default) == Ok(default)
    ensures HasValue(UpdateValue(options, key, Unset).value, key) == Ok(false)
  {
    if Dotted(key) {
      UpdateReads(Arr(options), Indexes(key), Unset, default);
    }
  }

  /** set and remove fail exactly when a dotted key runs into a value that is neither null nor an array. */
  lemma UpdateFailsIffBlocked(options: PArray, key: string, act: LeafAction)
    ensures !Dotted(key) ==> UpdateValue(options, key, act).Ok?
    ensures Dotted(key) ==>
      (UpdateValue(options, key, act).Err? <==> exists j | 1 <= j < |Indexes(key)| :: BlocksAt(Arr(options), Indexes(key), j))
  {
    UpdateFailsIff(options, Indexes(key), act);
  }

  /** set and remove leave every path branching off the key's indexes as it was. */
  lemma UpdateLeavesOthers(options: PArray, key: string, act: LeafAction, q: seq<string>)
    requires UpdateValue(options, key, act).Ok? && L.Diverges(Indexes(key), q)
    ensures T.LookupPath(Arr(UpdateValue(options, key, act).value), q) == T.LookupPath(Arr(options), q)
  {
    if !Dotted(key) {
      FlatKeyIsOneIndex(options, key, act, Null);
    }
    UpdateOthers(Arr(options), Indexes(key), act, q);
  }

  /** remove of a dotted key leaves the array that held the last index, created as [] if it was missing. */
  lemma RemoveCreatesParent(options: PArray, key: string)
    requires Dotted(key) && UpdateValue(options, key, Unset).Ok?
    ensures ArrayAt(Arr(UpdateValue(options, key, Unset).value), Indexes(key)[..|Indexes(key)| - 1])
  {
    var path := Indexes(key);
    var r := PathUpdate(Arr(options), path, Unset).value;
    assert Arr(UpdateValue(options, key, Unset).value) == r;
    SplitLast(path);
    UpdateKeepsParent(Arr(options), path[..|path| - 1], path[|path| - 1], Unset, r);
  }

  /** offsetUnset keeps a flat key present, holding null: has stays true and get gives the default. */
  lemma OffsetUnsetKeepsKey(options: PArray, key: string, default: Value)
    requires !Dotted(key)
    ensures UpdateValue(options, key, Write(Null)).Ok?
    ensures HasValue(UpdateValue(options, key, Write(Null)).value, key) == Ok(true)
    ensures GetValue(UpdateValue(options, key, Write(Null)).value, key, default) == Ok(default)
  {
    SetThenGet(options, key, Null, default);
  }

  /** count after setting a flat key: one more entry exactly when the key was new. */
  lemma CountAfterSet(options: PArray, key: string, value: Value)
    requires !Dotted(key)
    ensures |UpdateValue(options, key, Write(value)).value| == |options| + (if KeyExists(options, StrK(key)) then 0 else 1)
  {
  }

  // ---------------------------------------------------------------------------
  // append, prepend, mergeFromPath, split
  // ---------------------------------------------------------------------------

  lemma OneElementList(x: Value, n: int)
    ensures IsList([(IntK(0), x)]) && IntValues([(IntK(0), x)]) == [x]
    ensures Numbered([x], n) == [(IntK(n), x)]
  {
    assert [x][1..] == [];
  }

  /** Appending a scalar to a list adds it at the next index; appending null changes nothing. */
  lemma AppendToList(options: PArray, key: string, list: PArray, value: Value, default: Value)
    requires GetValue(options, key, Arr([])) == Ok(Arr(list)) && IsList(list)
    requires IsScalar(value) || value.Null?
    requires AppendValue(options, key, value).Ok?
    ensures GetValue(AppendValue(options, key, value).value, key, default)
      == Ok(Arr(list + if value.Null? then [] else [(IntK(|list|), value)]))
  {
    OneElementList(value, |list|);
    ArrayMergeOfLists(list, Cast(value));
    var merged := Arr(ArrayMerge(Cast(Arr(list)), Cast(value)));
    SetThenGet(options, key, merged, default);
  }

  /** Prepending a scalar to a list puts it at index 0 and renumbers the rest from 1. */
  lemma PrependToList(options: PArray, key: string, list: PArray, value: Value, default: Value)
    requires GetValue(options, key, Arr([])) == Ok(Arr(list)) && IsList(list) && IsScalar(value)
    requires PrependValue(options, key, value).Ok?
    ensures GetValue(PrependValue(options, key, value).value, key, default)
      == Ok(Arr([(IntK(0), value)] + Numbered(IntValues(list), 1)))
  {
    OneElementList(value, 0);
    ArrayMergeOfLists(Cast(value), list);
    var merged := Arr(ArrayMerge(Cast(value), Cast(Arr(list))));
    SetThenGet(options, key, merged, default);
  }

  /** mergeFromPath keeps the existing string-keyed values and adds the file's others. */
  lemma MergeFromPathKeepsExisting(options: PArray, key: string, loaded: PArray, current: PArray, s: string, default: Value)
    requires GetValue(options, key, Arr([])) == Ok(Arr(current))
    requires UniqueKeys(loaded) && UniqueKeys(current)
    requires MergeFromPathValue(options, key, Arr(loaded)).Ok?
    ensures GetValue(MergeFromPathValue(options, key, Arr(loaded)).value, key, default) == Ok(Arr(ArrayMerge(loaded, current)))
    ensures Find(ArrayMerge(loaded, current), StrK(s))
      == if Find(current, StrK(s)).Some? then Find(current, StrK(s)) else Find(loaded, StrK(s))
  {
    SetThenGet(options, key, Arr(ArrayMerge(loaded, current)), default);
    ArrayMergeStringLookup(loaded, current, s);
  }

  /** split of a key that was set to an array gives a configuration over exactly that array. */
  lemma SplitAfterSet(options: PArray, key: string, e: PArray)
    requires UpdateValue(options, key, Write(Arr(e))).Ok?
    ensures SplitValue(UpdateValue(options, key, Write(Arr(e))).value, key) == Ok(e)
  {
    SetThenGet(options, key, Arr(e), Null);
  }
}
