/**
 * Config: the older configuration object over one PHP array. A key containing
 * '.' is exploded at '.' into indexes and walked one index at a time; any
 * other key addresses the top level directly. Keys are not validated.
 */
module Config {
  import opened Results
  import opened PhpStrings
  import opened PhpArrays

  /** The PHP Errors (TypeError and Error) that Config's own code raises. */
  datatype Fault =
    | NotAnArray(index: string, typeName: string)   // an index used on a value that is not an array
    | ArrayExpected(typeName: string)               // a non-array given where an array parameter is declared

  /** A dotted key: it contains the separator '.' somewhere. */
  predicate Dotted(key: string) {
    '.' in key
  }

  /** The indexes of a key: its pieces between dots (explode on '.'). */
  function Indexes(key: string): (r: seq<string>)
    ensures |r| >= 1
    ensures !Dotted(key) ==> r == [key]
  {
    Split(key, {'.'})
  }

  // ---------------------------------------------------------------------------
  // get and has
  // ---------------------------------------------------------------------------

  /** Null coalescing: a missing entry and a stored null both give the default. */
  function Coalesce(found: Option<Value>, default: Value): (r: Value)
    ensures found.Some? && !found.value.Null? ==> r == found.value
    ensures found.None? || found.value.Null? ==> r == default
  {
    match found
    case Some(v) => if v.Null? then default else v
    case None => default
  }

  /**
   * The foreach of get: array_key_exists at every index (a TypeError on a
   * non-array), the default at the first missing index, else the value reached.
   */
  function PathGet(cur: Value, path: seq<string>, default: Value): Result<Value, Fault>
    decreases |path|
  {
    if path == [] then Ok(cur)
    else if !cur.Arr? then Err(NotAnArray(path[0], TypeName(cur)))
    else
      match Find(cur.entries, StrK(path[0]))
      case None => Ok(default)
      case Some(c) => PathGet(c, path[1..], default)
  }

  /** The foreach of has: false at the first missing index. */
  function PathHas(cur: Value, path: seq<string>): Result<bool, Fault>
    decreases |path|
  {
    if path == [] then Ok(true)
    else if !cur.Arr? then Err(NotAnArray(path[0], TypeName(cur)))
    else
      match Find(cur.entries, StrK(path[0]))
      case None => Ok(false)
      case Some(c) => PathHas(c, path[1..])
  }

  /** Config::get */
  function GetValue(options: PArray, key: string, default: Value): Result<Value, Fault> {
    if !Dotted(key) then Ok(Coalesce(Find(options, StrK(key)), default))
    else PathGet(Arr(options), Indexes(key), default)
  }

  /** Config::has */
  function HasValue(options: PArray, key: string): Result<bool, Fault> {
    if !Dotted(key) then Ok(KeyExists(options, StrK(key)))
    else PathHas(Arr(options), Indexes(key))
  }

  // ---------------------------------------------------------------------------
  // set and remove
  // ---------------------------------------------------------------------------

  /** What happens at the last index: assignment (set) or unset (remove). */
  datatype LeafAction = Write(value: Value) | Unset

  function ApplyAt(entries: PArray, index: string, act: LeafAction): PArray {
    match act
    case Write(v) => Put(entries, StrK(index), v)
    case Unset => Remove(entries, StrK(index))
  }

  /**
   * The value the walk of set and remove moves on to at one index: a missing
   * or null slot is first filled with an empty array (null-coalescing assignment).
   */
  function Slot(entries: PArray, index: string): Value {
    match Find(entries, StrK(index))
    case None => Arr([])
    case Some(Null) => Arr([])
    case Some(w) => w
  }

  /**
   * The while loop of set and remove and the final assignment or unset through
   * the reference, as the array rebuilt from the bottom up. Indexing a value
   * that is not an array is an Error; the slots the walk filled before that
   * point were all non-null already, so a failed walk changes nothing.
   */
  function PathUpdate(cur: Value, path: seq<string>, act: LeafAction): (r: Result<Value, Fault>)
    requires |path| >= 1
    ensures r.Ok? ==> r.value.Arr?
    decreases |path|
  {
    if !cur.Arr? then Err(NotAnArray(path[0], TypeName(cur)))
    else if |path| == 1 then Ok(Arr(ApplyAt(cur.entries, path[0], act)))
    else
      match PathUpdate(Slot(cur.entries, path[0]), path[1..], act)
      case Err(e) => Err(e)
      case Ok(sub) => Ok(Arr(Put(cur.entries, StrK(path[0]), sub)))
  }

  /** Config::set (Write) and Config::remove (Unset): the new options. */
  function UpdateValue(options: PArray, key: string, act: LeafAction): Result<PArray, Fault> {
    if !Dotted(key) then Ok(ApplyAt(options, key, act))
    else
      match PathUpdate(Arr(options), Indexes(key), act)
      case Err(e) => Err(e)
      case Ok(r) => Ok(r.entries)
  }

  /** Put sub back along the arrays of the walk (trail[j] reached by path[..j]), from the bottom up. */
  ghost function Rebuild(trail: seq<PArray>, path: seq<string>, sub: Value): Value
    requires |trail| <= |path|
    decreases |trail|
  {
    if trail == [] then sub
    else
      var k := |trail| - 1;
      Rebuild(trail[..k], path, Arr(Put(trail[k], StrK(path[k]), sub)))
  }

  lemma RebuildStep(trail: seq<PArray>, path: seq<string>, k: nat, sub: Value)
    requires 0 < k <= |trail| <= |path|
    ensures Rebuild(trail[..k], path, sub) == Rebuild(trail[..k - 1], path, Arr(Put(trail[k - 1], StrK(path[k - 1]), sub)))
  {
    assert trail[..k][..k - 1] == trail[..k - 1];
    assert trail[..k][k - 1] == trail[k - 1];
  }

  ghost function Lift(trail: seq<PArray>, path: seq<string>, r: Result<Value, Fault>): Result<Value, Fault>
    requires |trail| <= |path|
  {
    match r
    case Err(e) => Err(e)
    case Ok(sub) => Ok(Rebuild(trail, path, sub))
  }

  // ---------------------------------------------------------------------------
  // append, prepend, mergeFromPath, split
  // ---------------------------------------------------------------------------

  /** append: the array-casts of get(key, []) and of value, merged in that order, stored at key. */
  function AppendValue(options: PArray, key: string, value: Value): Result<PArray, Fault> {
    match GetValue(options, key, Arr([]))
    case Err(e) => Err(e)
    case Ok(current) => UpdateValue(options, key, Write(Arr(ArrayMerge(Cast(current), Cast(value)))))
  }

  /** prepend: the array-casts of value and of get(key, []), merged in that order, stored at key. */
  function PrependValue(options: PArray, key: string, value: Value): Result<PArray, Fault> {
    match GetValue(options, key, Arr([]))
    case Err(e) => Err(e)
    case Ok(current) => UpdateValue(options, key, Write(Arr(ArrayMerge(Cast(value), Cast(current)))))
  }

  /**
   * mergeFromPath: the array the file returns, merged with get(key, []) (the
   * existing entries winning), is stored at key; loaded is what the file
   * returns. Both arguments are evaluated before array_merge checks that they
   * are arrays.
   */
  function MergeFromPathValue(options: PArray, key: string, loaded: Value): Result<PArray, Fault> {
    match GetValue(options, key, Arr([]))
    case Err(e) => Err(e)
    case Ok(current) =>
      if !loaded.Arr? then Err(ArrayExpected(TypeName(loaded)))
      else if !current.Arr? then Err(ArrayExpected(TypeName(current)))
      else UpdateValue(options, key, Write(Arr(ArrayMerge(loaded.entries, current.entries))))
  }

  /** split: the options of `new self(get(key))`, whose parameter must be an array. */
  function SplitValue(options: PArray, key: string): Result<PArray, Fault> {
    match GetValue(options, key, Null)
    case Err(e) => Err(e)
    case Ok(Arr(e)) => Ok(e)
    case Ok(w) => Err(ArrayExpected(TypeName(w)))
  }

  /**
   * The while loop of set and remove: down the indexes, keeping every array
   * passed (its slot filled by `??= []`), up to the array holding the last index.
   */
  method Descend(options: PArray, path: seq<string>, act: LeafAction) returns (trail: seq<PArray>, failure: Option<Fault>)
    requires |path| >= 1
    ensures failure.Some? ==> PathUpdate(Arr(options), path, act) == Err(failure.value)
    ensures failure.None? ==> |trail| == |path|
    ensures failure.None? ==>
      PathUpdate(Arr(options), path, act)
        == Ok(Rebuild(trail[..|path| - 1], path, Arr(ApplyAt(trail[|path| - 1], path[|path| - 1], act))))
  {
    ghost var goal := PathUpdate(Arr(options), path, act);
    trail := [options];
    var i := 0;
    while i < |path| - 1
      invariant 0 <= i < |path| && |trail| == i + 1 && trail[0] == options
      invariant goal == Lift(trail[..i], path, PathUpdate(Arr(trail[i]), path[i..], act))
    {
      assert path[i..][0] == path[i] && path[i..][1..] == path[i + 1..];
      var next := Slot(trail[i], path[i]);
      if !next.Arr? {
        assert path[i + 1..][0] == path[i + 1];
        return trail, Some(NotAnArray(path[i + 1], TypeName(next)));
      }
      assert (trail + [next.entries])[..i + 1][..i] == trail[..i];
      assert (trail + [next.entries])[..i + 1][i] == trail[i];
      trail := trail + [next.entries];
      i := i + 1;
    }
    assert path[i..] == [path[i]];
    return trail, None;
  }

  /** The assignment or unset through the reference, written back up through every array passed. */
  method Ascend(trail: seq<PArray>, path: seq<string>, leaf: Value) returns (r: Value)
    requires |trail| <= |path|
    ensures r == Rebuild(trail, path, leaf)
  {
    r := leaf;
    var k := |trail|;
    assert trail[..k] == trail;
    while k > 0
      invariant 0 <= k <= |trail|
      invariant Rebuild(trail, path, leaf) == Rebuild(trail[..k], path, r)
    {
      RebuildStep(trail, path, k, r);
      r := Arr(Put(trail[k - 1], StrK(path[k - 1]), r));
      k := k - 1;
    }
    assert trail[..0] == [];
  }

  /** The walk of set and remove for a dotted key: down, then the write back up. */
  method Walk(options: PArray, path: seq<string>, act: LeafAction) returns (r: Result<Value, Fault>)
    requires |path| >= 1
    ensures r == PathUpdate(Arr(options), path, act)
  {
    var trail, failure := Descend(options, path, act);
    if failure.Some? {
      return Err(failure.value);
    }
    var top := Ascend(trail[..|path| - 1], path, Arr(ApplyAt(trail[|path| - 1], path[|path| - 1], act)));
    return Ok(top);
  }

  // ---------------------------------------------------------------------------
  // The object
  // ---------------------------------------------------------------------------

  class Config {
    var options: PArray

    constructor (options: PArray)
      ensures this.options == options
    {
      this.options := options;
    }

    /** toArray, and the entries getIterator yields in order. */
    method ToArray() returns (r: PArray)
      ensures r == options
    {
      r := options;
    }

    method Count() returns (n: nat)
      ensures n == |options|
    {
      n := |options|;
    }

    method Get(key: string, default: Value) returns (r: Result<Value, Fault>)
      ensures r == GetValue(options, key, default)
    {
      if '.' !in key {
        return Ok(Coalesce(Find(options, StrK(key)), default));
      }
      var path := Indexes(key);
      var cur := Arr(options);
      var i := 0;
      while i < |path|
        invariant 0 <= i <= |path|
        invariant PathGet(cur, path[i..], default) == PathGet(Arr(options), path, default)
      {
        assert path[i..][0] == path[i] && path[i..][1..] == path[i + 1..];
        if !cur.Arr? {
          return Err(NotAnArray(path[i], TypeName(cur)));
        }
        var found := Find(cur.entries, StrK(path[i]));
        if found.None? {
          return Ok(default);
        }
        cur := found.value;
        i := i + 1;
      }
      return Ok(cur);
    }

    method Has(key: string) returns (r: Result<bool, Fault>)
      ensures r == HasValue(options, key)
    {
      if '.' !in key {
        return Ok(KeyExists(options, StrK(key)));
      }
      var path := Indexes(key);
      var cur := Arr(options);
      var i := 0;
      while i < |path|
        invariant 0 <= i <= |path|
        invariant PathHas(cur, path[i..]) == PathHas(Arr(options), path)
      {
        assert path[i..][0] == path[i] && path[i..][1..] == path[i + 1..];
        if !cur.Arr? {
          return Err(NotAnArray(path[i], TypeName(cur)));
        }
        var found := Find(cur.entries, StrK(path[i]));
        if found.None? {
          return Ok(false);
        }
        cur := found.value;
        i := i + 1;
      }
      return Ok(true);
    }

    /** set and remove: the top level directly for a plain key, else the walk. */
    method Update(key: string, act: LeafAction) returns (o: Outcome<Fault>)
      modifies this
      ensures UpdateValue(old(options), key, act).Ok? ==>
        o == Pass && options == UpdateValue(old(options), key, act).value
      ensures UpdateValue(old(options), key, act).Err? ==>
        o == Fail(UpdateValue(old(options), key, act).error) && options == old(options)
    {
      if '.' !in key {
        options := ApplyAt(options, key, act);
        return Pass;
      }
      var walked := Walk(options, Indexes(key), act);
      if walked.Err? {
        return Fail(walked.error);
      }
      options := walked.value.entries;
      return Pass;
    }

    method Set(key: string, value: Value) returns (o: Outcome<Fault>)
      modifies this
      ensures UpdateValue(old(options), key, Write(value)).Ok? ==>
        o == Pass && options == UpdateValue(old(options), key, Write(value)).value
      ensures UpdateValue(old(options), key, Write(value)).Err? ==>
        o == Fail(UpdateValue(old(options), key, Write(value)).error) && options == old(options)
    {
      o := Update(key, Write(value));
    }

    method Remove(key: string) returns (o: Outcome<Fault>)
      modifies this
      ensures UpdateValue(old(options), key, Unset).Ok? ==>
        o == Pass && options == UpdateValue(old(options), key, Unset).value
      ensures UpdateValue(old(options), key, Unset).Err? ==>
        o == Fail(UpdateValue(old(options), key, Unset).error) && options == old(options)
    {
      o := Update(key, Unset);
    }

    /** offsetUnset: sets the key to null instead of removing it. */
    method OffsetUnset(key: string) returns (o: Outcome<Fault>)
      modifies this
      ensures UpdateValue(old(options), key, Write(Null)).Ok? ==>
        o == Pass && options == UpdateValue(old(options), key, Write(Null)).value
      ensures UpdateValue(old(options), key, Write(Null)).Err? ==>
        o == Fail(UpdateValue(old(options), key, Write(Null)).error) && options == old(options)
    {
      o := Set(key, Null);
    }

    /** offsetExists: array-style isset is has. */
    method OffsetExists(key: string) returns (r: Result<bool, Fault>)
      ensures r == HasValue(options, key)
    {
      r := Has(key);
    }

    /** offsetGet: array-style read is get with a null default. */
    method OffsetGet(key: string) returns (r: Result<Value, Fault>)
      ensures r == GetValue(options, key, Null)
    {
      r := Get(key, Null);
    }

    /** offsetSet: array-style write is set. */
    method OffsetSet(key: string, value: Value) returns (o: Outcome<Fault>)
      modifies this
      ensures UpdateValue(old(options), key, Write(value)).Ok? ==>
        o == Pass && options == UpdateValue(old(options), key, Write(value)).value
      ensures UpdateValue(old(options), key, Write(value)).Err? ==>
        o == Fail(UpdateValue(old(options), key, Write(value)).error) && options == old(options)
    {
      o := Set(key, value);
    }

    method Append(key: string, value: Value) returns (o: Outcome<Fault>)
      modifies this
      ensures AppendValue(old(options), key, value).Ok? ==>
        o == Pass && options == AppendValue(old(options), key, value).value
      ensures AppendValue(old(options), key, value).Err? ==>
        o == Fail(AppendValue(old(options), key, value).error) && options == old(options)
    {
      var current := Get(key, Arr([]));
      if current.Err? {
        return Fail(current.error);
      }
      o := Set(key, Arr(ArrayMerge(Cast(current.value), Cast(value))));
    }

    method Prepend(key: string, value: Value) returns (o: Outcome<Fault>)
      modifies this
      ensures PrependValue(old(options), key, value).Ok? ==>
        o == Pass && options == PrependValue(old(options), key, value).value
      ensures PrependValue(old(options), key, value).Err? ==>
        o == Fail(PrependValue(old(options), key, value).error) && options == old(options)
    {
      var current := Get(key, Arr([]));
      if current.Err? {
        return Fail(current.error);
      }
      o := Set(key, Arr(ArrayMerge(Cast(value), Cast(current.value))));
    }

    /** merge: a shallow array_merge in which the incoming options win. */
    method Merge(incoming: PArray)
      modifies this
      ensures options == ArrayMerge(old(options), incoming)
    {
      options := ArrayMerge(options, incoming);
    }

    /** mergeConfig: a shallow array_merge in which the existing options win. */
    method MergeConfig(other: Config)
      modifies this
      ensures options == ArrayMerge(old(other.options), old(options))
    {
      options := ArrayMerge(other.options, options);
    }

    method MergeFromPath(path: string, key: string, loaded: Value) returns (o: Outcome<Fault>)
      modifies this
      ensures MergeFromPathValue(old(options), key, loaded).Ok? ==>
        o == Pass && options == MergeFromPathValue(old(options), key, loaded).value
      ensures MergeFromPathValue(old(options), key, loaded).Err? ==>
        o == Fail(MergeFromPathValue(old(options), key, loaded).error) && options == old(options)
    {
      var current := Get(key, Arr([]));
      if current.Err? {
        return Fail(current.error);
      }
      if !loaded.Arr? {
        return Fail(ArrayExpected(TypeName(loaded)));
      }
      if !current.value.Arr? {
        return Fail(ArrayExpected(TypeName(current.value)));
      }
      o := Set(key, Arr(ArrayMerge(loaded.entries, current.value.entries)));
    }

    method Split(key: string) returns (r: Result<Config, Fault>)
      ensures SplitValue(options, key).Ok? <==> r.Ok?
      ensures r.Ok? ==> fresh(r.value) && r.value.options == SplitValue(options, key).value
      ensures r.Err? ==> r.error == SplitValue(options, key).error
    {
      var v := Get(key, Null);
      if v.Err? {
        return Err(v.error);
      }
      if !v.value.Arr? {
        return Err(ArrayExpected(TypeName(v.value)));
      }
      var c := new Config(v.value.entries);
      r := Ok(c);
    }
  }
}
