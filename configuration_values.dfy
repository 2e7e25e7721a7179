/**
 * What a Configuration accepts as a value and how it normalises it before
 * storing: embedded configurations become their arrays, arrays are normalised
 * entry by entry, and anything that is not an array, a scalar or null is
 * refused when it sits under a string key.
 */
module ConfigurationValues {
  import opened Results
  import opened PhpArrays
  import opened ConfigurationErrors

  /**
   * The values normalisation produces from well-formed input: no embedded
   * configuration anywhere, and objects only as integer-keyed list elements.
   */
  predicate Stored(v: Value)
    decreases v
  {
    match v
    case Tree(_) => false
    case Arr(e) => forall i :: 0 <= i < |e| ==> Stored(e[i].1) && (e[i].0.StrK? ==> !e[i].1.Object?)
    case _ => true
  }

  /** Stored entries of an array. */
  predicate StoredEntries(e: PArray) {
    Stored(Arr(e))
  }

  /**
   * The values normalisation accepts: no object under a string key (or at the
   * top), at any depth outside embedded configurations.
   */
  predicate Admissible(v: Value)
    decreases v
  {
    match v
    case Object(_, _) => false
    case Arr(e) => forall i :: 0 <= i < |e| ==> (e[i].0.IntK? && e[i].1.Object?) || Admissible(e[i].1)
    case _ => true
  }

  /** Every embedded configuration inside v holds stored values, as a Configuration always does. */
  predicate TreesStored(v: Value)
    decreases v
  {
    match v
    case Tree(c) => StoredEntries(c)
    case Arr(e) => forall i :: 0 <= i < |e| ==> TreesStored(e[i].1)
    case _ => true
  }

  /**
   * Pair every key of e with the matching result of rs, or report the first
   * error in entry order (array_reduce stops at the first exception).
   */
  function Collect(e: PArray, rs: seq<Result<Value, ConfigError>>): (r: Result<PArray, ConfigError>)
    requires |rs| == |e|
    ensures r.Ok? <==> forall i :: 0 <= i < |rs| ==> rs[i].Ok?
    ensures r.Ok? ==> |r.value| == |e| && forall i :: 0 <= i < |e| ==> r.value[i] == (e[i].0, rs[i].value)
    ensures r.Err? ==> exists i :: 0 <= i < |rs| && rs[i] == Err(r.error) && forall j :: 0 <= j < i ==> rs[j].Ok?
  {
    if e == [] then Ok([])
    else if rs[0].Err? then Err(rs[0].error)
    else
      match Collect(e[1..], rs[1..])
      case Err(x) =>
        var i :| 0 <= i < |rs[1..]| && rs[1..][i] == Err(x) && forall j :: 0 <= j < i ==> rs[1..][j].Ok?;
        assert rs[i + 1] == Err(x);
        Err(x)
      case Ok(t) => Ok([(e[0].0, rs[0].value)] + t)
  }

  /**
   * normalizeConfigurationValue of key and value. An embedded configuration
   * becomes its array; an array is normalised entry by entry, a string-keyed
   * entry under its own key and an integer-keyed one by
   * normalizeValueWithIntegerKey, which lets any non-array value through; a
   * scalar or null is kept; anything else is refused with the key it was
   * stored under. The key matters only for that refusal.
   */
  function Normalize(key: string, v: Value): (r: Result<Value, ConfigError>)
    decreases v
    ensures v.Arr? && r.Ok? ==> r.value.Arr? && |r.value.entries| == |v.entries|
    ensures v.Arr? && r.Ok? ==> forall i :: 0 <= i < |v.entries| ==> r.value.entries[i].0 == v.entries[i].0
    ensures v.Object? ==> r == Err(InvalidValue(key, TypeName(v)))
    ensures !v.Arr? && !v.Object? ==> r.Ok?
  {
    match v
    case Tree(c) => Ok(Arr(c))
    case Arr(e) =>
      var rs := seq(|e|, i requires 0 <= i < |e| =>
        if e[i].0.StrK? then Normalize(e[i].0.s, e[i].1)
        else if e[i].1.Object? then Ok(e[i].1)
        else Normalize("", e[i].1));
      (match Collect(e, rs)
       case Ok(n) => Ok(Arr(n))
       case Err(x) => Err(x))
    case Object(_, _) => Err(InvalidValue(key, TypeName(v)))
    case _ => Ok(v)
  }

  /** normalizeArrayKeys: the entries of a normalised array. */
  function NormalizeArray(e: PArray): (r: Result<PArray, ConfigError>)
  {
    match Normalize("", Arr(e))
    case Ok(n) => Ok(n.entries)
    case Err(x) => Err(x)
  }

  /**
   * wrapValueInList: null is the empty list, an array is normalised, any other
   * value becomes a one-element list.
   */
  function WrapInList(v: Value): Result<PArray, ConfigError> {
    match v
    case Null => Ok([])
    case Arr(e) => NormalizeArray(e)
    case _ => Ok([(IntK(0), v)])
  }

  /**
   * mergeTwoValues: two arrays are combined with array_merge, in every other
   * case the incoming value replaces the existing one.
   */
  function MergeTwoValues(existing: Value, incoming: Value): Value {
    if incoming.Arr? && existing.Arr? then Arr(ArrayMerge(existing.entries, incoming.entries))
    else incoming
  }

  // ---------------------------------------------------------------------------
  // Properties
  // ---------------------------------------------------------------------------

  /** Normalisation succeeds exactly on the admissible values. */
  lemma {:induction false} NormalizeSucceedsIff(key: string, v: Value)
    ensures Normalize(key, v).Ok? <==> Admissible(v)
    decreases v
  {
    match v
    case Arr(e) =>
      forall i | 0 <= i < |e|
        ensures e[i].0.StrK? ==> (Normalize(e[i].0.s, e[i].1).Ok? <==> Admissible(e[i].1))
        ensures e[i].0.IntK? && !e[i].1.Object? ==> (Normalize("", e[i].1).Ok? <==> Admissible(e[i].1))
      {
        if e[i].0.StrK? {
          NormalizeSucceedsIff(e[i].0.s, e[i].1);
        } else if !e[i].1.Object? {
          NormalizeSucceedsIff("", e[i].1);
        }
      }
    case _ =>
  }

  /** Normalising a stored value changes nothing: normalisation is idempotent. */
  lemma {:induction false} NormalizeStored(key: string, v: Value)
    requires Stored(v) && !v.Object?
    ensures Normalize(key, v) == Ok(v)
    decreases v
  {
    match v
    case Arr(e) =>
      var rs := seq(|e|, i requires 0 <= i < |e| =>
        if e[i].0.StrK? then Normalize(e[i].0.s, e[i].1)
        else if e[i].1.Object? then Ok(e[i].1)
        else Normalize("", e[i].1));
      forall i | 0 <= i < |e| ensures rs[i] == Ok(e[i].1) {
        if e[i].0.StrK? {
          NormalizeStored(e[i].0.s, e[i].1);
        } else if !e[i].1.Object? {
          NormalizeStored("", e[i].1);
        }
      }
      var n := Collect(e, rs).value;
      assert n == e by {
        forall i | 0 <= i < |e| ensures n[i] == e[i] {
        }
      }
    case _ =>
  }

  /** What normalisation returns from well-formed input is stored and is not an object. */
  lemma {:induction false} NormalizeYieldsStored(key: string, v: Value)
    requires TreesStored(v) && Normalize(key, v).Ok?
    ensures Stored(Normalize(key, v).value) && !Normalize(key, v).value.Object?
    decreases v
  {
    match v
    case Arr(e) =>
      var rs := seq(|e|, i requires 0 <= i < |e| =>
        if e[i].0.StrK? then Normalize(e[i].0.s, e[i].1)
        else if e[i].1.Object? then Ok(e[i].1)
        else Normalize("", e[i].1));
      var n := Collect(e, rs).value;
      forall i | 0 <= i < |n| ensures Stored(n[i].1) && (n[i].0.StrK? ==> !n[i].1.Object?) {
        assert n[i] == (e[i].0, rs[i].value);
        if e[i].0.StrK? {
          NormalizeYieldsStored(e[i].0.s, e[i].1);
        } else if !e[i].1.Object? {
          NormalizeYieldsStored("", e[i].1);
        }
      }
    case _ =>
  }

  /** A stored value is (array)-cast by wrapValueInList. */
  lemma WrapStored(v: Value)
    requires Stored(v)
    ensures WrapInList(v) == Ok(Cast(v))
  {
    if v.Arr? {
      NormalizeStored("", v);
    }
  }

  /** Every entry an array_merge produces comes from one of its inputs, under the same kind of key. */
  lemma {:induction false} RenumberEntriesFrom(acc: PArray, next: int, rest: PArray, i: int)
    requires 0 <= i < |Renumber(acc, next, rest)|
    ensures var e := Renumber(acc, next, rest)[i];
      exists j :: 0 <= j < |acc + rest| && (acc + rest)[j].1 == e.1 && (acc + rest)[j].0.StrK? == e.0.StrK?
    decreases |rest|
  {
    var e := Renumber(acc, next, rest)[i];
    if rest == [] {
      assert (acc + rest)[i] == acc[i];
    } else {
      var acc' := match rest[0].0
        case IntK(_) => acc + [(IntK(next), rest[0].1)]
        case StrK(s) => Put(acc, StrK(s), rest[0].1);
      var next' := if rest[0].0.IntK? then next + 1 else next;
      assert Renumber(acc, next, rest) == Renumber(acc', next', rest[1..]);
      RenumberEntriesFrom(acc', next', rest[1..], i);
      var j :| 0 <= j < |acc' + rest[1..]| && (acc' + rest[1..])[j].1 == e.1
        && (acc' + rest[1..])[j].0.StrK? == e.0.StrK?;
      if j >= |acc'| {
        assert (acc + rest)[j - |acc'| + |acc| + 1] == rest[1..][j - |acc'|];
      } else if rest[0].0.IntK? || acc'[j] == rest[0] {
        if j == |acc| && rest[0].0.IntK? {
          assert (acc + rest)[|acc|] == rest[0];
        } else if rest[0].0.IntK? {
          assert (acc + rest)[j] == acc[j];
        } else {
          assert (acc + rest)[|acc|] == rest[0];
        }
      } else {
        PutEntry(acc, rest[0].0, rest[0].1, j);
        var j' :| 0 <= j' < |acc| && acc[j'] == acc'[j];
        assert (acc + rest)[j'] == acc[j'];
      }
    }
  }

  /** Every entry of Put(a, k, v) is (k, v) or an entry of a. */
  lemma PutEntry(a: PArray, k: Key, v: Value, j: int)
    requires 0 <= j < |Put(a, k, v)|
    ensures Put(a, k, v)[j] == (k, v) || exists j' :: 0 <= j' < |a| && a[j'] == Put(a, k, v)[j]
  {
    var r := Put(a, k, v);
    assert r[j] in r;
    PutMembers(a, k, v);
  }

  lemma {:induction false} PutMembers(a: PArray, k: Key, v: Value)
    ensures forall x :: x in Put(a, k, v) ==> x == (k, v) || x in a
  {
    if a != [] && a[0].0 != k {
      PutMembers(a[1..], k, v);
    }
  }

  /** array_merge of stored arrays is stored. */
  lemma ArrayMergeStored(a: PArray, b: PArray)
    requires StoredEntries(a) && StoredEntries(b)
    ensures StoredEntries(ArrayMerge(a, b))
  {
    var m := ArrayMerge(a, b);
    forall i | 0 <= i < |m| ensures Stored(m[i].1) && (m[i].0.StrK? ==> !m[i].1.Object?) {
      RenumberEntriesFrom([], 0, a + b, i);
      var j :| 0 <= j < |[] + (a + b)| && ([] + (a + b))[j].1 == m[i].1
        && ([] + (a + b))[j].0.StrK? == m[i].0.StrK?;
      assert [] + (a + b) == a + b;
      if j < |a| {
        assert (a + b)[j] == a[j];
      } else {
        assert (a + b)[j] == b[j - |a|];
      }
    }
  }

  /** mergeTwoValues keeps stored values stored. */
  lemma MergeTwoValuesStored(existing: Value, incoming: Value)
    requires Stored(existing) && Stored(incoming)
    ensures Stored(MergeTwoValues(existing, incoming))
  {
    if incoming.Arr? && existing.Arr? {
      ArrayMergeStored(existing.entries, incoming.entries);
    }
  }

  /**
   * Merging arrays: a string key of the incoming array wins, a string key only
   * the existing array has survives.
   */
  lemma MergeTwoValuesStringKey(existing: PArray, incoming: PArray, s: string)
    requires UniqueKeys(existing) && UniqueKeys(incoming)
    ensures Find(MergeTwoValues(Arr(existing), Arr(incoming)).entries, StrK(s))
      == if KeyExists(incoming, StrK(s)) then Find(incoming, StrK(s)) else Find(existing, StrK(s))
  {
    ArrayMergeStringLookup(existing, incoming, s);
  }
}
