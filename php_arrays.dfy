/**
 * PHP values and PHP's ordered arrays, as the configuration classes store them.
 *
 * A PHP array is an ordered list of (key, value) entries with integer or string
 * keys. PHP never lets a key occur twice; the operations here read the first
 * occurrence, so they agree with PHP on every array PHP can build, and the
 * lemmas that depend on it say `requires UniqueKeys(..)`.
 */
module PhpArrays {
  import opened Results

  /** An array key. Numeric strings stay strings here (PHP would turn "0" into 0). */
  datatype Key = IntK(n: int) | StrK(s: string)

  /**
   * A PHP value as configuration code sees it. `Float` is an opaque IEEE-754 bit
   * pattern (no arithmetic is modelled). `Tree` is an embedded configuration object,
   * represented by what its `toArray()` returns. `Object` is any other object,
   * closure or resource, known by its class name; for a Config object `options`
   * is the array it holds, for any other object it is empty.
   */
  datatype Value =
    | Null
    | Bool(b: bool)
    | Int(i: int)
    | Float(bits: int)
    | Str(s: string)
    | Arr(entries: seq<(Key, Value)>)
    | Tree(contents: seq<(Key, Value)>)
    | Object(className: string, options: seq<(Key, Value)>)

  type PArray = seq<(Key, Value)>

  /** PHP's is_scalar: bool, int, float or string. */
  predicate IsScalar(v: Value) {
    v.Bool? || v.Int? || v.Float? || v.Str?
  }

  /** PHP's get_debug_type, as used in the error messages. */
  function TypeName(v: Value): string {
    match v
    case Null => "null"
    case Bool(_) => "bool"
    case Int(_) => "int"
    case Float(_) => "float"
    case Str(_) => "string"
    case Arr(_) => "array"
    case Tree(_) => "Ghostwriter\\Config\\Configuration"
    case Object(c, _) => c
  }

  /** No key occurs twice: true of every array PHP can build. */
  ghost predicate UniqueKeys(a: PArray) {
    forall i, j :: 0 <= i < j < |a| ==> a[i].0 != a[j].0
  }

  /** Reading a key that may be missing. */
  function Find(a: PArray, k: Key): (r: Option<Value>)
    ensures r.None? <==> forall i :: 0 <= i < |a| ==> a[i].0 != k
    ensures r.Some? ==> (k, r.value) in a
  {
    if a == [] then None
    else if a[0].0 == k then Some(a[0].1)
    else Find(a[1..], k)
  }

  /** PHP's array_key_exists: a key holding null still exists. */
  predicate KeyExists(a: PArray, k: Key) {
    Find(a, k).Some?
  }

  /** Assigning a key: an existing key keeps its position, a new key goes last. */
  function Put(a: PArray, k: Key, v: Value): (r: PArray)
    ensures Find(r, k) == Some(v)
    ensures forall k' :: k' != k ==> Find(r, k') == Find(a, k')
    ensures Find(a, k).None? ==> r == a + [(k, v)]
    ensures Find(a, k).Some? ==> |r| == |a| && forall i :: 0 <= i < |a| ==> r[i].0 == a[i].0
  {
    if a == [] then [(k, v)]
    else if a[0].0 == k then FindCons((k, v), a[1..]); [(k, v)] + a[1..]
    else
      var rest := Put(a[1..], k, v);
      PutBehindFinds(a, k, v, rest);
      PutBehindShape(a, k, v, rest);
      [a[0]] + rest
  }

  /** Put past a first entry with another key: the lookups Put promises of a[1..] carry over to a. */
  lemma PutBehindFinds(a: PArray, k: Key, v: Value, rest: PArray)
    requires a != [] && a[0].0 != k
    requires Find(rest, k) == Some(v)
    requires forall k' :: k' != k ==> Find(rest, k') == Find(a[1..], k')
    ensures Find([a[0]] + rest, k) == Some(v)
    ensures forall k' :: k' != k ==> Find([a[0]] + rest, k') == Find(a, k')
  {
    FindCons(a[0], rest);
    FindCons(a[0], a[1..]);
    assert a == [a[0]] + a[1..];
  }

  /** Put past a first entry with another key: the shape Put promises of a[1..] carries over to a. */
  lemma PutBehindShape(a: PArray, k: Key, v: Value, rest: PArray)
    requires a != [] && a[0].0 != k
    requires Find(a[1..], k).None? ==> rest == a[1..] + [(k, v)]
    requires Find(a[1..], k).Some? ==> |rest| == |a| - 1 && forall i :: 0 <= i < |rest| ==> rest[i].0 == a[i + 1].0
    ensures Find(a, k).None? ==> [a[0]] + rest == a + [(k, v)]
    ensures Find(a, k).Some? ==> |[a[0]] + rest| == |a| && forall i :: 0 <= i < |a| ==> ([a[0]] + rest)[i].0 == a[i].0
  {
    assert Find(a, k) == Find(a[1..], k);
    if Find(a, k).None? {
      assert a + [(k, v)] == [a[0]] + (a[1..] + [(k, v)]);
    } else {
      forall i | 0 <= i < |a| ensures ([a[0]] + rest)[i].0 == a[i].0 {
        if i > 0 {
          assert ([a[0]] + rest)[i] == rest[i - 1];
        }
      }
    }
  }

  /** Looking a key up in an array with one more entry in front. */
  lemma FindCons(e: (Key, Value), rest: PArray)
    ensures forall k :: Find([e] + rest, k) == if e.0 == k then Some(e.1) else Find(rest, k)
  {
    assert ([e] + rest)[0] == e && ([e] + rest)[1..] == rest;
  }

  /** unset of a key: silently does nothing when the key is missing. */
  function Remove(a: PArray, k: Key): (r: PArray)
    ensures Find(r, k).None?
    ensures forall k' :: k' != k ==> Find(r, k') == Find(a, k')
    ensures Find(a, k).None? ==> r == a
    ensures forall e :: e in r ==> e in a
  {
    if a == [] then []
    else if a[0].0 == k then Remove(a[1..], k)
    else [a[0]] + Remove(a[1..], k)
  }

  /** Assigning a key the value it already holds changes nothing. */
  lemma {:induction false} PutFound(a: PArray, k: Key, v: Value)
    requires Find(a, k) == Some(v)
    ensures Put(a, k, v) == a
  {
    if a[0].0 != k {
      PutFound(a[1..], k, v);
      assert [a[0]] + a[1..] == a;
    } else {
      assert [(k, v)] + a[1..] == a;
    }
  }

  lemma {:induction false} PutKeepsUniqueKeys(a: PArray, k: Key, v: Value)
    requires UniqueKeys(a)
    ensures UniqueKeys(Put(a, k, v))
  {
    var r := Put(a, k, v);
    if Find(a, k).None? {
      assert r == a + [(k, v)];
    } else {
      forall i, j | 0 <= i < j < |r| ensures r[i].0 != r[j].0 {
        assert r[i].0 == a[i].0 && r[j].0 == a[j].0;
      }
    }
  }

  /** The (array) cast: null is [], an array is itself, anything else is [value]. */
  function Cast(v: Value): (r: PArray)
    ensures v.Null? ==> r == []
    ensures v.Arr? ==> r == v.entries
    ensures !v.Null? && !v.Arr? ==> r == [(IntK(0), v)]
  {
    match v
    case Null => []
    case Arr(e) => e
    case _ => [(IntK(0), v)]
  }

  // ---------------------------------------------------------------------------
  // array_merge
  // ---------------------------------------------------------------------------

  /**
   * The loop inside PHP's array_merge: every integer-keyed entry is appended with
   * the next index, every string-keyed entry is assigned under its key (see Put).
   */
  function Renumber(acc: PArray, next: int, rest: PArray): PArray
    decreases |rest|
  {
    if rest == [] then acc
    else
      match rest[0].0
      case IntK(_) => Renumber(acc + [(IntK(next), rest[0].1)], next + 1, rest[1..])
      case StrK(s) => Renumber(Put(acc, StrK(s), rest[0].1), next, rest[1..])
  }

  /** PHP's array_merge of a and b (also the spread of a followed by b). */
  function ArrayMerge(a: PArray, b: PArray): PArray {
    Renumber([], 0, a + b)
  }

  /** The value of the LAST entry with key k (PHP arrays have one, so it is also the first). */
  function FindLast(a: PArray, k: Key): Option<Value> {
    if a == [] then None
    else
      var later := FindLast(a[1..], k);
      if later.Some? then later
      else if a[0].0 == k then Some(a[0].1)
      else None
  }

  lemma {:induction false} FindLastIsFind(a: PArray, k: Key)
    requires UniqueKeys(a)
    ensures FindLast(a, k) == Find(a, k)
  {
    if a != [] {
      assert UniqueKeys(a[1..]) by {
        forall i, j | 0 <= i < j < |a[1..]| ensures a[1..][i].0 != a[1..][j].0 {
          assert a[1..][i] == a[i + 1] && a[1..][j] == a[j + 1];
        }
      }
      FindLastIsFind(a[1..], k);
      if a[0].0 == k {
        assert forall i :: 0 <= i < |a[1..]| ==> a[1..][i].0 != k by {
          forall i | 0 <= i < |a[1..]| ensures a[1..][i].0 != k {
            assert a[1..][i] == a[i + 1];
          }
        }
      }
    }
  }

  lemma {:induction false} FindLastConcat(a: PArray, b: PArray, k: Key)
    ensures FindLast(a + b, k) == (if FindLast(b, k).Some? then FindLast(b, k) else FindLast(a, k))
  {
    if a == [] {
      assert a + b == b;
    } else {
      assert (a + b)[1..] == a[1..] + b;
      FindLastConcat(a[1..], b, k);
    }
  }

  lemma {:induction false} FindAppendOther(a: PArray, e: (Key, Value), k: Key)
    requires e.0 != k
    ensures Find(a + [e], k) == Find(a, k)
  {
    if a != [] {
      assert (a + [e])[1..] == a[1..] + [e];
      FindAppendOther(a[1..], e, k);
    }
  }

  lemma {:induction false} RenumberStringLookup(acc: PArray, next: int, rest: PArray, s: string)
    ensures Find(Renumber(acc, next, rest), StrK(s))
         == (if FindLast(rest, StrK(s)).Some? then FindLast(rest, StrK(s)) else Find(acc, StrK(s)))
    decreases |rest|
  {
    if rest != [] {
      match rest[0].0
      case IntK(_) =>
        FindAppendOther(acc, (IntK(next), rest[0].1), StrK(s));
        RenumberStringLookup(acc + [(IntK(next), rest[0].1)], next + 1, rest[1..], s);
      case StrK(t) =>
        RenumberStringLookup(Put(acc, StrK(t), rest[0].1), next, rest[1..], s);
    }
  }

  /** array_merge on a string key: the later array wins, otherwise the earlier one's value stays. */
  lemma ArrayMergeStringLookup(a: PArray, b: PArray, s: string)
    requires UniqueKeys(a) && UniqueKeys(b)
    ensures Find(ArrayMerge(a, b), StrK(s))
         == (if Find(b, StrK(s)).Some? then Find(b, StrK(s)) else Find(a, StrK(s)))
  {
    RenumberStringLookup([], 0, a + b, s);
    FindLastConcat(a, b, StrK(s));
    FindLastIsFind(a, StrK(s));
    FindLastIsFind(b, StrK(s));
  }

  /** The integer-keyed entries of an array, in order. */
  function IntEntries(a: PArray): PArray {
    if a == [] then []
    else if a[0].0.IntK? then [a[0]] + IntEntries(a[1..])
    else IntEntries(a[1..])
  }

  /** The values stored under integer keys, in order. */
  function IntValues(a: PArray): seq<Value> {
    if a == [] then []
    else if a[0].0.IntK? then [a[0].1] + IntValues(a[1..])
    else IntValues(a[1..])
  }

  /** The list [n => vs[0], n+1 => vs[1], ...]. */
  function Numbered(vs: seq<Value>, n: int): PArray
    decreases |vs|
  {
    if vs == [] then [] else [(IntK(n), vs[0])] + Numbered(vs[1..], n + 1)
  }

  lemma {:induction false} IntEntriesConcat(a: PArray, b: PArray)
    ensures IntEntries(a + b) == IntEntries(a) + IntEntries(b)
  {
    if a == [] {
      assert a + b == b;
    } else {
      assert (a + b)[1..] == a[1..] + b;
      IntEntriesConcat(a[1..], b);
    }
  }

  lemma {:induction false} IntValuesConcat(a: PArray, b: PArray)
    ensures IntValues(a + b) == IntValues(a) + IntValues(b)
  {
    if a == [] {
      assert a + b == b;
    } else {
      assert (a + b)[1..] == a[1..] + b;
      IntValuesConcat(a[1..], b);
    }
  }

  lemma {:induction false} PutStringKeepsIntEntries(a: PArray, s: string, v: Value)
    ensures IntEntries(Put(a, StrK(s), v)) == IntEntries(a)
  {
    if a != [] && a[0].0 != StrK(s) {
      PutStringKeepsIntEntries(a[1..], s, v);
      assert Put(a, StrK(s), v) == [a[0]] + Put(a[1..], StrK(s), v);
    }
  }

  lemma {:induction false} RenumberIntEntries(acc: PArray, next: int, rest: PArray)
    ensures IntEntries(Renumber(acc, next, rest)) == IntEntries(acc) + Numbered(IntValues(rest), next)
    decreases |rest|
  {
    if rest != [] {
      match rest[0].0
      case IntK(_) =>
        RenumberIntEntries(acc + [(IntK(next), rest[0].1)], next + 1, rest[1..]);
        IntEntriesConcat(acc, [(IntK(next), rest[0].1)]);
        assert IntValues(rest) == [rest[0].1] + IntValues(rest[1..]);
      case StrK(t) =>
        RenumberIntEntries(Put(acc, StrK(t), rest[0].1), next, rest[1..]);
        PutStringKeepsIntEntries(acc, t, rest[0].1);
    }
  }

  /** array_merge renumbers: the integer-keyed part of the result is 0, 1, 2, ... over both inputs' lists. */
  lemma ArrayMergeRenumbers(a: PArray, b: PArray)
    ensures IntEntries(ArrayMerge(a, b)) == Numbered(IntValues(a) + IntValues(b), 0)
  {
    RenumberIntEntries([], 0, a + b);
    IntValuesConcat(a, b);
  }

  /** A list: its keys are exactly 0, 1, 2, ... in order. */
  predicate IsList(a: PArray) {
    forall i :: 0 <= i < |a| ==> a[i].0 == IntK(i)
  }

  lemma {:induction false} NumberedIsList(vs: seq<Value>, n: int)
    ensures |Numbered(vs, n)| == |vs|
    ensures forall i :: 0 <= i < |vs| ==> Numbered(vs, n)[i] == (IntK(n + i), vs[i])
    decreases |vs|
  {
    if vs != [] {
      NumberedIsList(vs[1..], n + 1);
    }
  }

  lemma {:induction false} AllIntEntries(a: PArray)
    requires forall i :: 0 <= i < |a| ==> a[i].0.IntK?
    ensures IntEntries(a) == a
  {
    if a != [] {
      AllIntEntries(a[1..]);
    }
  }

  lemma {:induction false} ListValues(a: PArray)
    requires IsList(a)
    ensures Numbered(IntValues(a), 0) == a
  {
    ListValuesFrom(a, 0);
  }

  lemma {:induction false} ListValuesFrom(a: PArray, n: int)
    requires forall i :: 0 <= i < |a| ==> a[i].0 == IntK(n + i)
    ensures Numbered(IntValues(a), n) == a
    decreases |a|
  {
    if a != [] {
      forall i | 0 <= i < |a[1..]| ensures a[1..][i].0 == IntK(n + 1 + i) {
        assert a[1..][i] == a[i + 1];
      }
      ListValuesFrom(a[1..], n + 1);
    }
  }

  /** Merging nothing onto a list leaves it. */
  lemma ArrayMergeEmptyList(a: PArray)
    requires IsList(a)
    ensures ArrayMerge(a, []) == a
  {
    ArrayMergeOfLists(a, []);
    assert Numbered(IntValues([]), |a|) == [];
  }

  /** array_merge of two lists is their concatenation (appending to a list keeps it a list). */
  lemma ArrayMergeOfLists(a: PArray, b: PArray)
    requires IsList(a) && IsList(b)
    ensures IsList(ArrayMerge(a, b))
    ensures ArrayMerge(a, b) == a + Numbered(IntValues(b), |a|)
  {
    var vs := IntValues(a) + IntValues(b);
    assert ArrayMerge(a, b) == Numbered(vs, 0) by {
      ListIsAllInts(a);
      ListIsAllInts(b);
      ConcatAllInts(a, b);
      RenumberAllInts([], 0, a + b);
      IntValuesConcat(a, b);
    }
    NumberedList(vs);
    assert Numbered(vs, 0) == a + Numbered(IntValues(b), |a|) by {
      ListValues(a);
      NumberedLength(IntValues(a), 0);
      NumberedConcat(IntValues(a), IntValues(b), 0);
    }
  }

  lemma NumberedList(vs: seq<Value>)
    ensures IsList(Numbered(vs, 0))
  {
    NumberedIsList(vs, 0);
  }

  lemma {:induction false} NumberedLength(vs: seq<Value>, n: int)
    ensures |Numbered(vs, n)| == |vs|
    decreases |vs|
  {
    if vs != [] {
      NumberedLength(vs[1..], n + 1);
    }
  }

  lemma ListIsAllInts(a: PArray)
    requires IsList(a)
    ensures forall i :: 0 <= i < |a| ==> a[i].0.IntK?
  {
  }

  lemma ConcatAllInts(a: PArray, b: PArray)
    requires forall i :: 0 <= i < |a| ==> a[i].0.IntK?
    requires forall i :: 0 <= i < |b| ==> b[i].0.IntK?
    ensures forall i :: 0 <= i < |a + b| ==> (a + b)[i].0.IntK?
  {
  }

  lemma {:induction false} NumberedConcat(xs: seq<Value>, ys: seq<Value>, n: int)
    ensures Numbered(xs + ys, n) == Numbered(xs, n) + Numbered(ys, n + |xs|)
    decreases |xs|
  {
    if xs == [] {
      assert xs + ys == ys;
    } else {
      assert (xs + ys)[1..] == xs[1..] + ys;
      NumberedConcat(xs[1..], ys, n + 1);
    }
  }

  lemma {:induction false} RenumberAllInts(acc: PArray, next: int, rest: PArray)
    requires forall i :: 0 <= i < |rest| ==> rest[i].0.IntK?
    ensures Renumber(acc, next, rest) == acc + Numbered(IntValues(rest), next)
    decreases |rest|
  {
    if rest != [] {
      assert rest[0].0.IntK?;
      forall i | 0 <= i < |rest[1..]| ensures rest[1..][i].0.IntK? {
        assert rest[1..][i] == rest[i + 1];
      }
      RenumberAllInts(acc + [(IntK(next), rest[0].1)], next + 1, rest[1..]);
    }
  }

  /** Every integer key of `a` is below `n`. */
  ghost predicate IntKeysBelow(a: PArray, n: int) {
    forall i :: 0 <= i < |a| && a[i].0.IntK? ==> a[i].0.n < n
  }

  lemma {:induction false} RenumberUnique(acc: PArray, next: int, rest: PArray)
    requires UniqueKeys(acc) && IntKeysBelow(acc, next)
    ensures UniqueKeys(Renumber(acc, next, rest))
    decreases |rest|
  {
    if rest != [] {
      match rest[0].0
      case IntK(_) =>
        RenumberUnique(acc + [(IntK(next), rest[0].1)], next + 1, rest[1..]);
      case StrK(t) =>
        var acc' := Put(acc, StrK(t), rest[0].1);
        PutKeepsUniqueKeys(acc, StrK(t), rest[0].1);
        assert IntKeysBelow(acc', next) by {
          if Find(acc, StrK(t)).None? {
            assert acc' == acc + [(StrK(t), rest[0].1)];
          } else {
            forall i | 0 <= i < |acc'| && acc'[i].0.IntK? ensures acc'[i].0.n < next {
              assert acc'[i].0 == acc[i].0;
            }
          }
        }
        RenumberUnique(acc', next, rest[1..]);
    }
  }

  /** array_merge always yields a proper PHP array: no key twice. */
  lemma ArrayMergeUnique(a: PArray, b: PArray)
    ensures UniqueKeys(ArrayMerge(a, b))
  {
    RenumberUnique([], 0, a + b);
  }
}
