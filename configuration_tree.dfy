/**
 * The static helpers of Configuration: the stored configuration is a PHP array
 * whose nested arrays are reached by the segments of a dot-notation key.
 * Every helper takes the array and returns the array to store, or the
 * exception it throws.
 */
module ConfigurationTree {
  import opened Results
  import opened PhpArrays
  import opened ConfigurationErrors
  import opened ConfigurationKeys
  import opened ConfigurationValues

  // ---------------------------------------------------------------------------
  // Reading
  // ---------------------------------------------------------------------------

  /** The value reached from v by following path through nested arrays, if every step exists. */
  function LookupPath(v: Value, path: seq<string>): Option<Value>
    decreases |path|
  {
    if path == [] then Some(v)
    else if !v.Arr? then None
    else
      match Find(v.entries, StrK(path[0]))
      case None => None
      case Some(c) => LookupPath(c, path[1..])
  }

  /** traverseConfigurationSegment: one step of the lookup, as a (found, value) pair. */
  function Traverse(state: (bool, Value), segment: string): (r: (bool, Value))
    ensures !r.0 ==> r.1 == Null || r == state
    ensures !state.0 ==> r == state
  {
    if !state.0 then state
    else if !state.1.Arr? then (false, Null)
    else
      match Find(state.1.entries, StrK(segment))
      case Some(c) => (true, c)
      case None => (false, Null)
  }

  /** array_reduce of Traverse over the segments. */
  function ResolveFold(state: (bool, Value), segments: seq<string>): (bool, Value)
    decreases |segments|
  {
    if segments == [] then state else ResolveFold(Traverse(state, segments[0]), segments[1..])
  }

  /** resolveValueByDotNotationKey. */
  function Resolve(root: PArray, key: string): Result<(bool, Value), ConfigError> {
    match ValidateKey(key)
    case Err(e) => Err(e)
    case Ok(segments) => Ok(ResolveFold((true, Arr(root)), segments))
  }

  /** Configuration::get: the value at key, or the default when some segment is missing. */
  function GetKey(root: PArray, key: string, default: Value): Result<Value, ConfigError> {
    match Resolve(root, key)
    case Err(e) => Err(e)
    case Ok((found, value)) => Ok(if found then value else default)
  }

  /** Configuration::has. */
  function HasKey(root: PArray, key: string): Result<bool, ConfigError> {
    match Resolve(root, key)
    case Err(e) => Err(e)
    case Ok((found, _)) => Ok(found)
  }

  // ---------------------------------------------------------------------------
  // set, append and prepend: the walk with getChildArrayOrThrowIfInvalid
  // ---------------------------------------------------------------------------

  /** What happens at the leaf segment. */
  datatype LeafOp = Assign | AppendTo | PrependTo

  /** The operation's name in the InvalidConfigurationKeyException message. */
  function OpName(op: LeafOp): string {
    match op
    case Assign => "set"
    case AppendTo => "append to"
    case PrependTo => "prepend to"
  }

  /**
   * getChildArrayOrThrowIfInvalid: a missing or null child is an empty array,
   * an array child is itself, anything else is an error naming the segment.
   */
  function ChildArray(node: PArray, segment: string, fullKey: string, operation: string): (r: Result<PArray, ConfigError>)
    ensures r.Err? <==> (Find(node, StrK(segment)).Some?
      && !Find(node, StrK(segment)).value.Null? && !Find(node, StrK(segment)).value.Arr?)
  {
    match Find(node, StrK(segment))
    case None => Ok([])
    case Some(Null) => Ok([])
    case Some(Arr(e)) => Ok(e)
    case Some(w) => Err(InvalidKey(operation, fullKey, segment, TypeName(w)))
  }

  /**
   * The new leaf value: set stores the value, append merges the existing value's
   * list with the new one's (existing first), prepend the other way round. Both
   * wrap the value that comes first in array_merge's arguments first.
   */
  function LeafResult(existing: Value, op: LeafOp, v: Value): Result<Value, ConfigError> {
    match op
    case Assign => Ok(v)
    case AppendTo =>
      (match WrapInList(existing)
       case Err(e) => Err(e)
       case Ok(a) =>
         match WrapInList(v)
         case Err(e) => Err(e)
         case Ok(b) => Ok(Arr(ArrayMerge(a, b))))
    case PrependTo =>
      match WrapInList(v)
      case Err(e) => Err(e)
      case Ok(b) =>
        match WrapInList(existing)
        case Err(e) => Err(e)
        case Ok(a) => Ok(Arr(ArrayMerge(b, a)))
  }

  /** appendToFinalSegment, prependToFinalSegment and the last step of setNestedValue. */
  function ApplyLeaf(node: PArray, last: string, op: LeafOp, v: Value): Result<PArray, ConfigError> {
    match LeafResult(Find(node, StrK(last)).GetOr(Null), op, v)
    case Err(e) => Err(e)
    case Ok(x) => Ok(Put(node, StrK(last), x))
  }

  /** setNestedValue, appendNestedValue and prependNestedValue: the walk down to the leaf. */
  function UpdateAt(node: PArray, segments: seq<string>, last: string, op: LeafOp, v: Value, fullKey: string)
    : Result<PArray, ConfigError>
    decreases |segments|
  {
    if segments == [] then ApplyLeaf(node, last, op, v)
    else
      match ChildArray(node, segments[0], fullKey, OpName(op))
      case Err(e) => Err(e)
      case Ok(child) =>
        match UpdateAt(child, segments[1..], last, op, v, fullKey)
        case Err(e) => Err(e)
        case Ok(sub) => Ok(Put(node, StrK(segments[0]), Arr(sub)))
  }

  /** prepareKeySegmentsAndValue followed by the walk: set, append or prepend at key. */
  function UpdateKey(root: PArray, key: string, op: LeafOp, value: Value): Result<PArray, ConfigError> {
    match SplitKey(key)
    case Err(e) => Err(e)
    case Ok((segments, last)) =>
      match Normalize(key, value)
      case Err(e) => Err(e)
      case Ok(n) => UpdateAt(root, segments, last, op, n, key)
  }

  // ---------------------------------------------------------------------------
  // merge
  // ---------------------------------------------------------------------------

  /**
   * mergeNestedValue: an intermediate that is missing or not an array is
   * replaced by an array, and the leaf gets mergeTwoValues(existing, value).
   */
  function MergeNested(node: PArray, segments: seq<string>, last: string, v: Value): PArray
    decreases |segments|
  {
    if segments == [] then Put(node, StrK(last), MergeTwoValues(Find(node, StrK(last)).GetOr(Null), v))
    else
      var child := ArrayOrEmpty(node, segments[0]);
      Put(node, StrK(segments[0]), Arr(MergeNested(child, segments[1..], last, v)))
  }

  /** The child at segment, a missing one or a non-array replaced by []. */
  function ArrayOrEmpty(node: PArray, segment: string): PArray {
    match Find(node, StrK(segment))
    case Some(Arr(e)) => e
    case _ => []
  }

  /** mergeKeyValuePair: the key must be a string and a valid dot-notation key. */
  function MergePair(root: PArray, key: Key, value: Value): Result<PArray, ConfigError> {
    match key
    case IntK(_) => Err(KeyMustBeString)
    case StrK(s) =>
      match SplitKey(s)
      case Err(e) => Err(e)
      case Ok((segments, last)) =>
        match Normalize(s, value)
        case Err(e) => Err(e)
        case Ok(n) => Ok(MergeNested(root, segments, last, n))
  }

  /** How a merge of several pairs ends: all applied, or stopped by an error after some were. */
  datatype MergeRun = Done(root: PArray) | Stopped(root: PArray, error: ConfigError)

  /** Configuration::merge: the pairs in order; the ones before a failing pair stay merged. */
  function MergeAll(root: PArray, pairs: PArray): MergeRun
    decreases |pairs|
  {
    if pairs == [] then Done(root)
    else
      match MergePair(root, pairs[0].0, pairs[0].1)
      case Err(e) => Stopped(root, e)
      case Ok(r) => MergeAll(r, pairs[1..])
  }

  // ---------------------------------------------------------------------------
  // unset and wrap
  // ---------------------------------------------------------------------------

  /** unsetNestedValue: a missing or non-array intermediate leaves the array as it is. */
  function UnsetNested(node: PArray, segments: seq<string>): PArray
    requires |segments| >= 1
    decreases |segments|
  {
    if |segments| == 1 then Remove(node, StrK(segments[0]))
    else
      match Find(node, StrK(segments[0]))
      case Some(Arr(e)) => Put(node, StrK(segments[0]), Arr(UnsetNested(e, segments[1..])))
      case _ => node
  }

  /** Configuration::unset: an exact top-level key is removed as it is, any other key is walked. */
  function UnsetKey(root: PArray, key: string): Result<PArray, ConfigError> {
    if KeyExists(root, StrK(key)) then Ok(Remove(root, StrK(key)))
    else
      match ValidateKey(key)
      case Err(e) => Err(e)
      case Ok(segments) => Ok(UnsetNested(root, segments))
  }

  /** Configuration::wrap: the contents of the new configuration built from the array at key. */
  function WrapKey(root: PArray, key: string, default: PArray): Result<PArray, ConfigError> {
    match GetKey(root, key, Arr(default))
    case Err(e) => Err(e)
    case Ok(Arr(e)) =>
      (match MergeAll([], e)
       case Done(r) => Ok(r)
       case Stopped(_, x) => Err(x))
    case Ok(w) => Err(CannotWrap(key, TypeName(w)))
  }
}
