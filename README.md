# ghostwriter/config in Dafny

A model of the core of the PHP library ghostwriter/config and proofs about it.
The library keeps application settings in nested PHP arrays, addressed by
dotted keys. The model covers three classes.

- **Configuration** (`src/Configuration.php`) validates every key. A key is
  split at `.`, `/` or `\` into segments, and each segment must be non-blank.
  Values are normalised: an embedded configuration becomes its array, and
  objects, closures and resources under string keys are rejected. The class offers get, has, set, append, prepend, unset, merge
  (including merging a PHP file or a whole directory of them), wrap, reset
  and toArray. Every operation walks the key's segments one array at a time.
- **Config** (`src/Config.php`) is the older object. It does no validation.
  A key that contains `.` is exploded and walked with PHP references; any
  other key goes straight to the top level. It offers get, has, set, remove,
  append, prepend, merge, mergeConfig, mergeFromPath, split, count, toArray
  and ArrayAccess.
- **ConfigFactory** (`src/ConfigFactory.php`) builds a Config from an array,
  from one PHP file (filed under the file's base name), or from every PHP
  file under a directory (nested by the file's path below the directory).

## How the model is built

- A PHP array is `PArray = seq<(Key, Value)>`. The keys are integers or
  strings, the entries keep their insertion order, and a PHP array never
  holds the same key twice.
  - Reading a key takes its first occurrence (`PhpArrays.Find`).
  - Assignment replaces in place or appends (`Put`).
  - `unset` is `Remove`.
  - `array_merge` and the `[...$a, ...$b]` spread are `ArrayMerge`, which
    renumbers integer keys and lets later string keys win.
- PHP values are the datatype `Value`:
  - null, bool, int, float (an opaque bit pattern), string and array;
  - `Tree`, an embedded Configuration known by its array;
  - `Object`, any other object, closure or resource, known by its class
    name. A Config object also carries its options.
- Exceptions and PHP Errors are datatypes:
  - `ConfigurationErrors.ConfigError`, one constructor per kind of failure
    Configuration throws for, grouped by exception class. Throw sites that
    fail for the same reason share a constructor (`InvalidKey` carries the
    operation), and one class can have several constructors
    (InvalidConfigurationValueException is `InvalidValue` or `CannotWrap`,
    ConfigurationDirectoryNotFoundException is `DirectoryNotResolvable` or
    `DirectoryNotFound`);
  - `Config.Fault` for the TypeError/Error cases of Config;
  - `ConfigFactory.FactoryError` for the factory.

  An operation returns a `Result` or an `Outcome`. A method whose operation
  fails leaves the object exactly as it was, except for merge, which is not
  atomic (below).
- Configuration and Config are classes whose methods update the one field
  (`root`, respectively `options`). Each method is proved against a
  specification function of the old state:
  - Configuration: `UpdateKey`, `UnsetKey`, `MergeAll`, `MergeFileRun`,
    `MergeDirectoryRun`, `WrapKey`, `GetKey` and `HasKey`;
  - Config: `UpdateValue`, `GetValue`, `HasValue`, `AppendValue`,
    `PrependValue`, `MergeFromPathValue` and `SplitValue`.

  The laws modules prove what those functions promise.
- Loops in the source are `while` loops with invariants:
  - the array_walk in mergeDirectory (`Configuration.Configuration.MergeFiles`);
  - the foreach of Config::get and Config::has;
  - the reference walks of Config::set and Config::remove
    (`Config.Descend`, `Config.Ascend`);
  - the factory's per-file nesting walk (`ConfigFactory.Descend`) and its
    loop over the files (`ConfigFactory.CreateFromDirectory`).

  A walk through PHP references is modelled as the list of arrays it passes
  (a "trail"). The modified array is then rebuilt from the bottom up
  (`Config.Rebuild`).
- The file system, `require` and the directory iterator are inputs:
  - Configuration receives a `FileState` per file, telling whether it
    exists, is readable, and what requiring it returns or raises.
    mergeDirectory also receives the `Directory` listing: whether the
    directory resolves (`Directory.Unresolvable`) and, per listed file,
    its real path if it resolves (`ListedFile.realPath`).
  - ConfigFactory receives, per path, whether it is a file or a directory,
    the files the iterator yields in the iterator's order, and what
    requiring each file gives (`Loaded`). A ConfigProviderInterface object
    is described by the options it leaves in the fresh Config it is given.

## Behaviour at the edges

What the code does where a reader might expect otherwise:

- **set through a scalar.** Configuration's set, append and prepend throw
  InvalidConfigurationKeyException when an intermediate segment holds a
  non-null non-array (`ChildArray`, `ConfigurationLaws.UpdateFailsIff`).
  They do not promote it to an array. Three tests are named as if set
  promoted a scalar (tests/Unit/Exception/InvalidConfigurationKeyExceptionTest.php:147-202,
  "...PromotesToArray"), but each expects InvalidConfigurationKeyException.
  Only merge promotes a non-array intermediate to `[]`
  (`ConfigurationLaws.MergeReachesLeaf`).
- **get/has through a non-array.** Configuration's get and has give the
  default or false when the path runs through a non-array
  (`ConfigurationLaws.GetIsLookup`). Config's dotted get and has call
  array_key_exists on whatever they reached, so a scalar or null on the way
  raises a TypeError. The model returns `NotAnArray` there
  (`ConfigLaws.WalkIsLookup`). Two tests (tests/unit/ConfigTest.php:176-212,
  testGetRecursively and testHasWithNonArray) expect the default and false
  for `foo.bar.baz` over `['foo' => ['bar' => 'baz']]`; the code as written
  reaches array_key_exists with the string `'baz'` there and raises.
- **merge is not atomic.** Configuration::merge stores each pair as it goes,
  so a bad pair leaves the earlier pairs merged
  (`ConfigurationLaws.MergeStopsAtFailure`). The same holds for
  mergeDirectory across files.
- **set through a non-array in Config.** Config's set and remove through a
  scalar, or through an object that does not implement ArrayAccess, raise a
  PHP Error. The model returns `NotAnArray` with nothing changed
  (`ConfigLaws.UpdateFailsIff`). Through an ArrayAccess object stored in the
  options (a Config, which the factory stores, or an ArrayObject, …), PHP does
  not fail but goes through ArrayAccess. The model does not follow that
  dispatch and also returns `NotAnArray` (see `Config.PathUpdate` under
  "Left out").

## Model

| member | source | states |
|---|---|---|
| ConfigurationKeys.BlankIsTrimEmpty | src/Configuration.php:420-425 | A key is blank (every character is one mb_trim strips by default) exactly when mb_trim leaves the empty string |
| ConfigurationKeys.ValidateKey | src/Configuration.php:893-904 | A blank key is KeyMustBeNonEmpty and nothing else is; otherwise a key either fails with InvalidDotNotationKey or splits at `.`, `/`, `\` into at least one segment, each non-blank and separator-free |
| ConfigurationKeys.SplitKey | src/Configuration.php:821-828 | Succeeds exactly when validation does, giving the segments before the last and the last one, whose concatenation is the validated path |
| ConfigurationKeys.ValidateJoin | src/Configuration.php:676-686 | Joining good segments with any separator and validating the key gives back exactly those segments |
| ConfigurationKeys.SeparatorsInterchangeable | src/Configuration.php:64 | `.`, `/` and `\` are interchangeable: keys that differ only in the separator validate to the same path |
| ConfigurationKeys.ValidateGoodParts | src/Configuration.php:893-904 | A non-blank key whose pieces are all good segments validates to those pieces |
| ConfigurationKeys.BlankSegmentRejected | src/Configuration.php:365-370 | A non-blank key with one blank segment fails with InvalidDotNotationKey naming the key |
| ConfigurationKeys.ReplaceJoin | src/Configuration.php:361 | Replacing the separator of a join by another character equals joining with that character |
| ConfigurationKeys.FileKeyOfNestedPath | src/Configuration.php:355-362 | The file `<dir>/a/b/c.php` gets the key `a.b.c`, which validates back to the path a, b, c when the segments are good |
| ConfigurationValues.Collect | src/Configuration.php:618-629 | The normalised entries succeed exactly when every entry does; they keep each key and its position; otherwise the error is the first failing entry's |
| ConfigurationValues.Normalize | src/Configuration.php:632-673 | An object is InvalidValue naming the key and its type; a non-array non-object is accepted; normalising an array keeps its length and keys |
| ConfigurationValues.NormalizeSucceedsIff | src/Configuration.php:618-673 | Normalisation succeeds exactly on admissible values: no object, closure or resource under a string key (integer-keyed objects pass) |
| ConfigurationValues.NormalizeStored | src/Configuration.php:652-659 | Normalising a value that is already in stored form changes nothing |
| ConfigurationValues.NormalizeYieldsStored | src/Configuration.php:632-639 | What normalisation yields is in stored form: embedded configurations are replaced by their arrays |
| ConfigurationValues.WrapStored | src/Configuration.php:925-936 | wrapValueInList of a stored value is PHP's (array) cast: null gives [], an array stays, a scalar becomes a one-element list |
| ConfigurationValues.MergeTwoValuesStringKey | src/Configuration.php:600-611 | Merging two arrays lets the incoming value win on every string key it has and keeps the existing value elsewhere |
| ConfigurationValues.MergeTwoValuesStored | src/Configuration.php:600-611 | Merging two stored values yields a stored value |
| ConfigurationValues.ArrayMergeStored | src/Configuration.php:606 | array_merge of two stored arrays is stored |
| ConfigurationTree.Traverse | src/Configuration.php:831-848 | One step of the fold: a state already not found passes through unchanged, and a step that loses the path gives not found with a null value |
| ConfigurationTree.ChildArray | src/Configuration.php:444-471 | Fails exactly when the child exists and holds neither null nor an array |
| ConfigurationLaws.ResolveIsLookup | src/Configuration.php:771-778 | The array_reduce of traverseConfigurationSegment is the path lookup: found with the value, or not found with null |
| ConfigurationLaws.ResolveNotFound | src/Configuration.php:839-841 | Once a segment is missing, the rest of the fold stays not found |
| ConfigurationLaws.GetIsLookup | src/Configuration.php:109-127 | get returns the value at the key's path (a stored null included) or the default when the path does not exist; has says whether it exists; both reject an invalid key with its validation error |
| ConfigurationLaws.UpdateReachesLeaf | src/Configuration.php:786-814 | After a successful set, append or prepend, the leaf holds the new leaf value computed from the old one (null when missing) |
| ConfigurationLaws.UpdateOthers | src/Configuration.php:786-814 | A successful set, append or prepend leaves every path that branches off the key's path unchanged |
| ConfigurationLaws.UpdateFailsIff | src/Configuration.php:444-471 | The walk fails exactly when some intermediate segment holds a non-null non-array, and the error is InvalidKey naming that segment, the operation and the value's type |
| ConfigurationLaws.LeafSucceeds | src/Configuration.php:310-317 | Computing the new leaf never fails for set, or for append and prepend of stored values |
| ConfigurationLaws.SetThenGet | src/Configuration.php:192-204 | After a successful set, has is true, get returns the normalised value, and every diverging path is unchanged |
| ConfigurationLaws.SetFailsIff | src/Configuration.php:192-204 | set of a valid key and value fails exactly when a segment above the leaf is blocked by a scalar |
| ConfigurationLaws.AppendPrependLeaf | src/Configuration.php:290-340 | append stores array_merge of the cast old value and the cast new value; prepend stores them the other way round |
| ConfigurationLaws.AppendScalarToList | src/Configuration.php:310-317 | Appending a scalar to a list pushes it at the end with the next index |
| ConfigurationLaws.AppendNullKeepsList | src/Configuration.php:310-317 | Appending null leaves a list (or a missing key, read as []) unchanged, so repeated append(k, null) keeps yielding [] |
| ConfigurationLaws.PrependScalarToList | src/Configuration.php:727-734 | Prepending a scalar to a list puts it at index 0 and renumbers the rest from 1 |
| ConfigurationLaws.MergeReachesLeaf | src/Configuration.php:547-598 | After merging, the leaf holds mergeTwoValues(old value or null, new value); a non-array intermediate is replaced by [], so the walk never fails |
| ConfigurationLaws.MergeOthers | src/Configuration.php:562-579 | A nested merge leaves every path that branches off the key's path unchanged |
| ConfigurationLaws.MergePairEffect | src/Configuration.php:244-256 | An integer key is KeyMustBeString; an invalid string key is its validation error; a valid pair merges at its path and leaves diverging paths unchanged |
| ConfigurationLaws.MergeAllConcat | src/Configuration.php:131-134 | Merging p1 + p2 merges p1 and then p2 in order; the first failure stops the walk |
| ConfigurationLaws.MergeStopsAtFailure | src/Configuration.php:131-134 | A failing pair stops merge with the pairs before it already stored (merge is not atomic) |
| ConfigurationLaws.MergeFreshKeys | src/Configuration.php:244-256 | Merging good flat keys into an array that has none of them appends the pairs in order |
| ConfigurationLaws.UnsetRemoves | src/Configuration.php:855-886 | After unsetNestedValue the path no longer exists |
| ConfigurationLaws.UnsetOthers | src/Configuration.php:867-886 | unsetNestedValue leaves every diverging path unchanged |
| ConfigurationLaws.UnsetAbsentNoop | src/Configuration.php:867-886 | unsetNestedValue of a path that does not exist, or that runs through a non-array, leaves the array exactly as it was |
| ConfigurationLaws.UnsetKeepsParent | src/Configuration.php:867-886 | unsetNestedValue removes only the last segment: every array on the way to it is still an array afterwards |
| ConfigurationLaws.UnsetEffect | src/Configuration.php:215-224 | A top-level key that is present is removed directly, even if it is not a valid key; otherwise an invalid key is its validation error, and a valid key's path is removed, diverging paths are kept, a missing path leaves the tree as it is, and the arrays on the way stay arrays |
| ConfigurationLaws.WrapRoundTrip | src/Configuration.php:228-241 | Wrapping an array of good string keys gives a configuration holding exactly that array |
| ConfigurationLaws.WrapMissing | src/Configuration.php:228-241 | Wrapping a missing key gives a configuration built from the default |
| ConfigurationLaws.WrapNonArray | src/Configuration.php:228-241 | Wrapping a non-array value (null included) is CannotWrap naming the key and the value's type |
| ConfigurationLaws.WrapOfListFails | src/Configuration.php:244-256 | Wrapping a list is KeyMustBeString, because its integer keys reach mergeKeyValuePair |
| ConfigurationLaws.UpdateKeyKeepsWellFormed | src/Configuration.php:192-204 | set, append and prepend keep the tree well formed: stored values only at every level, and no top-level key twice |
| ConfigurationLaws.UpdateKeepsWellFormed | src/Configuration.php:786-814 | The walk of set, append and prepend keeps a well-formed array well formed |
| ConfigurationLaws.StoredUpdateAt | src/Configuration.php:786-814 | The walk keeps every value in stored form |
| ConfigurationLaws.StoredMergeNested | src/Configuration.php:587-598 | The nested merge keeps every value in stored form |
| ConfigurationLaws.StoredUnsetNested | src/Configuration.php:855-860 | The nested unset keeps every value in stored form |
| ConfigurationLaws.MergePairKeepsWellFormed | src/Configuration.php:244-256 | Merging one pair keeps the tree well formed |
| ConfigurationLaws.MergeAllKeepsWellFormed | src/Configuration.php:131-134 | merge keeps the tree well formed, including when it stops early |
| ConfigurationLaws.UnsetKeyKeepsWellFormed | src/Configuration.php:215-224 | unset keeps the tree well formed |
| ConfigurationLaws.WellFormedPut | src/Configuration.php:316 | Storing a stored value under a string key keeps an array well formed |
| ConfigurationLaws.RemoveKeepsUniqueKeys | src/Configuration.php:223 | unset of a key keeps every key unique |
| ConfigurationLaws.StoredLookup | src/Configuration.php:831-848 | Whatever a lookup reaches in a stored tree is stored |
| Configuration.LoadFile | src/Configuration.php:508-544 | Loading succeeds exactly when the file returns an array, and then gives that array; a missing file, an unreadable file and a non-array result are each reported by their own exception and only in that case |
| Configuration.FailedLoadChangesNothing | src/Configuration.php:158-167 | A file that cannot be loaded stops the merge with the configuration unchanged |
| Configuration.DirectoryFileNests | src/Configuration.php:148-153 | A file `<dir>/a/b.php` that returns an array is merged at the path a, b |
| Configuration.FileUnderKey | src/Configuration.php:158-167 | mergeFile with a key merges the file's array at that key's path |
| Configuration.Configuration.constructor | src/Configuration.php:74-77 | A new configuration is empty and well formed |
| Configuration.Configuration.New | src/Configuration.php:84-87 | new succeeds exactly when merging the options into an empty configuration does, and then holds the merge's result |
| Configuration.Configuration.Set | src/Configuration.php:192-204 | On success the tree becomes UpdateKey's result; on failure the error is reported and nothing changes; well-formedness is kept |
| Configuration.Configuration.Append | src/Configuration.php:91-105 | On success the tree becomes UpdateKey's result for append; on failure nothing changes; well-formedness is kept |
| Configuration.Configuration.Prepend | src/Configuration.php:171-182 | On success the tree becomes UpdateKey's result for prepend; on failure nothing changes; well-formedness is kept |
| Configuration.Configuration.Update | src/Configuration.php:786-814 | The shared write walk: the new tree or the error, with nothing changed on failure |
| Configuration.Configuration.Unset | src/Configuration.php:215-224 | On success the tree becomes UnsetKey's result (the removal, the untouched diverging paths and the no-op on a missing path that UnsetEffect proves); on failure nothing changes; well-formedness is kept |
| Configuration.Configuration.Get | src/Configuration.php:109-118 | Returns GetKey of the tree, which GetIsLookup characterises, and changes nothing |
| Configuration.Configuration.Has | src/Configuration.php:122-127 | Returns HasKey of the tree and changes nothing |
| Configuration.Configuration.Reset | src/Configuration.php:185-188 | The tree becomes empty |
| Configuration.Configuration.ToArray | src/Configuration.php:208-211 | Returns the tree |
| Configuration.Configuration.Merge | src/Configuration.php:131-134 | The tree becomes what MergeAll leaves, even when it stops at a failing pair; the outcome reports that pair's error |
| Configuration.Configuration.MergeFile | src/Configuration.php:158-167 | The tree becomes what merging the file leaves; the outcome is the load or merge error |
| Configuration.Configuration.MergeDirectory | src/Configuration.php:138-154 | The tree becomes what MergeDirectoryRun leaves: an unresolvable, missing or unreadable directory stops it unchanged; otherwise the listed PHP files are merged in order under their path keys until the first failure |
| Configuration.Configuration.MergeFiles | src/Configuration.php:148-153 | The array_walk loop equals the fold over the listed files |
| Configuration.Configuration.MergeListed | src/Configuration.php:148-153 | One listed file: without a real path it stops the run with FilePathResolution, otherwise it is merged under the key of its real path |
| Configuration.Configuration.MergeNext | src/Configuration.php:148-153 | One step of the array_walk: a failing file ends the run with its error and the tree as it was left; otherwise the run goes on from the new tree over the files after it |
| Configuration.MergeFileKeepsWellFormed | src/Configuration.php:158-167 | Merging one file keeps the tree well formed (distinct top-level keys, only storable values), also when it stops part-way |
| Configuration.MergeListedKeepsWellFormed | src/Configuration.php:148-153 | Merging one listed file under the key of its real path keeps the tree well formed (distinct top-level keys, only storable values) |
| Configuration.MergeFilesKeepsWellFormed | src/Configuration.php:148-153 | The walk over the listed files keeps the tree well formed (distinct top-level keys, only storable values), wherever it stops |
| Configuration.Configuration.Wrap | src/Configuration.php:228-241 | Returns a fresh configuration holding WrapKey's result, or WrapKey's error |
| Config.Indexes | src/Config.php:52 | A key explodes into at least one index; a key without `.` is its own single index |
| Config.Descend | src/Config.php:110-118 | The reference walk: it fails exactly as the update does, or its trail of arrays rebuilds the update's result |
| Config.Ascend | src/Config.php:117-120 | Writing the leaf back along the trail gives the rebuilt array |
| Config.PathUpdate | src/Config.php:103-141 | A successful walk of set or remove yields an array, so the options stay an array |
| Config.Walk | src/Config.php:103-141 | The walk with the final assignment or unset equals PathUpdate |
| Config.Config.constructor | src/Config.php:21-24 | The object holds exactly the given options |
| Config.Config.ToArray | src/Config.php:40-43 | Returns the options |
| Config.Config.Count | src/Config.php:143-146 | Returns the number of top-level entries |
| Config.Config.Get | src/Config.php:45-61 | The foreach loop returns GetValue, which GetHasIsLookup characterises |
| Config.Config.Has | src/Config.php:63-80 | The foreach loop returns HasValue |
| Config.Config.Set | src/Config.php:103-121 | The options become UpdateValue's result for the write, or nothing changes and the Error is reported |
| Config.Config.Remove | src/Config.php:123-141 | The options become UpdateValue's result for the unset, or nothing changes and the Error is reported |
| Config.Config.Update | src/Config.php:103-141 | The shared body of set and remove: the flat shortcut or the walk |
| Config.Config.OffsetUnset | src/Config.php:175-179 | Array-style unset writes null at the key instead of removing it |
| Config.Config.OffsetExists | src/Config.php:160-163 | Array-style isset is has |
| Config.Config.OffsetGet | src/Config.php:165-168 | Array-style read is get with a null default |
| Config.Config.OffsetSet | src/Config.php:170-173 | Array-style write is set |
| Config.Config.Append | src/Config.php:26-31 | The options become AppendValue's result (the cast old value spread before the cast new one), or nothing changes |
| Config.Config.Prepend | src/Config.php:33-38 | The options become PrependValue's result (the cast new value spread first), or nothing changes |
| Config.Config.Merge | src/Config.php:90-93 | The options become array_merge(old, incoming): incoming string keys win |
| Config.Config.MergeConfig | src/Config.php:82-85 | The options become array_merge(other, old): the existing string keys win |
| Config.Config.MergeFromPath | src/Config.php:98-101 | The file's array merged under the existing value at key (existing entries win) is stored there; a non-array on either side is an Error with nothing changed |
| Config.Config.Split | src/Config.php:153-158 | A fresh Config holding the array at key; a missing key or a non-array is an Error |
| ConfigLaws.WalkIsLookup | src/Config.php:51-60 | The dotted get/has walk fails exactly when it reaches a non-array before the last index; otherwise get gives the lookup or the default, and has gives whether the path exists |
| ConfigLaws.GetHasIsLookup | src/Config.php:45-80 | get and has as path lookups: a flat key reads the top level (?? turns a stored null into the default), a dotted key walks its indexes |
| ConfigLaws.FoundByWalk | src/Config.php:51-60 | A path that exists is found by the walk, with its value |
| ConfigLaws.StoredNull | src/Config.php:48 | A stored null exists for has; get returns it for a dotted key but the default for a flat key |
| ConfigLaws.EmptyWalkSucceeds | src/Config.php:113-120 | set and remove through an empty array never fail: the walk creates every level |
| ConfigLaws.UpdateFailsIff | src/Config.php:113-118 | The walk of set/remove fails exactly when some intermediate index holds a non-null non-array |
| ConfigLaws.UpdateFailsIffBlocked | src/Config.php:103-141 | A flat key never fails; a dotted key fails exactly when an intermediate index is blocked |
| ConfigLaws.UpdateReads | src/Config.php:120 | After the walk, the last index holds the written value (set) or is absent (remove) |
| ConfigLaws.UpdateOthers | src/Config.php:113-120 | The walk leaves every path that branches off the key's path unchanged |
| ConfigLaws.UpdateLeavesOthers | src/Config.php:103-141 | set and remove leave every diverging path unchanged |
| ConfigLaws.UpdateKeepsParent | src/Config.php:116 | After the walk, every level above the leaf is an array |
| ConfigLaws.RemoveCreatesParent | src/Config.php:131-139 | remove of a dotted key leaves the parent levels in place as arrays, creating missing ones |
| ConfigLaws.FlatKeyIsOneIndex | src/Config.php:105-107 | A key without `.` behaves as a one-index walk, except that get's ?? treats a stored null as missing |
| ConfigLaws.SetThenGet | src/Config.php:103-121 | After set, has is true and get returns the value (the default for a flat key set to null) |
| ConfigLaws.RemoveThenGet | src/Config.php:123-141 | After remove, has is false and get returns the default |
| ConfigLaws.OffsetUnsetKeepsKey | src/Config.php:175-179 | After an array-style unset of a flat key, has is still true and get gives the default |
| ConfigLaws.CountAfterSet | src/Config.php:143-146 | After set of a flat key, count grows by one exactly when the key was new |
| ConfigLaws.AppendToList | src/Config.php:26-31 | Appending a scalar to a list pushes it with the next index; appending null leaves the list |
| ConfigLaws.PrependToList | src/Config.php:33-38 | Prepending a scalar to a list puts it at index 0 and renumbers the rest |
| ConfigLaws.MergeFromPathKeepsExisting | src/Config.php:98-101 | After mergeFromPath, get(key) is the merged array, in which an existing string key keeps its value |
| ConfigLaws.SplitAfterSet | src/Config.php:153-158 | Splitting at a key just set to an array gives exactly that array |
| ConfigFactory.FileOptions | src/ConfigFactory.php:112-147 | A successful file gives exactly one entry: the file's base name holding the provider's or the returned array |
| ConfigFactory.FileOutcome | src/ConfigFactory.php:114-139 | Each error happens exactly in its case: a blank path, not a file, a result that is neither a provider nor an array; success gives [name => contents] |
| ConfigFactory.Create | src/ConfigFactory.php:47-50 | A fresh Config holding exactly the given array |
| ConfigFactory.CreateFromFile | src/ConfigFactory.php:112-147 | A fresh Config holding FileOptions' array, or FileOptions' error |
| ConfigFactory.NamedFileKey | src/ConfigFactory.php:122 | `<dir>/<name>.php` is not blank and has the key name |
| ConfigFactory.NamedFile | src/ConfigFactory.php:122-146 | `<dir>/<name>.php` is filed under name, and get(name) on its Config gives the file's array |
| ConfigFactory.FiledUnder | src/ConfigFactory.php:127-146 | A loadable file is filed under its base name, whether a provider or a plain array |
| ConfigFactory.KeysOfNestedFile | src/ConfigFactory.php:88-91 | `<dir>/a/b/c.php` gets exactly the keys a, b, c |
| ConfigFactory.FileKeys | src/ConfigFactory.php:88-91 | Every file path gives at least one nesting key |
| ConfigFactory.Descend | src/ConfigFactory.php:93-96 | The nesting walk stops at the first index holding a non-null non-array; otherwise its trail rebuilds the nested array |
| ConfigFactory.PlaceFileIn | src/ConfigFactory.php:84-98 | One iteration of the foreach equals PlaceFile |
| ConfigFactory.CreateFromDirectory | src/ConfigFactory.php:59-102 | A fresh Config holding DirectoryOptions' array, or DirectoryOptions' error |
| ConfigFactory.DirectoryOutcome | src/ConfigFactory.php:61-67 | A blank directory and a missing directory are reported as such, and only in those cases; past the guards the result is the fold over the files |
| ConfigFactory.PlaceFilesFaults | src/ConfigFactory.php:83-99 | Past the guards, every failure comes from one file: empty path, not found, invalid, or a path through a value that is not an array |
| ConfigFactory.NestIsSet | src/ConfigFactory.php:93-98 | The nesting walk with the final assignment is Config's dotted set of the leaf at the keys |
| ConfigFactory.NestBlockedIff | src/ConfigFactory.php:93-96 | The walk is blocked exactly when an intermediate key holds a non-null non-array |
| ConfigFactory.NestReachesLeaf | src/ConfigFactory.php:98 | After nesting, the keys lead to the leaf |
| ConfigFactory.NestOthers | src/ConfigFactory.php:93-98 | Nesting leaves every diverging path unchanged |
| ConfigFactory.PlaceFileEffect | src/ConfigFactory.php:84-98 | A placed file's keys lead to its Config; earlier entries on diverging paths stay |
| ConfigFactory.PlaceFilesSnoc | src/ConfigFactory.php:83-99 | The foreach is a left fold: the files before the last one, then the last one |
| ConfigFactory.DirectoryLastFile | src/ConfigFactory.php:59-102 | In the result, the last file's keys lead to its Config, and what the earlier files left on diverging paths stays |
| PhpArrays.Find | src/Config.php:48 | Reading a key finds nothing exactly when no entry has it; otherwise it finds an entry under that key |
| PhpArrays.Put | src/Config.php:106 | Assignment stores the value at the key and leaves every other key alone; a new key goes last, an existing key keeps its place |
| PhpArrays.Remove | src/Config.php:126 | unset removes the key, keeps every other key's value, and does nothing when the key is missing |
| PhpArrays.PutKeepsUniqueKeys | src/Config.php:106 | Assignment never duplicates a key |
| PhpArrays.ArrayMergeStringLookup | src/Config.php:92 | In array_merge(a, b) a string key has b's value when b has it, else a's |
| PhpArrays.ArrayMergeRenumbers | src/Config.php:92 | array_merge renumbers the integer-keyed entries of a followed by those of b as 0, 1, 2, … |
| PhpArrays.ArrayMergeOfLists | src/Config.php:30 | array_merge of two lists is a list: the first followed by the second, renumbered |
| PhpArrays.ArrayMergeEmptyList | src/Config.php:30 | Merging nothing onto a list leaves it |
| PhpArrays.ArrayMergeUnique | src/Config.php:84 | array_merge never produces a key twice |
| PhpStrings.TrimEmptyIff | src/Configuration.php:422 | mb_trim gives the empty string exactly when every character is one it strips |
| PhpStrings.TrimUntouched | src/ConfigFactory.php:90 | mb_trim leaves a string whose ends are not strippable |
| PhpStrings.Split | src/Configuration.php:679 | Splitting gives at least one piece, none containing a separator; a string without separators is its own piece |
| PhpStrings.SplitJoin | src/Configuration.php:679 | Splitting a join of separator-free pieces gives back the pieces |
| PhpStrings.ReplaceChar | src/Configuration.php:361 | str_replace of one character keeps the length and replaces exactly the occurrences |
| PhpStrings.LeadingIn | src/ConfigFactory.php:90 | How much trim strips at the start: every character counted is a strippable one, and the next one is not |
| PhpStrings.TrailingIn | src/Configuration.php:361 | How much trim strips at the end: every character counted is a strippable one, and the one before them is not |
| PhpStrings.TrimLeftSuffix | src/ConfigFactory.php:90 | mb_trim's left half: the result is a suffix of the string, everything cut off is a strippable character, and the result does not start with one |
| PhpStrings.TrimRightPrefix | src/Configuration.php:361 | mb_trim's right half: the result is a prefix of the string, everything cut off is a strippable character, and the result does not end with one |
| PhpStrings.RemoveAll | src/ConfigFactory.php:90 | str_replace with the empty replacement never makes the string longer |
| PhpStrings.RemoveAllAbsent | src/ConfigFactory.php:90 | str_replace with a pattern that does not occur leaves the string |
| PhpStrings.RemoveAllSkip | src/ConfigFactory.php:90 | A prefix that cannot start the pattern passes through str_replace untouched |
| PhpStrings.AfterLast | src/ConfigFactory.php:122 | The part after the last slash is a suffix without a slash |
| PhpStrings.BasenameOfFile | src/ConfigFactory.php:122 | basename of `<dir>/<name><suffix>` with that suffix is name |

## Left out

- The file system, `require`, PHP's error handler and the directory
  iterator are inputs. Whether a path exists, is readable or resolves,
  what a file returns or raises, and the order in which files are listed
  are given by the caller.
- Invalid UTF-8 is left out: Dafny strings are always valid. preg_split
  therefore always yields a segment, and the empty-segment-list check of
  ensureSegmentsNotEmpty (src/Configuration.php:436-441) can never fire
  in the model.
- PHP's coercion of numeric-string keys to integers (`"1"` becomes `1`) is
  not modelled. A string key always stays a string key.
- Floats are opaque bit patterns. No arithmetic or comparison is done on
  them.
- The (array) cast of an object (its public properties) is not modelled.
  `Cast` turns an object into a one-element list.
- String offsets and the autovivification of `false` into an array
  (deprecated in PHP 8.1): only null slots are turned into arrays.
- Config::getIterator is a yield of the options, and is modelled by
  `Config.Config.ToArray`.
- ConfigFactory.Create: src/Config.php defines no `new`. Both
  ConfigFactory::create and createFromFile call Config::new, and the model
  reads that call as the constructor (`Config.Config.constructor`), which holds
  the given array unchecked. create's documentation announces
  EmptyConfigKeyException and InvalidConfigKeyException
  (src/ConfigFactory.php:43-44). That key validation is not modelled: no code
  in the core performs it. ConfigFactory::new has no state to model.
- Interfaces, the dependency-injection container classes and the exception
  class hierarchy. Exceptions are the constructors of one error datatype
  per class, and their messages are not modelled beyond the factory's
  guard messages.
- ConfigFactory.DirectoryOptions: in createFromDirectory, a later file's
  path can run through the Config object of an earlier file. PHP then reaches
  that object through ArrayAccess:
  - `??=` calls offsetSet(key, []) on it when the key is missing;
  - taking the reference calls offsetGet and yields a temporary copy, with an
    "Indirect modification of overloaded element" notice;
  - the later file's Config is assigned to that temporary and lost.
  The model stops with `CannotNest` instead.
- ConfigFactory.Descend: the nesting walk stops at an earlier file's Config
  object as at any other non-null non-array, where PHP goes on through
  ArrayAccess (see ConfigFactory.DirectoryOptions).
- ConfigFactory.NestBlockedIff: counts an earlier file's Config object as
  blocking, which is the model's `CannotNest` reading and not PHP's (see
  ConfigFactory.DirectoryOptions).
- ConfigFactory.KeysOfNestedFile requires that the remaining path does not
  contain the directory string, because str_replace removes every occurrence
  of it and such a path gets other keys. It also requires that segments
  contain no `.` at all. That is stronger than needed: only a `.php` inside a
  segment is removed by str_replace and changes the keys, but a path without
  any `.` lets the proof treat the removal of the final `.php` as one step.
  FileKeys computes the keys of the other paths too.
- The directory regex `#\.php$#iu` matches `.PHP` case-insensitively, while
  str_replace and basename strip only a lower-case `.php`. The model takes
  the iterator's file list as given, and FileKeys strips only `.php`.
- ConfigFactory.FileKeys: its contract only ensures at least one key.
  KeysOfNestedFile states the exact keys for paths of the usual shape.
- Config.PathUpdate: its own contract only ensures that a successful walk
  yields an array. What it does is stated by ConfigLaws.UpdateFailsIff,
  UpdateReads, UpdateOthers and UpdateKeepsParent.
- Config.PathUpdate: an ArrayAccess object stored in the options (a Config,
  as the factory stores them, an ArrayObject, …) is walked by PHP through
  ArrayAccess, and the model does not follow this. Such an object holding the
  last index receives the write through offsetSet and remove through
  offsetUnset with null (for a Config: its own flat set, which stores null).
  Met with indexes still to go, it gets offsetSet(index, []) when the index is
  missing or null. The rest of that walk writes into what offsetGet returns;
  for a Config that is a copy, with an "Indirect modification" notice, and
  the write is lost except inside further ArrayAccess objects. In all these
  cases the model returns `NotAnArray` and changes nothing. Following the
  dispatch needs object identity and the object's own class, which the model
  leaves out.
- Config.Config.Set: through a stored ArrayAccess object (a Config,
  ArrayObject, …) its contract gives `NotAnArray` where PHP writes into the
  object (see Config.PathUpdate).
- Config.Config.Remove: through a stored ArrayAccess object (a Config,
  ArrayObject, …) its contract gives `NotAnArray` where PHP writes null into
  the object (see Config.PathUpdate).
- Config.Config.Update: the shared body of set and remove, with the same gap
  for stored ArrayAccess objects (see Config.PathUpdate).
- Config.Config.OffsetSet: delegates to set (src/Config.php:170-173), so a
  dotted offset through a stored ArrayAccess object gives `NotAnArray` where
  PHP writes into the object (see Config.PathUpdate).
- Config.Config.OffsetUnset: delegates to set with null
  (src/Config.php:175-179), so a dotted offset through a stored ArrayAccess
  object gives `NotAnArray` where PHP writes null into the object (see
  Config.PathUpdate).
- Config.Descend: the reference walk stops with `NotAnArray` at a stored
  ArrayAccess object (a Config, ArrayObject, …), while PHP continues through
  ArrayAccess (see Config.PathUpdate).
- Config.Walk: equals PathUpdate, so it has the same gap for stored
  ArrayAccess objects.
- ConfigLaws.UpdateFailsIff: "blocked" counts a stored ArrayAccess object (a
  Config, ArrayObject, …) as a non-array, so the failure it states for one is
  the model's and not PHP's (see Config.PathUpdate).
- ConfigLaws.UpdateFailsIffBlocked: the same reading of a stored ArrayAccess
  object (a Config, ArrayObject, …) as a blocking non-array (see
  Config.PathUpdate).
- PhpStrings.RemoveAll: its own contract only bounds the length. Its value
  is given by RemoveAllAbsent and RemoveAllSkip. str_replace makes one
  left-to-right pass, so an occurrence formed by a removal stays.
- ConfigFactory.FileKeys: DIRECTORY_SEPARATOR is taken to be `/` (a POSIX
  system), here and in ConfigurationKeys.FilePathToKey and
  PhpStrings.Basename. The Windows separator `\` is not modelled.
- ConfigurationLaws.UpdateKeyKeepsWellFormed: "well formed" asks for
  distinct keys at the top level only. Nested arrays hold distinct keys in
  PHP by construction; the lemmas that need it below the top level
  (`WrapRoundTrip`) require it.
- Configuration's well-formedness (`Valid`) is a ghost predicate on the
  class. Its preservation is stated on the methods and proved through the
  ConfigurationLaws lemmas.
- Config.Config.OffsetExists, OffsetGet, OffsetSet and OffsetUnset take a
  string key. PHP passes any offset, and under strict types a non-string
  offset makes the delegated has, get or set raise a TypeError; that case is
  not modelled.
- Concurrency and object identity: each Config or Configuration is a value
  owned by one caller, and aliasing between objects is not modelled.
