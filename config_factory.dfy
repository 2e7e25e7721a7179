/**
 * ConfigFactory: a Config from an array, from one PHP file, or from every PHP
 * file under a directory, nested by the file's path below the directory. The
 * file system and `require` are inputs: whether a path is a file or a
 * directory, which files the directory iterator yields (in its order), and
 * what requiring each file gives.
 */
module ConfigFactory {
  import opened Results
  import opened PhpStrings
  import opened PhpArrays
  import Config
  import T = ConfigurationTree
  import K = ConfigurationKeys
  import L = ConfigurationLaws
  import CL = ConfigLaws

  /** The exceptions the factory throws. */
  datatype FactoryError =
    | ShouldNotHappen(message: string)
    | ConfigDirectoryNotFound(directory: string)
    | ConfigFileNotFound(file: string)
    | InvalidConfigFile(file: string)
    | CannotNest(file: string, index: string, typeName: string)  // file's path runs through a value that is not an array

  const EmptyDirectoryMessage: string := "Invalid config directory, empty string provided."
  const EmptyFileMessage: string := "Invalid config file, empty string provided."
  const ConfigClass: string := "Ghostwriter\\Config\\Config"

  /**
   * What requiring the configuration file gives: a ConfigProviderInterface object, here
   * already run on a fresh Config and given as what that Config then holds,
   * or any other value.
   */
  datatype Loaded = Provider(options: PArray) | Returned(value: Value)

  /** A file the directory iterator yields: its path name, is_file on it, and what requiring it gives. */
  datatype PhpFile = PhpFile(path: string, isFile: bool, loaded: Loaded)

  /** A Config object as a value stored in an array. */
  function ConfigObject(options: PArray): Value {
    Object(ConfigClass, options)
  }

  // ---------------------------------------------------------------------------
  // createFromFile
  // ---------------------------------------------------------------------------

  /** The key of a file: its base name without the '.php' suffix. */
  function FileKey(path: string): string {
    Basename(path, ".php")
  }

  /** The options of the Config that createFromFile returns: the file's array under the file's name. */
  function FileOptions(path: string, isFile: bool, loaded: Loaded): (r: Result<PArray, FactoryError>)
    ensures r.Ok? ==> |r.value| == 1 && r.value[0].0 == StrK(FileKey(path)) && r.value[0].1.Arr?
    ensures r.Ok? ==> Contents(loaded).Some? && r.value == [(StrK(FileKey(path)), Arr(Contents(loaded).value))]
  {
    if K.Blank(path) then Err(ShouldNotHappen(EmptyFileMessage))
    else if !isFile then Err(ConfigFileNotFound(path))
    else
      match loaded
      case Provider(o) => Ok([(StrK(FileKey(path)), Arr(o))])
      case Returned(Arr(e)) => Ok([(StrK(FileKey(path)), Arr(e))])
      case Returned(_) => Err(InvalidConfigFile(path))
  }

  /** The array a file contributes, when it contributes one. */
  function Contents(loaded: Loaded): Option<PArray> {
    match loaded
    case Provider(o) => Some(o)
    case Returned(Arr(e)) => Some(e)
    case Returned(_) => None
  }

  /** create: a Config seeded with exactly the given array. */
  method Create(config: PArray) returns (c: Config.Config)
    ensures fresh(c) && c.options == config
  {
    c := new Config.Config(config);
  }

  method CreateFromFile(path: string, isFile: bool, loaded: Loaded) returns (r: Result<Config.Config, FactoryError>)
    ensures r.Ok? ==> fresh(r.value) && FileOptions(path, isFile, loaded) == Ok(r.value.options)
    ensures r.Err? ==> FileOptions(path, isFile, loaded) == Err(r.error)
  {
    var options := FileOptions(path, isFile, loaded);
    if options.Err? {
      return Err(options.error);
    }
    var c := Create(options.value);
    return Ok(c);
  }

  lemma SlashNotBlank(s: string, i: int)
    requires 0 <= i < |s| && s[i] == '/'
    ensures !K.Blank(s)
  {
  }

  /**
   * The guards and the classification: a blank path, then a path that is not a
   * file, then a file that gives neither a provider nor an array, are refused;
   * any other file gives its array under its name.
   */
  lemma FileOutcome(path: string, isFile: bool, loaded: Loaded)
    ensures FileOptions(path, isFile, loaded) == Err(ShouldNotHappen(EmptyFileMessage)) <==> K.Blank(path)
    ensures FileOptions(path, isFile, loaded) == Err(ConfigFileNotFound(path)) <==> !K.Blank(path) && !isFile
    ensures FileOptions(path, isFile, loaded) == Err(InvalidConfigFile(path))
      <==> !K.Blank(path) && isFile && Contents(loaded).None?
    ensures FileOptions(path, isFile, loaded).Ok? <==> !K.Blank(path) && isFile && Contents(loaded).Some?
    ensures FileOptions(path, isFile, loaded).Ok? ==>
      FileOptions(path, isFile, loaded).value == [(StrK(FileKey(path)), Arr(Contents(loaded).value))]
  {
  }

  lemma NamedFileKey(path: string, dir: string, name: string)
    requires path == dir + "/" + name + ".php" && name != [] && NoneIn(name, {'/'})
    ensures !K.Blank(path) && FileKey(path) == name
  {
    assert path[|dir|] == '/';
    SlashNotBlank(path, |dir|);
    PhpSuffix();
    BasenameOfFile(dir, name, ".php");
  }

  lemma PhpSuffix()
    ensures ".php" != [] && NoneIn(".php", {'/'})
  {
    var s := ".php";
    assert s[0] == '.' && s[1] == 'p' && s[2] == 'h' && s[3] == 'p';
  }

  /** A file `<dir>/<name>.php` is filed under name, and get(name) on its Config gives the file's array. */
  lemma NamedFile(dir: string, name: string, loaded: Loaded, default: Value)
    requires name != [] && NoneIn(name, {'/'}) && Contents(loaded).Some?
    ensures FileOptions(dir + "/" + name + ".php", true, loaded) == Ok([(StrK(name), Arr(Contents(loaded).value))])
    ensures !Config.Dotted(name) ==>
      Config.GetValue(FileOptions(dir + "/" + name + ".php", true, loaded).value, name, default) == Ok(Arr(Contents(loaded).value))
  {
    var path := dir + "/" + name + ".php";
    NamedFileKey(path, dir, name);
    FiledUnder(path, name, loaded, default);
  }

  lemma FiledUnder(path: string, name: string, loaded: Loaded, default: Value)
    requires FileKey(path) == name && !K.Blank(path) && Contents(loaded).Some?
    ensures FileOptions(path, true, loaded) == Ok([(StrK(name), Arr(Contents(loaded).value))])
    ensures !Config.Dotted(name) ==> Config.GetValue(FileOptions(path, true, loaded).value, name, default) == Ok(Arr(Contents(loaded).value))
  {
    FileOutcome(path, true, loaded);
    var options := [(StrK(name), Arr(Contents(loaded).value))];
    assert FileOptions(path, true, loaded) == Ok(options);
    assert Find(options, StrK(name)) == Some(Arr(Contents(loaded).value));
  }

  // ---------------------------------------------------------------------------
  // createFromDirectory: the keys of a file
  // ---------------------------------------------------------------------------

  /** str_replace of search by nothing; an empty search string leaves s alone. */
  function StrRemove(s: string, search: string): string {
    if search == [] then s else RemoveAll(s, search)
  }

  /**
   * The keys of a file under the directory: the directory string and '.php' are
   * removed from the path, surrounding slashes trimmed, and the rest split on '/'.
   */
  function FileKeys(dir: string, path: string): (r: seq<string>)
    ensures |r| >= 1
  {
    Split(Trim(StrRemove(StrRemove(path, dir), ".php"), {'/'}), {'/'})
  }

  lemma JoinNoneIn(segs: seq<string>, c: char, cs: set<char>)
    requires |segs| >= 1 && c !in cs && forall i :: 0 <= i < |segs| ==> NoneIn(segs[i], cs)
    ensures NoneIn(Join(segs, c), cs)
    decreases |segs|
  {
    if |segs| > 1 {
      JoinNoneIn(segs[1..], c, cs);
      var rest := Join(segs[1..], c);
      assert Join(segs, c) == segs[0] + ([c] + rest);
      forall i | 0 <= i < |Join(segs, c)| ensures Join(segs, c)[i] !in cs {
        if i >= |segs[0]| + 1 {
          assert Join(segs, c)[i] == rest[i - |segs[0]| - 1];
        }
      }
    }
  }

  lemma RemoveLeading(pat: string, rest: string)
    requires pat != [] && NoOccurrence(rest, pat)
    ensures RemoveAll(pat + rest, pat) == rest
  {
    assert (pat + rest)[..|pat|] == pat;
    assert (pat + rest)[|pat|..] == rest;
    RemoveAllAbsent(rest, pat);
  }

  lemma RemoveTrailingPhp(x: string)
    requires NoneIn(x, {'.'})
    ensures RemoveAll(x + ".php", ".php") == x
  {
    RemoveAllSkip(x, ".php", ".php");
    assert ".php"[..4] == ".php" && ".php"[4..] == [];
    assert x + [] == x;
  }

  lemma TrimLeadingSlash(j: string)
    requires j != [] && j[0] != '/' && j[|j| - 1] != '/'
    ensures Trim("/" + j, {'/'}) == j
  {
    assert ("/" + j)[1..] == j;
    assert TrimLeft("/" + j, {'/'}) == TrimLeft(j, {'/'});
    TrimUntouched(j, {'/'});
  }

  /**
   * A file `<dir>/a/b/c.php` gets the keys a, b, c, provided the directory's
   * name does not occur again in the rest of the path and the segments hold no
   * '.' (str_replace would remove those occurrences too).
   */
  lemma KeysOfNestedFile(dir: string, segs: seq<string>)
    requires dir != [] && |segs| >= 1
    requires forall i :: 0 <= i < |segs| ==> segs[i] != [] && NoneIn(segs[i], {'/', '.'})
    requires NoOccurrence("/" + Join(segs, '/') + ".php", dir)
    ensures FileKeys(dir, dir + "/" + Join(segs, '/') + ".php") == segs
  {
    var j := Join(segs, '/');
    var x := "/" + j;
    var path := dir + "/" + j + ".php";
    Regroup(dir, "/", j, ".php");
    RemoveLeading(dir, x + ".php");
    assert StrRemove(path, dir) == x + ".php";
    SlashJoinNoDot(segs);
    RemoveTrailingPhp(x);
    assert StrRemove(x + ".php", ".php") == x;
    SegmentsNoSlash(segs);
    K.JoinFirstLast(segs, '/');
    TrimLeadingSlash(j);
    SplitJoin(segs, '/', {'/'});
  }

  lemma Regroup(a: string, b: string, c: string, d: string)
    ensures a + b + c + d == a + ((b + c) + d)
  {
  }

  lemma SegmentsNoSlash(segs: seq<string>)
    requires forall i :: 0 <= i < |segs| ==> segs[i] != [] && NoneIn(segs[i], {'/', '.'})
    ensures forall i :: 0 <= i < |segs| ==> segs[i] != [] && NoneIn(segs[i], {'/'})
  {
  }

  lemma SlashJoinNoDot(segs: seq<string>)
    requires |segs| >= 1 && forall i :: 0 <= i < |segs| ==> NoneIn(segs[i], {'/', '.'})
    ensures NoneIn("/" + Join(segs, '/'), {'.'})
  {
    var j := Join(segs, '/');
    forall i | 0 <= i < |segs| ensures NoneIn(segs[i], {'.'}) {
      assert forall k :: 0 <= k < |segs[i]| ==> segs[i][k] !in {'/', '.'};
    }
    JoinNoneIn(segs, '/', {'.'});
    forall i | 0 <= i < |"/" + j| ensures ("/" + j)[i] !in {'.'} {
      if i > 0 {
        assert ("/" + j)[i] == j[i - 1];
      }
    }
  }

  // ---------------------------------------------------------------------------
  // createFromDirectory: the nesting loop
  // ---------------------------------------------------------------------------

  /**
   * The first index whose value the loop cannot index further: `??=` turns a
   * missing or null slot into [], and an array is walked into; anything else
   * (a file's Config, put there for an earlier file) stops it.
   */
  function Blocker(node: PArray, keys: seq<string>): Option<(string, Value)>
    requires |keys| >= 1
    decreases |keys|
  {
    if |keys| == 1 then None
    else
      match Config.Slot(node, keys[0])
      case Arr(child) => Blocker(child, keys[1..])
      case w => Some((keys[0], w))
  }

  /** The walk followed by the assignment of the leaf: the array with leaf stored at keys. */
  function Nest(node: PArray, keys: seq<string>, leaf: Value): PArray
    requires |keys| >= 1 && Blocker(node, keys).None?
    decreases |keys|
  {
    if |keys| == 1 then Put(node, StrK(keys[0]), leaf)
    else Put(node, StrK(keys[0]), Arr(Nest(Config.Slot(node, keys[0]).entries, keys[1..], leaf)))
  }

  /** One file of the foreach: the walk, then createFromFile, then the assignment. */
  function PlaceFile(configs: PArray, dir: string, f: PhpFile): Result<PArray, FactoryError> {
    var keys := FileKeys(dir, f.path);
    match Blocker(configs, keys)
    case Some((index, w)) => Err(CannotNest(f.path, index, TypeName(w)))
    case None =>
      match FileOptions(f.path, f.isFile, f.loaded)
      case Err(e) => Err(e)
      case Ok(o) => Ok(Nest(configs, keys, ConfigObject(o)))
  }

  /** The foreach over the files, in the iterator's order; the first exception ends it. */
  function PlaceFiles(configs: PArray, dir: string, files: seq<PhpFile>): Result<PArray, FactoryError>
    decreases |files|
  {
    if files == [] then Ok(configs)
    else
      match PlaceFile(configs, dir, files[0])
      case Err(e) => Err(e)
      case Ok(c) => PlaceFiles(c, dir, files[1..])
  }

  /** The options of the Config that createFromDirectory returns. */
  function DirectoryOptions(dir: string, isDir: bool, files: seq<PhpFile>): Result<PArray, FactoryError> {
    if K.Blank(dir) then Err(ShouldNotHappen(EmptyDirectoryMessage))
    else if !isDir then Err(ConfigDirectoryNotFound(dir))
    else PlaceFiles([], dir, files)
  }

  /**
   * The reference walk over the keys of one file, each missing or null slot
   * filled with an empty array, down to the array holding the last key;
   * trail[j] is the array the first j keys reach.
   */
  method Descend(node: PArray, keys: seq<string>, ghost leaf: Value) returns (trail: seq<PArray>, blocked: Option<(string, Value)>)
    requires |keys| >= 1
    ensures blocked == Blocker(node, keys)
    ensures blocked.None? ==> |trail| == |keys| && Arr(Nest(node, keys, leaf)) == Config.Rebuild(trail, keys, leaf)
  {
    trail := [node];
    ghost var goal := Pending(trail, keys, leaf);
    var i := 0;
    while i < |keys| - 1
      invariant 0 <= i < |keys| && |trail| == i + 1 && trail[0] == node
      invariant Blocker(node, keys) == Blocker(trail[i], keys[i..])
      invariant goal == Pending(trail, keys, leaf)
    {
      var next := Config.Slot(trail[i], keys[i]);
      BlockerStep(trail[i], keys, i);
      if !next.Arr? {
        return trail, Some((keys[i], next));
      }
      PendingStep(trail, keys, leaf);
      trail := trail + [next.entries];
      i := i + 1;
    }
    PendingEnds(trail, keys, leaf);
    return trail, None;
  }

  /**
   * What is left to do once the walk holds trail: nothing when the remaining
   * keys are blocked, and otherwise the nest below the last array passed, written
   * back up through the others.
   */
  ghost function Pending(trail: seq<PArray>, keys: seq<string>, leaf: Value): Option<Value>
    requires 1 <= |trail| <= |keys|
  {
    var i := |trail| - 1;
    if Blocker(trail[i], keys[i..]).None? then Some(Config.Rebuild(trail[..i], keys, Arr(Nest(trail[i], keys[i..], leaf))))
    else None
  }

  lemma BlockerStep(cur: PArray, keys: seq<string>, i: int)
    requires 0 <= i < |keys| - 1
    ensures Blocker(cur, keys[i..]) ==
      match Config.Slot(cur, keys[i])
      case Arr(child) => Blocker(child, keys[i + 1..])
      case w => Some((keys[i], w))
  {
    assert keys[i..][0] == keys[i] && keys[i..][1..] == keys[i + 1..];
  }

  lemma PendingStep(trail: seq<PArray>, keys: seq<string>, leaf: Value)
    requires 1 <= |trail| < |keys|
    requires Config.Slot(trail[|trail| - 1], keys[|trail| - 1]).Arr?
    ensures Pending(trail + [Config.Slot(trail[|trail| - 1], keys[|trail| - 1]).entries], keys, leaf) == Pending(trail, keys, leaf)
  {
    var i := |trail| - 1;
    var next := Config.Slot(trail[i], keys[i]).entries;
    var t := trail + [next];
    assert |t| - 1 == i + 1 && t[i + 1] == next && t[..i + 1] == trail;
    BlockerStep(trail[i], keys, i);
    assert Blocker(t[i + 1], keys[i + 1..]) == Blocker(trail[i], keys[i..]);
    if Blocker(trail[i], keys[i..]).None? {
      DescendStep(trail, keys, i, leaf);
      assert Pending(t, keys, leaf) == Some(Config.Rebuild(trail, keys, Arr(Nest(next, keys[i + 1..], leaf))));
    } else {
      assert Pending(t, keys, leaf).None? && Pending(trail, keys, leaf).None?;
    }
  }

  lemma PendingEnds(trail: seq<PArray>, keys: seq<string>, leaf: Value)
    requires |trail| == |keys| >= 1 && Blocker(trail[|trail| - 1], keys[|trail| - 1..]).None?
    ensures Pending(trail, keys, leaf) == Some(Config.Rebuild(trail, keys, leaf))
  {
    var i := |trail| - 1;
    assert keys[i..] == [keys[i]];
    Config.RebuildStep(trail, keys, i + 1, leaf);
    assert trail[..i + 1] == trail;
  }

  lemma DescendStep(trail: seq<PArray>, keys: seq<string>, i: int, leaf: Value)
    requires 0 <= i < |keys| - 1 && |trail| == i + 1
    requires Config.Slot(trail[i], keys[i]).Arr? && Blocker(trail[i], keys[i..]).None?
    ensures Blocker(Config.Slot(trail[i], keys[i]).entries, keys[i + 1..]).None?
    ensures Config.Rebuild(trail[..i], keys, Arr(Nest(trail[i], keys[i..], leaf)))
      == Config.Rebuild(trail, keys, Arr(Nest(Config.Slot(trail[i], keys[i]).entries, keys[i + 1..], leaf)))
  {
    var next := Config.Slot(trail[i], keys[i]).entries;
    assert keys[i..][0] == keys[i] && keys[i..][1..] == keys[i + 1..];
    Config.RebuildStep(trail, keys, i + 1, Arr(Nest(next, keys[i + 1..], leaf)));
    assert trail[..i + 1] == trail;
  }

  /** One file of the foreach. */
  method PlaceFileIn(configs: PArray, dir: string, f: PhpFile) returns (r: Result<PArray, FactoryError>)
    ensures r == PlaceFile(configs, dir, f)
  {
    var keys := FileKeys(dir, f.path);
    ghost var leaf := if FileOptions(f.path, f.isFile, f.loaded).Ok? then ConfigObject(FileOptions(f.path, f.isFile, f.loaded).value) else Null;
    var trail, blocked := Descend(configs, keys, leaf);
    if blocked.Some? {
      return Err(CannotNest(f.path, blocked.value.0, TypeName(blocked.value.1)));
    }
    var file := CreateFromFile(f.path, f.isFile, f.loaded);
    if file.Err? {
      return Err(file.error);
    }
    var top := Config.Ascend(trail, keys, ConfigObject(file.value.options));
    return Ok(top.entries);
  }

  method CreateFromDirectory(dir: string, isDir: bool, files: seq<PhpFile>) returns (r: Result<Config.Config, FactoryError>)
    ensures r.Ok? ==> fresh(r.value) && DirectoryOptions(dir, isDir, files) == Ok(r.value.options)
    ensures r.Err? ==> DirectoryOptions(dir, isDir, files) == Err(r.error)
  {
    if K.Blank(dir) {
      return Err(ShouldNotHappen(EmptyDirectoryMessage));
    }
    if !isDir {
      return Err(ConfigDirectoryNotFound(dir));
    }
    var configs: PArray := [];
    var i := 0;
    while i < |files|
      invariant 0 <= i <= |files|
      invariant PlaceFiles(configs, dir, files[i..]) == PlaceFiles([], dir, files)
    {
      assert files[i..][0] == files[i] && files[i..][1..] == files[i + 1..];
      var placed := PlaceFileIn(configs, dir, files[i]);
      if placed.Err? {
        return Err(placed.error);
      }
      configs := placed.value;
      i := i + 1;
    }
    assert files[i..] == [];
    var c := Create(configs);
    return Ok(c);
  }

  // ---------------------------------------------------------------------------
  // Laws of the nesting loop
  // ---------------------------------------------------------------------------

  /**
   * The loop is Config's set walk: it stops exactly where set would fail, and
   * otherwise builds the same array.
   */
  lemma {:induction false} NestIsSet(node: PArray, keys: seq<string>, leaf: Value)
    requires |keys| >= 1
    ensures Blocker(node, keys).None? <==> Config.PathUpdate(Arr(node), keys, Config.Write(leaf)).Ok?
    ensures Blocker(node, keys).None? ==> Config.PathUpdate(Arr(node), keys, Config.Write(leaf)) == Ok(Arr(Nest(node, keys, leaf)))
    decreases |keys|
  {
    if |keys| > 1 {
      var next := Config.Slot(node, keys[0]);
      if next.Arr? {
        NestIsSet(next.entries, keys[1..], leaf);
      }
    }
  }

  /** The loop stops exactly when some index on the way holds a value that is neither null nor an array. */
  lemma NestBlockedIff(node: PArray, keys: seq<string>, leaf: Value)
    requires |keys| >= 1
    ensures Blocker(node, keys).Some? <==> exists j | 1 <= j < |keys| :: CL.BlocksAt(Arr(node), keys, j)
  {
    NestIsSet(node, keys, leaf);
    CL.UpdateFailsIff(node, keys, Config.Write(leaf));
  }

  /** After the loop, the keys lead to the leaf. */
  lemma {:induction false} NestReachesLeaf(node: PArray, keys: seq<string>, leaf: Value)
    requires |keys| >= 1 && Blocker(node, keys).None?
    ensures T.LookupPath(Arr(Nest(node, keys, leaf)), keys) == Some(leaf)
    decreases |keys|
  {
    if |keys| > 1 {
      NestReachesLeaf(Config.Slot(node, keys[0]).entries, keys[1..], leaf);
    }
  }

  /** The loop leaves every path that branches off the keys as it was. */
  lemma NestOthers(node: PArray, keys: seq<string>, leaf: Value, q: seq<string>)
    requires |keys| >= 1 && Blocker(node, keys).None? && L.Diverges(keys, q)
    ensures T.LookupPath(Arr(Nest(node, keys, leaf)), q) == T.LookupPath(Arr(node), q)
  {
    NestIsSet(node, keys, leaf);
    CL.UpdateOthers(Arr(node), keys, Config.Write(leaf), q);
  }

  /**
   * Placing a file: its keys lead to its Config, and every path branching off
   * them, such as the entries of other files, is untouched.
   */
  lemma PlaceFileEffect(configs: PArray, dir: string, f: PhpFile, q: seq<string>)
    requires PlaceFile(configs, dir, f).Ok?
    ensures FileOptions(f.path, f.isFile, f.loaded).Ok?
    ensures T.LookupPath(Arr(PlaceFile(configs, dir, f).value), FileKeys(dir, f.path))
      == Some(ConfigObject(FileOptions(f.path, f.isFile, f.loaded).value))
    ensures L.Diverges(FileKeys(dir, f.path), q) ==>
      T.LookupPath(Arr(PlaceFile(configs, dir, f).value), q) == T.LookupPath(Arr(configs), q)
  {
    var keys := FileKeys(dir, f.path);
    var leaf := ConfigObject(FileOptions(f.path, f.isFile, f.loaded).value);
    NestReachesLeaf(configs, keys, leaf);
    if L.Diverges(keys, q) {
      NestOthers(configs, keys, leaf, q);
    }
  }

  /** The foreach is a left fold: the files before the last one, then the last one. */
  lemma {:induction false} PlaceFilesSnoc(configs: PArray, dir: string, files: seq<PhpFile>, f: PhpFile)
    ensures PlaceFiles(configs, dir, files + [f])
      == match PlaceFiles(configs, dir, files) case Err(e) => Err(e) case Ok(c) => PlaceFile(c, dir, f)
    decreases |files|
  {
    if files == [] {
      assert files + [f] == [f];
      assert [f][1..] == [];
    } else {
      assert (files + [f])[0] == files[0] && (files + [f])[1..] == files[1..] + [f];
      if PlaceFile(configs, dir, files[0]).Ok? {
        PlaceFilesSnoc(PlaceFile(configs, dir, files[0]).value, dir, files[1..], f);
      }
    }
  }

  /**
   * createFromDirectory: the last file's keys lead to its Config, and whatever
   * the earlier files left at paths branching off those keys stays.
   */
  lemma DirectoryLastFile(dir: string, files: seq<PhpFile>, f: PhpFile, q: seq<string>)
    requires DirectoryOptions(dir, true, files + [f]).Ok?
    ensures DirectoryOptions(dir, true, files).Ok?
    ensures FileOptions(f.path, f.isFile, f.loaded).Ok?
    ensures T.LookupPath(Arr(DirectoryOptions(dir, true, files + [f]).value), FileKeys(dir, f.path))
      == Some(ConfigObject(FileOptions(f.path, f.isFile, f.loaded).value))
    ensures L.Diverges(FileKeys(dir, f.path), q) ==>
      T.LookupPath(Arr(DirectoryOptions(dir, true, files + [f]).value), q)
        == T.LookupPath(Arr(DirectoryOptions(dir, true, files).value), q)
  {
    PlaceFilesSnoc([], dir, files, f);
    PlaceFileEffect(PlaceFiles([], dir, files).value, dir, f, q);
  }

  /** The exceptions one file of the foreach can raise. */
  predicate FileFault(e: FactoryError) {
    e == ShouldNotHappen(EmptyFileMessage) || e.ConfigFileNotFound? || e.InvalidConfigFile? || e.CannotNest?
  }

  lemma PlaceFileFaults(configs: PArray, dir: string, f: PhpFile)
    ensures PlaceFile(configs, dir, f).Err? ==> FileFault(PlaceFile(configs, dir, f).error)
  {
    FileOutcome(f.path, f.isFile, f.loaded);
  }

  /** Once the directory guards pass, every failure comes from one of the files. */
  lemma {:induction false} PlaceFilesFaults(configs: PArray, dir: string, files: seq<PhpFile>)
    ensures PlaceFiles(configs, dir, files).Err? ==> FileFault(PlaceFiles(configs, dir, files).error)
    decreases |files|
  {
    if files != [] {
      PlaceFileFaults(configs, dir, files[0]);
    }
    if files != [] && PlaceFile(configs, dir, files[0]).Ok? {
      PlaceFilesFaults(PlaceFile(configs, dir, files[0]).value, dir, files[1..]);
    }
  }

  /**
   * createFromDirectory's guards: an empty (after trimming) directory string
   * and a missing directory are reported as such and by nothing else; past them
   * the result is the foreach over the files.
   */
  lemma DirectoryOutcome(dir: string, isDir: bool, files: seq<PhpFile>)
    ensures DirectoryOptions(dir, isDir, files) == Err(ShouldNotHappen(EmptyDirectoryMessage)) <==> K.Blank(dir)
    ensures (DirectoryOptions(dir, isDir, files).Err? && DirectoryOptions(dir, isDir, files).error.ConfigDirectoryNotFound?)
      <==> !K.Blank(dir) && !isDir
    ensures !K.Blank(dir) && isDir ==> DirectoryOptions(dir, isDir, files) == PlaceFiles([], dir, files)
  {
    assert EmptyFileMessage[15] != EmptyDirectoryMessage[15];
    PlaceFilesFaults([], dir, files);
  }
}
