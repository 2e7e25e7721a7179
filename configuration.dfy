/**
 * The Configuration object: one stored PHP array that the methods replace.
 * Files and directories are read through values handed in by the caller (what
 * `require` yields for each file, and what the directory listing finds).
 */
module Configuration {
  import opened Results
  import opened PhpStrings
  import opened PhpArrays
  import opened ConfigurationErrors
  import opened ConfigurationKeys
  import opened ConfigurationValues
  import opened ConfigurationTree
  import opened ConfigurationLaws

  // ---------------------------------------------------------------------------
  // Files and directories
  // ---------------------------------------------------------------------------

  /** What checking and including one configuration file gives. */
  datatype FileState =
    | Missing            // is_file() is false
    | Unreadable         // is_readable() is false
    | RaisesError        // `require` triggered a PHP warning or notice
    | Throws             // `require` threw
    | Returns(value: Value)

  /** A file's array holds no embedded configuration that is not itself stored. */
  ghost predicate StateStored(state: FileState) {
    state.Returns? ==> TreesStored(state.value)
  }

  ghost predicate FilesStored(files: map<string, FileState>) {
    forall f :: f in files ==> StateStored(files[f])
  }

  /** The state of a file the caller did not describe is Missing. */
  function StateOf(files: map<string, FileState>, file: string): FileState {
    if file in files then files[file] else Missing
  }

  /** loadConfigurationFile: the array the file returns, or why it could not be loaded. */
  function LoadFile(file: string, state: FileState): (r: Result<PArray, ConfigError>)
    ensures r.Ok? <==> state.Returns? && state.value.Arr?
    ensures r.Ok? ==> r.value == state.value.entries
    ensures r == Err(InvalidFile(file)) <==> state.Returns? && !state.value.Arr?
    ensures r == Err(FileNotFound(file)) <==> state.Missing?
    ensures r == Err(FileNotReadable(file)) <==> state.Unreadable?
  {
    match state
    case Missing => Err(FileNotFound(file))
    case Unreadable => Err(FileNotReadable(file))
    case RaisesError => Err(FailedToLoadWithErrors(file))
    case Throws => Err(FailedToLoad(file))
    case Returns(Arr(e)) => Ok(e)
    case Returns(_) => Err(InvalidFile(file))
  }

  /** mergeFile: the file's array, merged as it is or under the given key. */
  function MergeFileRun(root: PArray, file: string, key: Option<string>, state: FileState): MergeRun {
    match LoadFile(file, state)
    case Err(x) => Stopped(root, x)
    case Ok(e) =>
      match key
      case None => MergeAll(root, e)
      case Some(k) => MergeAll(root, [(StrK(k), Arr(e))])
  }

  /** What realpath(), is_dir(), is_readable() and the recursive *.php listing find. */
  datatype Directory =
    | Unresolvable
    | Resolved(realPath: string, isDirectory: bool, readable: bool, phpFiles: seq<ListedFile>)

  /** A listed file: its path name and its real path, if one can be determined. */
  datatype ListedFile = ListedFile(pathName: string, realPath: Option<string>)

  /** One listed file: its real path must be known, then it is merged under its path's key. */
  function MergeListedRun(root: PArray, directory: string, realDirectory: string, listed: ListedFile,
                          files: map<string, FileState>): MergeRun {
    match listed.realPath
    case None => Stopped(root, FilePathResolution(listed.pathName, directory))
    case Some(path) => MergeFileRun(root, path, Some(FilePathToKey(realDirectory, path)), StateOf(files, path))
  }

  /** The walk over the listed files of mergeDirectory, stopping at the first failure. */
  function MergeFilesRun(root: PArray, directory: string, realDirectory: string, listed: seq<ListedFile>,
                         files: map<string, FileState>): MergeRun
    decreases |listed|
  {
    if listed == [] then Done(root)
    else
      match MergeListedRun(root, directory, realDirectory, listed[0], files)
      case Stopped(r, x) => Stopped(r, x)
      case Done(r) => MergeFilesRun(r, directory, realDirectory, listed[1..], files)
  }

  /** The run from index i: the file at i, then the rest unless it stopped. */
  lemma MergeFilesStep(root: PArray, directory: string, realDirectory: string, listed: seq<ListedFile>, i: int,
                        files: map<string, FileState>)
    requires 0 <= i < |listed|
    ensures var step := MergeListedRun(root, directory, realDirectory, listed[i], files);
      step.Stopped? ==> MergeFilesRun(root, directory, realDirectory, listed[i..], files) == step
    ensures var step := MergeListedRun(root, directory, realDirectory, listed[i], files);
      step.Done? ==>
        MergeFilesRun(root, directory, realDirectory, listed[i..], files)
          == MergeFilesRun(step.root, directory, realDirectory, listed[i + 1..], files)
  {
    assert listed[i..][0] == listed[i] && listed[i..][1..] == listed[i + 1..];
  }

  /** Loading and merging one file keeps the configuration well formed, also when it stops part-way. */
  lemma MergeFileKeepsWellFormed(root: PArray, file: string, key: Option<string>, state: FileState)
    requires WellFormed(root) && StateStored(state)
    ensures WellFormed(MergeFileRun(root, file, key, state).root)
  {
    if LoadFile(file, state).Ok? {
      var e := state.value.entries;
      if key.Some? {
        assert PairsStored([(StrK(key.value), Arr(e))]) by {
          assert [(StrK(key.value), Arr(e))][0].1 == state.value;
        }
        MergeAllKeepsWellFormed(root, [(StrK(key.value), Arr(e))]);
      } else {
        MergeAllKeepsWellFormed(root, e);
      }
    }
  }

  /** The walk over the listed files keeps the configuration well formed, wherever it stops. */
  lemma {:induction false} MergeFilesKeepsWellFormed(root: PArray, directory: string, realDirectory: string,
                                                     listed: seq<ListedFile>, files: map<string, FileState>)
    requires WellFormed(root) && FilesStored(files)
    ensures WellFormed(MergeFilesRun(root, directory, realDirectory, listed, files).root)
    decreases |listed|
  {
    if listed != [] {
      var step := MergeListedRun(root, directory, realDirectory, listed[0], files);
      MergeListedKeepsWellFormed(root, directory, realDirectory, listed[0], files);
      if step.Done? {
        MergeFilesKeepsWellFormed(step.root, directory, realDirectory, listed[1..], files);
        assert MergeFilesRun(root, directory, realDirectory, listed, files)
          == MergeFilesRun(step.root, directory, realDirectory, listed[1..], files);
      } else {
        assert MergeFilesRun(root, directory, realDirectory, listed, files) == step;
      }
    }
  }

  /** Merging one listed file keeps the configuration well formed. */
  lemma MergeListedKeepsWellFormed(root: PArray, directory: string, realDirectory: string, listed: ListedFile,
                                   files: map<string, FileState>)
    requires WellFormed(root) && FilesStored(files)
    ensures WellFormed(MergeListedRun(root, directory, realDirectory, listed, files).root)
  {
    if listed.realPath.Some? {
      var path := listed.realPath.value;
      assert StateStored(StateOf(files, path));
      MergeFileKeepsWellFormed(root, path, Some(FilePathToKey(realDirectory, path)), StateOf(files, path));
    }
  }

  /** mergeDirectory: the directory checks, then every listed file in listing order. */
  function MergeDirectoryRun(root: PArray, directory: string, dir: Directory, files: map<string, FileState>): MergeRun {
    match dir
    case Unresolvable => Stopped(root, DirectoryNotResolvable(directory))
    case Resolved(realDir, isDir, readable, listed) =>
      if !isDir then Stopped(root, DirectoryNotFound(realDir))
      else if !readable then Stopped(root, DirectoryNotReadable(realDir))
      else MergeFilesRun(root, directory, realDir, listed, files)
  }

  /** A file that cannot be loaded leaves the configuration as it was. */
  lemma FailedLoadChangesNothing(root: PArray, file: string, key: Option<string>, state: FileState)
    requires !(state.Returns? && state.value.Arr?)
    ensures MergeFileRun(root, file, key, state) == Stopped(root, LoadFile(file, state).error)
  {
  }

  /**
   * A file `<dir>/a/b.php` returning an array is merged at the path a, b: the
   * directory's layout becomes nesting.
   */
  lemma DirectoryFileNests(root: PArray, realDirectory: string, segs: seq<string>, e: PArray)
    requires |segs| >= 1 && forall i :: 0 <= i < |segs| ==> GoodSegment(segs[i])
    requires Normalize(Join(segs, '.'), Arr(e)).Ok?
    ensures var path := realDirectory + "/" + Join(segs, '/') + ".php";
      var run := MergeFileRun(root, path, Some(FilePathToKey(realDirectory, path)), Returns(Arr(e)));
      run.Done? && LookupPath(Arr(run.root), segs)
        == Some(MergeTwoValues(LookupPath(Arr(root), segs).GetOr(Null), Normalize(Join(segs, '.'), Arr(e)).value))
  {
    var path := realDirectory + "/" + Join(segs, '/') + ".php";
    forall i | 0 <= i < |segs| ensures segs[i] != [] && NoneIn(segs[i], {'/'}) {
      assert GoodSegment(segs[i]);
    }
    FileKeyOfNestedPath(realDirectory, segs);
    FileUnderKey(root, path, FilePathToKey(realDirectory, path), segs, e);
  }

  /** A file merged under a valid key lands, merged with what was there, at the key's path. */
  lemma FileUnderKey(root: PArray, file: string, key: string, segs: seq<string>, e: PArray)
    requires ValidateKey(key) == Ok(segs) && Normalize(key, Arr(e)).Ok?
    ensures MergeFileRun(root, file, Some(key), Returns(Arr(e))).Done?
    ensures LookupPath(Arr(MergeFileRun(root, file, Some(key), Returns(Arr(e))).root), segs)
      == Some(MergeTwoValues(LookupPath(Arr(root), segs).GetOr(Null), Normalize(key, Arr(e)).value))
  {
    MergePairEffect(root, StrK(key), Arr(e), []);
    var r := MergePair(root, StrK(key), Arr(e)).value;
    assert MergeAll(root, [(StrK(key), Arr(e))]) == MergeAll(r, []);
  }

  // ---------------------------------------------------------------------------
  // The object
  // ---------------------------------------------------------------------------

  class Configuration {
    /** The stored configuration tree. */
    var root: PArray

    /** The stored array holds only stored values under distinct keys. */
    ghost predicate Valid()
      reads this
    {
      WellFormed(root)
    }

    /** An empty configuration (the constructor with no argument). */
    constructor ()
      ensures root == [] && Valid()
    {
      root := [];
    }

    /** The constructor and Configuration::new: an empty configuration that merges options. */
    static method New(options: PArray) returns (r: Result<Configuration, ConfigError>)
      ensures MergeAll([], options).Done? <==> r.Ok?
      ensures r.Ok? ==> fresh(r.value) && r.value.root == MergeAll([], options).root
      ensures r.Err? ==> r.error == MergeAll([], options).error
    {
      var c := new Configuration();
      var o := c.Merge(options);
      if o.Pass? {
        r := Ok(c);
      } else {
        r := Err(o.error);
      }
    }

    /** Store the outcome of a helper: the new array on success, nothing changed on failure. */
    method Store(res: Result<PArray, ConfigError>) returns (o: Outcome<ConfigError>)
      modifies this
      ensures res.Ok? ==> o == Pass && root == res.value
      ensures res.Err? ==> o == Fail(res.error) && root == old(root)
    {
      if res.Ok? {
        root := res.value;
        o := Pass;
      } else {
        o := Fail(res.error);
      }
    }

    /** The walk shared by set, append and prepend. */
    method Update(key: string, op: LeafOp, value: Value) returns (o: Outcome<ConfigError>)
      modifies this
      ensures UpdateKey(old(root), key, op, value).Ok? ==>
        o == Pass && root == UpdateKey(old(root), key, op, value).value
      ensures UpdateKey(old(root), key, op, value).Err? ==>
        o == Fail(UpdateKey(old(root), key, op, value).error) && root == old(root)
      ensures old(Valid()) && TreesStored(value) ==> Valid()
    {
      if Valid() && TreesStored(value) && UpdateKey(root, key, op, value).Ok? {
        UpdateKeyKeepsWellFormed(root, key, op, value);
      }
      o := Store(UpdateKey(root, key, op, value));
    }

    method Set(key: string, value: Value) returns (o: Outcome<ConfigError>)
      modifies this
      ensures UpdateKey(old(root), key, Assign, value).Ok? ==>
        o == Pass && root == UpdateKey(old(root), key, Assign, value).value
      ensures UpdateKey(old(root), key, Assign, value).Err? ==>
        o == Fail(UpdateKey(old(root), key, Assign, value).error) && root == old(root)
      ensures old(Valid()) && TreesStored(value) ==> Valid()
    {
      o := Update(key, Assign, value);
    }

    method Append(key: string, value: Value) returns (o: Outcome<ConfigError>)
      modifies this
      ensures UpdateKey(old(root), key, AppendTo, value).Ok? ==>
        o == Pass && root == UpdateKey(old(root), key, AppendTo, value).value
      ensures UpdateKey(old(root), key, AppendTo, value).Err? ==>
        o == Fail(UpdateKey(old(root), key, AppendTo, value).error) && root == old(root)
      ensures old(Valid()) && TreesStored(value) ==> Valid()
    {
      o := Update(key, AppendTo, value);
    }

    method Prepend(key: string, value: Value) returns (o: Outcome<ConfigError>)
      modifies this
      ensures UpdateKey(old(root), key, PrependTo, value).Ok? ==>
        o == Pass && root == UpdateKey(old(root), key, PrependTo, value).value
      ensures UpdateKey(old(root), key, PrependTo, value).Err? ==>
        o == Fail(UpdateKey(old(root), key, PrependTo, value).error) && root == old(root)
      ensures old(Valid()) && TreesStored(value) ==> Valid()
    {
      o := Update(key, PrependTo, value);
    }

    method Unset(key: string) returns (o: Outcome<ConfigError>)
      modifies this
      ensures UnsetKey(old(root), key).Ok? ==> o == Pass && root == UnsetKey(old(root), key).value
      ensures UnsetKey(old(root), key).Err? ==> o == Fail(UnsetKey(old(root), key).error) && root == old(root)
      ensures old(Valid()) ==> Valid()
    {
      if Valid() && UnsetKey(root, key).Ok? {
        UnsetKeyKeepsWellFormed(root, key);
      }
      o := Store(UnsetKey(root, key));
    }

    method Get(key: string, default: Value) returns (r: Result<Value, ConfigError>)
      ensures r == GetKey(root, key, default)
    {
      r := GetKey(root, key, default);
    }

    method Has(key: string) returns (r: Result<bool, ConfigError>)
      ensures r == HasKey(root, key)
    {
      r := HasKey(root, key);
    }

    method Reset()
      modifies this
      ensures root == [] && Valid()
    {
      root := [];
    }

    method ToArray() returns (r: PArray)
      ensures r == root
    {
      r := root;
    }

    /**
     * merge: array_walk over the pairs; each pair's result is stored at once, so
     * an exception leaves the pairs before it merged.
     */
    method Merge(options: PArray) returns (o: Outcome<ConfigError>)
      modifies this
      ensures root == MergeAll(old(root), options).root
      ensures o == if MergeAll(old(root), options).Done? then Pass else Fail(MergeAll(old(root), options).error)
      ensures old(Valid()) && PairsStored(options) ==> Valid()
    {
      var i := 0;
      while i < |options|
        invariant 0 <= i <= |options|
        invariant MergeAll(root, options[i..]) == MergeAll(old(root), options)
        invariant old(Valid()) && PairsStored(options) ==> Valid()
      {
        var r := MergePair(root, options[i].0, options[i].1);
        if r.Err? {
          return Fail(r.error);
        }
        if Valid() && PairsStored(options) {
          MergePairKeepsWellFormed(root, options[i].0, options[i].1);
        }
        root := r.value;
        assert options[i..][1..] == options[i + 1..];
        i := i + 1;
      }
      return Pass;
    }

    method MergeFile(file: string, key: Option<string>, state: FileState) returns (o: Outcome<ConfigError>)
      modifies this
      ensures root == MergeFileRun(old(root), file, key, state).root
      ensures o == if MergeFileRun(old(root), file, key, state).Done? then Pass
        else Fail(MergeFileRun(old(root), file, key, state).error)
      ensures old(Valid()) && StateStored(state) ==> Valid()
    {
      var loaded := LoadFile(file, state);
      if loaded.Err? {
        return Fail(loaded.error);
      }
      var options := if key.Some? then [(StrK(key.value), Arr(loaded.value))] else loaded.value;
      o := Merge(options);
    }

    method MergeDirectory(directory: string, dir: Directory, files: map<string, FileState>)
      returns (o: Outcome<ConfigError>)
      modifies this
      ensures root == MergeDirectoryRun(old(root), directory, dir, files).root
      ensures o == if MergeDirectoryRun(old(root), directory, dir, files).Done? then Pass
        else Fail(MergeDirectoryRun(old(root), directory, dir, files).error)
      ensures old(Valid()) && FilesStored(files) ==> Valid()
    {
      if dir.Unresolvable? {
        return Fail(DirectoryNotResolvable(directory));
      }
      if !dir.isDirectory {
        return Fail(DirectoryNotFound(dir.realPath));
      }
      if !dir.readable {
        return Fail(DirectoryNotReadable(dir.realPath));
      }
      o := MergeFiles(directory, dir.realPath, dir.phpFiles, files);
    }

    /** The array_walk of mergeDirectory over the listed files. */
    method MergeFiles(directory: string, realDirectory: string, listed: seq<ListedFile>, files: map<string, FileState>)
      returns (o: Outcome<ConfigError>)
      modifies this
      ensures root == MergeFilesRun(old(root), directory, realDirectory, listed, files).root
      ensures o == if MergeFilesRun(old(root), directory, realDirectory, listed, files).Done? then Pass
        else Fail(MergeFilesRun(old(root), directory, realDirectory, listed, files).error)
      ensures old(Valid()) && FilesStored(files) ==> Valid()
    {
      ghost var goal := MergeFilesRun(root, directory, realDirectory, listed, files);
      ghost var keep := Valid() && FilesStored(files);
      if keep {
        MergeFilesKeepsWellFormed(root, directory, realDirectory, listed, files);
      }
      assert listed[0..] == listed;
      var i := 0;
      o := Pass;
      while i < |listed| && o.Pass?
        invariant 0 <= i <= |listed|
        invariant o.Pass? ==> MergeFilesRun(root, directory, realDirectory, listed[i..], files) == goal
        invariant o.Fail? ==> goal == Stopped(root, o.error)
      {
        o := MergeNext(directory, realDirectory, listed, i, files);
        i := i + 1;
      }
      if o.Pass? {
        assert listed[i..] == [];
      }
    }

    /** One iteration of the walk: the file at index i, and what is left of the run after it. */
    method MergeNext(directory: string, realDirectory: string, listed: seq<ListedFile>, i: int,
                     files: map<string, FileState>)
      returns (o: Outcome<ConfigError>)
      requires 0 <= i < |listed|
      modifies this
      ensures o.Fail? ==> MergeFilesRun(old(root), directory, realDirectory, listed[i..], files) == Stopped(root, o.error)
      ensures o.Pass? ==>
        MergeFilesRun(old(root), directory, realDirectory, listed[i..], files)
          == MergeFilesRun(root, directory, realDirectory, listed[i + 1..], files)
    {
      MergeFilesStep(root, directory, realDirectory, listed, i, files);
      o := MergeListed(directory, realDirectory, listed[i], files);
    }

    /** One step of the walk. */
    method MergeListed(directory: string, realDirectory: string, listed: ListedFile, files: map<string, FileState>)
      returns (o: Outcome<ConfigError>)
      modifies this
      ensures root == MergeListedRun(old(root), directory, realDirectory, listed, files).root
      ensures o == if MergeListedRun(old(root), directory, realDirectory, listed, files).Done? then Pass
        else Fail(MergeListedRun(old(root), directory, realDirectory, listed, files).error)
      ensures old(Valid()) && FilesStored(files) ==> Valid()
    {
      if listed.realPath.None? {
        return Fail(FilePathResolution(listed.pathName, directory));
      }
      var path := listed.realPath.value;
      var state := StateOf(files, path);
      assert FilesStored(files) ==> StateStored(state);
      o := MergeFile(path, Some(FilePathToKey(realDirectory, path)), state);
    }

    /** wrap: a new configuration built from the array at key (or the default). */
    method Wrap(key: string, default: PArray) returns (r: Result<Configuration, ConfigError>)
      ensures WrapKey(root, key, default).Ok? <==> r.Ok?
      ensures r.Ok? ==> fresh(r.value) && r.value.root == WrapKey(root, key, default).value
      ensures r.Err? ==> r.error == WrapKey(root, key, default).error
    {
      var g := Get(key, Arr(default));
      if g.Err? {
        return Err(g.error);
      }
      if !g.value.Arr? {
        return Err(CannotWrap(key, TypeName(g.value)));
      }
      r := New(g.value.entries);
    }
  }
}
