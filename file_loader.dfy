/**
 * `FileProcessor`: the extension table, the dispatch of one file to its
 * handler, and the directory walk that collects one record per file.
 *
 * The file system is a `Node` tree handed to the walk; `os.scandir` yields a
 * directory's entries in the order of `entries`.
 */
module FileLoader {
  import opened Common
  import opened Text
  import opened Paths
  import opened Handlers

  /** The extension table: lower-cased suffix (with its dot) to handler. */
  type Table = map<string, Handler>

  /** The seventeen entries the constructor installs. */
  function DefaultHandlers(): Table {
    map[".txt" := Builtin(TextKind), ".log" := Builtin(TextKind),
        ".csv" := Builtin(CsvKind),
        ".pdf" := Builtin(PdfKind),
        ".jpg" := Builtin(ImageKind), ".jpeg" := Builtin(ImageKind),
        ".png" := Builtin(ImageKind), ".gif" := Builtin(ImageKind),
        ".json" := Builtin(JsonKind),
        ".xml" := Builtin(XmlKind),
        ".zip" := Builtin(ZipKind),
        ".tar" := Builtin(TarKind), ".gz" := Builtin(TarKind),
        ".html" := Builtin(HtmlKind), ".htm" := Builtin(HtmlKind),
        ".xlsx" := Builtin(ExcelKind), ".xls" := Builtin(ExcelKind)]
  }

  /** The message of the record for a file whose extension has no handler. */
  function NoHandlerMessage(ext: string): string {
    "No handler for file extension: " + ext
  }

  /** `process_file`: look the lower-cased suffix up and run that handler. */
  function Dispatch(t: Table, p: Path, d: FileData): Result<Record, Exc> {
    var ext := ExtensionKey(p);
    if ext in t then Run(t[ext], p, d)
    else Success(ErrorRecord("unknown", NoHandlerMessage(ext)))
  }

  /** A key a file name can produce: a dot, at least one more character, no other dot, no upper case. */
  predicate IsExtensionKey(k: string) {
    |k| >= 2 && k[0] == '.' && '.' !in k[1..] && forall c :: c in k ==> !('A' <= c <= 'Z')
  }

  /** Any file whose name is a non-empty dot-free stem followed by such a key dispatches on that key. */
  lemma {:induction false} StemAndKey(stem: string, k: string)
    requires stem != [] && '.' !in stem && IsExtensionKey(k)
    ensures ExtensionKey([stem + k]) == k
  {
    forall i | 0 <= i < |k| ensures Lower(k)[i] == k[i] {
      assert k[i] in k;
    }
    assert Lower(k) == k;
    var n := stem + k;
    assert n[|stem|] == '.';
    assert n[|n| - 1] == k[|k| - 1] != '.';
    assert n[0] == stem[0] != '.';
    var r := Suffix(n);
    assert r != "";
    assert r == k;
  }

  /** Every default entry is reachable: some file name dispatches to it. */
  lemma DefaultKeysReachable()
    ensures forall k :: k in DefaultHandlers() ==> IsExtensionKey(k) && ExtensionKey(["f" + k]) == k
  {
    forall k | k in DefaultHandlers()
      ensures IsExtensionKey(k) && ExtensionKey(["f" + k]) == k
    {
      assert IsExtensionKey(k);
      StemAndKey("f", k);
    }
  }

  /** A file whose extension the table lacks gets the "unknown" record and never an exception. */
  lemma UnknownExtension(t: Table, p: Path, d: FileData)
    requires ExtensionKey(p) !in t
    ensures Dispatch(t, p, d).Success?
    ensures Tag(Dispatch(t, p, d).value) == "unknown"
    ensures Dispatch(t, p, d).value.error == NoHandlerMessage(ExtensionKey(p))
  {
  }

  /** Every entry of the default table is a built-in handler. */
  lemma DefaultsAreBuiltin()
    ensures forall ext :: ext in DefaultHandlers() ==> DefaultHandlers()[ext].Builtin?
  {
  }

  /**
   * Under the default table, a file either gets a record of the family its
   * extension names, or the "unknown" record; an exception escapes only when
   * the family's handler does not catch it.
   */
  lemma DefaultDispatch(p: Path, d: FileData)
    ensures var ext := ExtensionKey(p);
      var r := Dispatch(DefaultHandlers(), p, d);
      && (ext in DefaultHandlers() && DefaultHandlers()[ext].Builtin? ==>
            var k := DefaultHandlers()[ext].kind;
            && (r.Success? ==> Tag(r.value) == KindTag(k))
            && (r.Failure? <==> Raised(k, d).Some? && !Catches(k, Raised(k, d).value.kind)))
      && (ext !in DefaultHandlers() ==> r == Success(ErrorRecord("unknown", NoHandlerMessage(ext))))
  {
    var ext := ExtensionKey(p);
    if ext in DefaultHandlers() {
      DefaultsAreBuiltin();
      var k := DefaultHandlers()[ext].kind;
      assert Dispatch(DefaultHandlers(), p, d) == Extract(k, d);
    }
  }

  /** After `register_handler(extension, h)`, files with that extension go to `h` and all others are unaffected. */
  lemma RegisterThenDispatch(t: Table, extension: string, h: Handler, p: Path, d: FileData)
    ensures ExtensionKey(p) == Lower(extension) ==> Dispatch(t[Lower(extension) := h], p, d) == Run(h, p, d)
    ensures ExtensionKey(p) != Lower(extension) ==> Dispatch(t[Lower(extension) := h], p, d) == Dispatch(t, p, d)
  {
  }

  /** A handler registered under a key without a leading dot is never chosen. */
  lemma UndottedKeyUnreachable(extension: string, p: Path)
    requires extension != [] && extension[0] != '.'
    ensures ExtensionKey(p) != Lower(extension)
  {
  }

  /** A handler registered under "" receives exactly the files that have no suffix. */
  lemma EmptyKeyTakesSuffixless(t: Table, h: Handler, p: Path, d: FileData)
    ensures Suffix(Name(p)) == "" ==> Dispatch(t[Lower("") := h], p, d) == Run(h, p, d)
    ensures Suffix(Name(p)) != "" ==> Dispatch(t[Lower("") := h], p, d) == Dispatch(t, p, d)
  {
    assert Lower("") == "";
  }

  // ---------------------------------------------------------------------------
  // The directory walk

  /** What happens to one file: `process_file` under some table, as `ProcessorOf` makes it. */
  type Processor = (Path, FileData) -> Result<Record, Exc>

  function ProcessorOf(t: Table): Processor {
    (p: Path, d: FileData) => Dispatch(t, p, d)
  }

  /** What `os.scandir` reports for an entry: a regular file, a directory, or anything else. */
  datatype Node =
    | File(name: string, data: FileData)
    | Dir(name: string, entries: seq<Node>)
    | Other(name: string)

  /** The results dict: `str(path)` to the file's record. */
  type Results = map<Path, Record>

  /** `str(directory)`: the components joined by "/". */
  function PathString(p: Path): string {
    if p == [] then "" else if |p| == 1 then p[0] else PathString(p[..|p| - 1]) + "/" + p[|p| - 1]
  }

  function NotADirectory(dir: Path): Exc {
    Exc(ValueError, PathString(dir) + " is not a valid directory.")
  }

  /**
   * `process_directory(dir)` where `node` is what lies at `dir`: a ValueError
   * unless it is a directory; otherwise its entries in order.
   */
  function Walk(f: Processor, dir: Path, node: Node, recursive: bool): Result<Results, Exc>
    decreases node, 1, 0
  {
    if node.Dir? then WalkEntries(f, dir, node, |node.entries|, recursive)
    else Failure(NotADirectory(dir))
  }

  /**
   * The results after the first `n` entries of the directory `node`: a file
   * is processed and stored under its path; a subdirectory, when `recursive`,
   * is walked (always recursively, the parameter's default) and merged in;
   * anything else is skipped. The first exception aborts the walk.
   */
  function WalkEntries(f: Processor, dir: Path, node: Node, n: nat, recursive: bool): Result<Results, Exc>
    requires node.Dir? && n <= |node.entries|
    decreases node, 0, n
  {
    if n == 0 then Success(map[])
    else
      var prev := WalkEntries(f, dir, node, n - 1, recursive);
      if prev.Failure? then prev
      else
        var e := node.entries[n - 1];
        var path := dir + [e.name];
        if e.File? then
          var r := f(path, e.data);
          if r.Failure? then Failure(r.error) else Success(prev.value[path := r.value])
        else if e.Dir? && recursive then
          var sub := Walk(f, path, e, true);
          if sub.Failure? then sub else Success(prev.value + sub.value)
        else prev
  }

  /** Once an entry has raised, the walk of the remaining entries keeps that exception. */
  lemma {:induction false} FailureSticks(f: Processor, dir: Path, node: Node, k: nat, n: nat, recursive: bool)
    requires node.Dir? && k <= n <= |node.entries|
    requires WalkEntries(f, dir, node, k, recursive).Failure?
    ensures WalkEntries(f, dir, node, n, recursive) == WalkEntries(f, dir, node, k, recursive)
    decreases n - k
  {
    if k < n {
      FailureSticks(f, dir, node, k, n - 1, recursive);
    }
  }

  /** One step of the walk over a regular file. */
  lemma FileStep(f: Processor, dir: Path, node: Node, i: nat, recursive: bool, results: Results)
    requires node.Dir? && i < |node.entries| && node.entries[i].File?
    requires WalkEntries(f, dir, node, i, recursive) == Success(results)
    ensures var p := dir + [node.entries[i].name];
      var r := f(p, node.entries[i].data);
      WalkEntries(f, dir, node, i + 1, recursive) == if r.Failure? then Failure(r.error) else Success(results[p := r.value])
  {
  }

  /** One step of the walk over a subdirectory it descends into. */
  lemma DirStep(f: Processor, dir: Path, node: Node, i: nat, recursive: bool, results: Results)
    requires node.Dir? && i < |node.entries| && node.entries[i].Dir? && recursive
    requires WalkEntries(f, dir, node, i, recursive) == Success(results)
    ensures var sub := Walk(f, dir + [node.entries[i].name], node.entries[i], true);
      WalkEntries(f, dir, node, i + 1, recursive) == if sub.Failure? then sub else Success(results + sub.value)
  {
  }

  /**
   * A subdirectory is walked only when `recursive` holds, so walking it with
   * the parameter's default `true` is walking it with `recursive` itself.
   */
  lemma NestedWalkKeepsFlag(f: Processor, dir: Path, node: Node, i: nat, recursive: bool, results: Results)
    requires node.Dir? && i < |node.entries| && node.entries[i].Dir?
    requires WalkEntries(f, dir, node, i, recursive) == Success(results)
    ensures WalkEntries(f, dir, node, i + 1, recursive) ==
      if !recursive then Success(results)
      else
        var sub := Walk(f, dir + [node.entries[i].name], node.entries[i], recursive);
        if sub.Failure? then sub else Success(results + sub.value)
  {
  }

  /** One step of the walk over an entry it skips. */
  lemma SkipStep(f: Processor, dir: Path, node: Node, i: nat, recursive: bool, results: Results)
    requires node.Dir? && i < |node.entries| && !node.entries[i].File? && !(node.entries[i].Dir? && recursive)
    requires WalkEntries(f, dir, node, i, recursive) == Success(results)
    ensures WalkEntries(f, dir, node, i + 1, recursive) == Success(results)
  {
  }

  // --- an independent description: the list of files a walk visits ----------

  /** The files the walk of `node` at `dir` visits, in visiting order. */
  function Files(dir: Path, node: Node, recursive: bool): seq<(Path, FileData)>
    decreases node, 1, 0
  {
    if node.Dir? then EntryFiles(dir, node, |node.entries|, recursive) else []
  }

  function EntryFiles(dir: Path, node: Node, n: nat, recursive: bool): seq<(Path, FileData)>
    requires node.Dir? && n <= |node.entries|
    decreases node, 0, n
  {
    if n == 0 then []
    else
      var e := node.entries[n - 1];
      var path := dir + [e.name];
      EntryFiles(dir, node, n - 1, recursive) +
        (if e.File? then [(path, e.data)]
         else if e.Dir? && recursive then Files(path, e, true)
         else [])
  }

  /** Processing a list of files one after the other into a fresh results dict. */
  function Collect(f: Processor, xs: seq<(Path, FileData)>): Result<Results, Exc> {
    if xs == [] then Success(map[])
    else
      var prev := Collect(f, xs[..|xs| - 1]);
      var x := xs[|xs| - 1];
      if prev.Failure? then prev
      else
        var r := f(x.0, x.1);
        if r.Failure? then Failure(r.error) else Success(prev.value[x.0 := r.value])
  }

  /** Collecting two lists in a row is `dict.update` of the second result into the first. */
  lemma {:induction false} CollectAppend(f: Processor, xs: seq<(Path, FileData)>, ys: seq<(Path, FileData)>)
    ensures Collect(f, xs + ys) ==
      if Collect(f, xs).Failure? then Collect(f, xs)
      else if Collect(f, ys).Failure? then Collect(f, ys)
      else Success(Collect(f, xs).value + Collect(f, ys).value)
    decreases |ys|
  {
    if ys == [] {
      assert xs + ys == xs;
      if Collect(f, xs).Success? {
        assert Collect(f, xs).value + map[] == Collect(f, xs).value;
      }
    } else {
      var ys' := ys[..|ys| - 1];
      var y := ys[|ys| - 1];
      assert (xs + ys)[..|xs + ys| - 1] == xs + ys';
      assert (xs + ys)[|xs + ys| - 1] == y;
      CollectAppend(f, xs, ys');
      if Collect(f, xs).Success? && Collect(f, ys').Success? && f(y.0, y.1).Success? {
        assert Collect(f, xs).value + Collect(f, ys').value[y.0 := f(y.0, y.1).value]
          == (Collect(f, xs).value + Collect(f, ys').value)[y.0 := f(y.0, y.1).value];
      }
    }
  }

  /** The walk is the processing of the files it visits, in order. */
  lemma {:induction false} WalkIsCollect(f: Processor, dir: Path, node: Node, recursive: bool)
    ensures Walk(f, dir, node, recursive) ==
      if node.Dir? then Collect(f, Files(dir, node, recursive)) else Failure(NotADirectory(dir))
    decreases node, 1, 0
  {
    if node.Dir? {
      EntriesAreCollect(f, dir, node, |node.entries|, recursive);
    }
  }

  lemma {:induction false} EntriesAreCollect(f: Processor, dir: Path, node: Node, n: nat, recursive: bool)
    requires node.Dir? && n <= |node.entries|
    ensures WalkEntries(f, dir, node, n, recursive) == Collect(f, EntryFiles(dir, node, n, recursive))
    decreases node, 0, n
  {
    if n > 0 {
      EntriesAreCollect(f, dir, node, n - 1, recursive);
      var e := node.entries[n - 1];
      var path := dir + [e.name];
      var xs := EntryFiles(dir, node, n - 1, recursive);
      if e.File? {
        assert (xs + [(path, e.data)])[..|xs|] == xs;
      } else if e.Dir? && recursive {
        WalkIsCollect(f, path, e, true);
        CollectAppend(f, xs, Files(path, e, true));
      } else {
        assert xs + [] == xs;
      }
    }
  }

  /** The paths of a file list. */
  function PathsOf(xs: seq<(Path, FileData)>): set<Path> {
    set i | 0 <= i < |xs| :: xs[i].0
  }

  predicate DistinctPaths(xs: seq<(Path, FileData)>) {
    forall i, j :: 0 <= i < j < |xs| ==> xs[i].0 != xs[j].0
  }

  /** Collecting succeeds exactly when no file raises. */
  lemma {:induction false} CollectSucceeds(f: Processor, xs: seq<(Path, FileData)>)
    ensures Collect(f, xs).Success? <==> forall i :: 0 <= i < |xs| ==> f(xs[i].0, xs[i].1).Success?
  {
    if xs != [] {
      var ys := xs[..|xs| - 1];
      CollectSucceeds(f, ys);
      assert forall i :: 0 <= i < |ys| ==> xs[i] == ys[i];
    }
  }

  /** When collecting fails, it is with the exception of the first file that raises. */
  lemma {:induction false} CollectFails(f: Processor, xs: seq<(Path, FileData)>)
    requires Collect(f, xs).Failure?
    ensures exists i :: 0 <= i < |xs| && f(xs[i].0, xs[i].1).Failure? &&
              Collect(f, xs) == Failure(f(xs[i].0, xs[i].1).error) &&
              forall j :: 0 <= j < i ==> f(xs[j].0, xs[j].1).Success?
  {
    var ys := xs[..|xs| - 1];
    var x := xs[|xs| - 1];
    assert forall i :: 0 <= i < |ys| ==> xs[i] == ys[i];
    if Collect(f, ys).Failure? {
      CollectFails(f, ys);
      var i :| 0 <= i < |ys| && f(ys[i].0, ys[i].1).Failure? &&
        Collect(f, ys) == Failure(f(ys[i].0, ys[i].1).error) &&
        forall j :: 0 <= j < i ==> f(ys[j].0, ys[j].1).Success?;
      assert xs[i] == ys[i];
    } else {
      CollectSucceeds(f, ys);
      assert f(xs[|ys|].0, xs[|ys|].1).Failure?;
    }
  }

  /**
   * Collecting a list of distinct files that all return maps every path, and
   * only those, to that file's record.
   */
  lemma {:induction false} CollectContents(f: Processor, xs: seq<(Path, FileData)>)
    requires DistinctPaths(xs) && Collect(f, xs).Success?
    ensures Collect(f, xs).value.Keys == PathsOf(xs)
    ensures forall i :: 0 <= i < |xs| ==> f(xs[i].0, xs[i].1).Success? && Collect(f, xs).value[xs[i].0] == f(xs[i].0, xs[i].1).value
  {
    if xs != [] {
      var ys := xs[..|xs| - 1];
      var x := xs[|xs| - 1];
      assert DistinctPaths(ys);
      CollectContents(f, ys);
      assert forall i :: 0 <= i < |ys| ==> xs[i] == ys[i];
      assert PathsOf(xs) == PathsOf(ys) + {x.0};
      forall i | 0 <= i < |ys|
        ensures Collect(f, xs).value[xs[i].0] == f(xs[i].0, xs[i].1).value
      {
        assert xs[i].0 != x.0;
      }
    }
  }

  // --- what the file list contains --------------------------------------------

  /** A directory tree as a file system has it: every entry name is non-empty and unique within its directory. */
  predicate WellFormed(node: Node) {
    node.name != "" &&
    (node.Dir? ==>
      (forall i, j :: 0 <= i < j < |node.entries| ==> node.entries[i].name != node.entries[j].name) &&
      (forall e :: e in node.entries ==> WellFormed(e)))
  }

  /** Every visited file lies strictly below the walked directory. */
  lemma {:induction false} FilesBelow(dir: Path, node: Node, recursive: bool)
    ensures forall x :: x in Files(dir, node, recursive) ==> |x.0| > |dir| && x.0[..|dir|] == dir
    decreases node, 1, 0
  {
    if node.Dir? {
      EntryFilesBelow(dir, node, |node.entries|, recursive);
    }
  }

  lemma {:induction false} EntryFilesBelow(dir: Path, node: Node, n: nat, recursive: bool)
    requires node.Dir? && n <= |node.entries|
    ensures forall x :: x in EntryFiles(dir, node, n, recursive) ==>
      |x.0| > |dir| && x.0[..|dir|] == dir && x.0[|dir|] in EntryNames(node, n)
    decreases node, 0, n
  {
    if n > 0 {
      EntryFilesBelow(dir, node, n - 1, recursive);
      var e := node.entries[n - 1];
      var path := dir + [e.name];
      if e.Dir? && recursive {
        FilesBelow(path, e, true);
        forall x | x in Files(path, e, true)
          ensures |x.0| > |dir| && x.0[..|dir|] == dir && x.0[|dir|] == e.name
        {
          assert x.0[..|path|][..|dir|] == x.0[..|dir|];
          assert x.0[..|path|][|dir|] == x.0[|dir|];
        }
      }
    }
  }

  /** The names of the first `n` entries. */
  function EntryNames(node: Node, n: nat): set<string>
    requires node.Dir? && n <= |node.entries|
  {
    set i | 0 <= i < n :: node.entries[i].name
  }

  /** In a well-formed tree no path is visited twice, so every file keeps its own entry in the results. */
  lemma {:induction false} FilesDistinct(dir: Path, node: Node, recursive: bool)
    requires WellFormed(node)
    ensures DistinctPaths(Files(dir, node, recursive))
    decreases node, 1, 0
  {
    if node.Dir? {
      EntryFilesDistinct(dir, node, |node.entries|, recursive);
    }
  }

  lemma {:induction false} EntryFilesDistinct(dir: Path, node: Node, n: nat, recursive: bool)
    requires node.Dir? && n <= |node.entries| && WellFormed(node)
    ensures DistinctPaths(EntryFiles(dir, node, n, recursive))
    decreases node, 0, n
  {
    if n > 0 {
      EntryFilesDistinct(dir, node, n - 1, recursive);
      EntryFilesBelow(dir, node, n - 1, recursive);
      var e := node.entries[n - 1];
      assert e in node.entries;
      var path := dir + [e.name];
      var xs := EntryFiles(dir, node, n - 1, recursive);
      var ys := if e.File? then [(path, e.data)] else if e.Dir? && recursive then Files(path, e, true) else [];
      if e.Dir? && recursive {
        FilesDistinct(path, e, true);
        FilesBelow(path, e, true);
      }
      assert forall y :: y in ys ==> |y.0| > |dir| && y.0[|dir|] == e.name by {
        forall y | y in ys ensures |y.0| > |dir| && y.0[|dir|] == e.name {
          assert y.0[..|path|][|dir|] == y.0[|dir|];
        }
      }
      assert e.name !in EntryNames(node, n - 1);
      assert xs + ys == EntryFiles(dir, node, n, recursive);
      forall i, j | 0 <= i < j < |xs + ys| ensures (xs + ys)[i].0 != (xs + ys)[j].0 {
        if i < |xs| && j >= |xs| {
          assert (xs + ys)[i] in xs;
          assert (xs + ys)[j] == ys[j - |xs|];
          assert ys[j - |xs|] in ys;
        } else if i >= |xs| {
          assert (xs + ys)[i] == ys[i - |xs|];
          assert (xs + ys)[j] == ys[j - |xs|];
        }
      }
    }
  }

  /** Without recursion the walk visits exactly the regular files directly inside the directory. */
  lemma {:induction false} ShallowFiles(dir: Path, node: Node, n: nat)
    requires node.Dir? && n <= |node.entries|
    ensures forall x :: x in EntryFiles(dir, node, n, false) <==>
      exists i :: 0 <= i < n && node.entries[i].File? && x == (dir + [node.entries[i].name], node.entries[i].data)
  {
    if n > 0 {
      ShallowFiles(dir, node, n - 1);
    }
  }

  /**
   * The walk of a well-formed directory: it raises exactly when some visited
   * file raises; otherwise its keys are exactly the visited files' paths,
   * each mapped to that file's own record.
   */
  lemma WalkResult(f: Processor, dir: Path, node: Node, recursive: bool)
    requires node.Dir? && WellFormed(node)
    ensures var xs := Files(dir, node, recursive);
      && (Walk(f, dir, node, recursive).Success? <==> forall i :: 0 <= i < |xs| ==> f(xs[i].0, xs[i].1).Success?)
      && (Walk(f, dir, node, recursive).Success? ==>
            && Walk(f, dir, node, recursive).value.Keys == PathsOf(xs)
            && forall i :: 0 <= i < |xs| ==> Walk(f, dir, node, recursive).value[xs[i].0] == f(xs[i].0, xs[i].1).value)
  {
    var xs := Files(dir, node, recursive);
    WalkIsCollect(f, dir, node, recursive);
    FilesDistinct(dir, node, recursive);
    CollectSucceeds(f, xs);
    if Collect(f, xs).Success? {
      CollectContents(f, xs);
    }
  }

  // ---------------------------------------------------------------------------
  // The processor object

  class FileProcessor {
    /** `self.handlers`. */
    var handlers: Table

    constructor()
      ensures handlers == DefaultHandlers()
    {
      handlers := DefaultHandlers();
    }

    /** `register_handler`: installs or replaces the handler under the lower-cased extension. */
    method RegisterHandler(extension: string, handler: Handler)
      modifies this
      ensures handlers == old(handlers)[Lower(extension) := handler]
    {
      handlers := handlers[Lower(extension) := handler];
    }

    /** `process_file`. */
    method ProcessFile(path: Path, data: FileData) returns (r: Result<Record, Exc>)
      ensures r == Dispatch(handlers, path, data)
      ensures ExtensionKey(path) !in handlers ==> r.Success? && Tag(r.value) == "unknown"
    {
      var ext := Lower(Suffix(Name(path)));
      if ext in handlers {
        r := Run(handlers[ext], path, data);
      } else {
        r := Success(ErrorRecord("unknown", "No handler for file extension: " + ext));
      }
    }

    /** `process_directory`: fails at the first exception, as the source does by letting it propagate. */
    method ProcessDirectory(directory: Path, node: Node, recursive: bool) returns (r: Result<Results, Exc>)
      ensures r == Walk(ProcessorOf(handlers), directory, node, recursive)
      decreases node, 1
    {
      if !node.Dir? {
        return Failure(NotADirectory(directory));
      }
      ghost var f := ProcessorOf(handlers);
      var results: Results := map[];
      var i := 0;
      while i < |node.entries|
        invariant 0 <= i <= |node.entries|
        invariant WalkEntries(f, directory, node, i, recursive) == Success(results)
      {
        var step := ProcessEntry(directory, node, i, recursive, results, f);
        if step.Failure? {
          FailureSticks(f, directory, node, i + 1, |node.entries|, recursive);
          return step;
        }
        results := step.value;
        i := i + 1;
      }
      r := Success(results);
    }

    /** One pass of the loop in `process_directory`: the entry at index `i`, added to `results`. */
    method ProcessEntry(directory: Path, node: Node, i: nat, recursive: bool, results: Results, ghost f: Processor)
      returns (r: Result<Results, Exc>)
      requires node.Dir? && i < |node.entries| && f == ProcessorOf(handlers)
      requires WalkEntries(f, directory, node, i, recursive) == Success(results)
      ensures r == WalkEntries(f, directory, node, i + 1, recursive)
      decreases node, 0
    {
      var entry := node.entries[i];
      var entryPath := directory + [entry.name];
      if entry.File? {
        var rec := ProcessFile(entryPath, entry.data);
        assert rec == f(entryPath, entry.data);
        FileStep(f, directory, node, i, recursive, results);
        if rec.Failure? {
          return Failure(rec.error);
        }
        r := Success(results[entryPath := rec.value]);
      } else if recursive && entry.Dir? {
        var sub := ProcessDirectory(entryPath, entry, true);
        DirStep(f, directory, node, i, recursive, results);
        if sub.Failure? {
          return sub;
        }
        r := Success(results + sub.value);
      } else {
        SkipStep(f, directory, node, i, recursive, results);
        r := Success(results);
      }
    }
  }
}
