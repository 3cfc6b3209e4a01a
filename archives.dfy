/**
 * Member selection of the ZIP and TAR handlers: which archive members end up
 * in the record's `content` mapping, and with what text.
 */
module Archives {
  import opened Common
  import opened Text

  /** A ZIP entry; `data` is its bytes decoded as UTF-8 with undecodable bytes dropped. */
  datatype ZipMember = ZipMember(name: string, data: string)

  /** A TAR member as `getmembers()` lists it; `isFile` says whether it is a regular file. */
  datatype TarMember = TarMember(name: string, isFile: bool, data: string)

  function ZipName(m: ZipMember): string { m.name }

  function TarName(m: TarMember): string { m.name }

  /** `ZipFile.namelist()` and `TarFile.getnames()`: every member name, in archive order, repeats included. */
  function Names<M>(ms: seq<M>, nameOf: M -> string): (names: seq<string>)
    ensures |names| == |ms| && forall i :: 0 <= i < |ms| ==> names[i] == nameOf(ms[i])
  {
    if ms == [] then [] else Names(ms[..|ms| - 1], nameOf) + [nameOf(ms[|ms| - 1])]
  }

  /**
   * The position of the last member called `name`. `ZipFile.read(name)` reads
   * that entry (its name table keeps the last entry of each name) and
   * `TarFile.getmember` searches the members from the end.
   */
  function LastIndex<M>(ms: seq<M>, nameOf: M -> string, name: string): (r: Option<nat>)
    ensures r.Some? <==> name in Names(ms, nameOf)
    ensures r.Some? ==> r.value < |ms| && nameOf(ms[r.value]) == name
    ensures r.Some? ==> forall j :: r.value < j < |ms| ==> nameOf(ms[j]) != name
  {
    if ms == [] then None
    else if nameOf(ms[|ms| - 1]) == name then Some(|ms| - 1)
    else
      assert Names(ms, nameOf) == Names(ms[..|ms| - 1], nameOf) + [nameOf(ms[|ms| - 1])];
      LastIndex(ms[..|ms| - 1], nameOf, name)
  }

  // ---------------------------------------------------------------------------
  // ZIP

  /**
   * The ZIP handler's `content` comprehension, evaluated over the first `k`
   * names: every name not ending in `/`, mapped to what reading it gives.
   */
  function ZipContentUpTo(ms: seq<ZipMember>, k: nat): (content: map<string, string>)
    requires k <= |ms|
    ensures forall n :: n in content <==> n in Names(ms, ZipName)[..k] && !EndsWith(n, "/")
    ensures forall n :: n in content ==> LastIndex(ms, ZipName, n).Some? && content[n] == ms[LastIndex(ms, ZipName, n).value].data
  {
    if k == 0 then map[]
    else
      var prev := ZipContentUpTo(ms, k - 1);
      var name := ms[k - 1].name;
      assert Names(ms, ZipName)[..k] == Names(ms, ZipName)[..k - 1] + [name];
      if EndsWith(name, "/") then prev else prev[name := ms[LastIndex(ms, ZipName, name).value].data]
  }

  /**
   * `content` of a ZIP record: exactly the entry names not ending in `/`, each
   * mapped to the decoded data of the last entry with that name.
   */
  function ZipContent(ms: seq<ZipMember>): (content: map<string, string>)
    ensures forall n :: n in content <==> n in Names(ms, ZipName) && !EndsWith(n, "/")
    ensures forall n :: n in content ==> LastIndex(ms, ZipName, n).Some? && content[n] == ms[LastIndex(ms, ZipName, n).value].data
  {
    assert Names(ms, ZipName)[..|ms|] == Names(ms, ZipName);
    ZipContentUpTo(ms, |ms|)
  }

  // ---------------------------------------------------------------------------
  // TAR

  /** `s.rstrip('/')`. */
  function RStripSlash(s: string): (r: string)
    ensures |r| <= |s| && r == s[..|r|]
    ensures forall k :: |r| <= k < |s| ==> s[k] == '/'
    ensures r == [] || r[|r| - 1] != '/'
  {
    if s == [] || s[|s| - 1] != '/' then s else RStripSlash(s[..|s| - 1])
  }

  /**
   * `TarFile.getmember(name)`: the last member whose name is `name` without
   * its trailing slashes; none means `KeyError`.
   */
  function GetMember(ms: seq<TarMember>, name: string): (r: Option<nat>)
    ensures r.Some? ==> r.value < |ms|
  {
    LastIndex(ms, TarName, RStripSlash(name))
  }

  /**
   * The TAR handler's loop over `names`: each name is looked up and, when its
   * member is a regular file, stored with that member's data. A name
   * `getmember` cannot find stops the loop, and the failure carries it.
   */
  function TarSelection(ms: seq<TarMember>, names: seq<string>): (r: Result<map<string, string>, string>)
    ensures r.Failure? ==> r.error in names && GetMember(ms, r.error).None?
    ensures r.Success? ==> forall n :: n in names ==> GetMember(ms, n).Some?
    ensures r.Success? ==> forall n :: n in r.value <==> n in names && GetMember(ms, n).Some? && ms[GetMember(ms, n).value].isFile
    ensures r.Success? ==> forall n :: n in r.value ==> GetMember(ms, n).Some? && r.value[n] == ms[GetMember(ms, n).value].data
  {
    if names == [] then Success(map[])
    else
      var prev := TarSelection(ms, names[..|names| - 1]);
      var name := names[|names| - 1];
      assert names == names[..|names| - 1] + [name];
      if prev.Failure? then prev
      else
        var m := GetMember(ms, name);
        if m.None? then Failure(name)
        else if ms[m.value].isFile then Success(prev.value[name := ms[m.value].data])
        else prev
  }

  /** The loop raises exactly when some name cannot be found by `getmember`. */
  lemma {:induction false} TarSelectionSucceeds(ms: seq<TarMember>, names: seq<string>)
    ensures TarSelection(ms, names).Success? <==> forall i :: 0 <= i < |names| ==> GetMember(ms, names[i]).Some?
  {
    if names != [] {
      TarSelectionSucceeds(ms, names[..|names| - 1]);
    }
  }

  /** After a name is not found, the remaining names change nothing. */
  lemma {:induction false} TarSelectionFailureSticks(ms: seq<TarMember>, names: seq<string>, k: nat)
    requires k <= |names| && TarSelection(ms, names[..k]).Failure?
    ensures TarSelection(ms, names) == TarSelection(ms, names[..k])
    decreases |names| - k
  {
    if k < |names| {
      assert names[..k + 1][..k] == names[..k];
      TarSelectionFailureSticks(ms, names, k + 1);
    } else {
      assert names[..k] == names;
    }
  }

  /** A name without a trailing `/` is looked up as it is. */
  lemma SlashFreeName(ms: seq<TarMember>, n: string)
    requires n == [] || n[|n| - 1] != '/'
    ensures GetMember(ms, n) == LastIndex(ms, TarName, n)
  {
  }

  /**
   * When no member name ends in `/`, every listed name is found: the loop
   * succeeds and stores exactly the names whose last member is a regular file.
   */
  lemma SlashFreeArchive(ms: seq<TarMember>)
    requires forall i :: 0 <= i < |ms| ==> ms[i].name == [] || ms[i].name[|ms[i].name| - 1] != '/'
    ensures TarSelection(ms, Names(ms, TarName)).Success?
    ensures forall n :: n in TarSelection(ms, Names(ms, TarName)).value <==>
      n in Names(ms, TarName) && ms[LastIndex(ms, TarName, n).value].isFile
  {
    var names := Names(ms, TarName);
    forall i | 0 <= i < |names| ensures GetMember(ms, names[i]).Some? {
      SlashFreeName(ms, names[i]);
    }
    TarSelectionSucceeds(ms, names);
    forall n | n in names ensures GetMember(ms, n) == LastIndex(ms, TarName, n) {
      var i :| 0 <= i < |names| && names[i] == n;
      SlashFreeName(ms, n);
    }
  }

  /**
   * A regular member listed as `x/` is looked up as `x`: when no member is
   * called `x`, `getmember` raises and the whole loop fails.
   */
  lemma TrailingSlashNotFound(ms: seq<TarMember>, n: string)
    requires n in Names(ms, TarName) && RStripSlash(n) !in Names(ms, TarName)
    ensures TarSelection(ms, Names(ms, TarName)).Failure?
  {
    var names := Names(ms, TarName);
    var i :| 0 <= i < |names| && names[i] == n;
    TarSelectionSucceeds(ms, names);
  }

  /**
   * The TAR handler's loop: for each name, look the member up and, when it is
   * a regular file, store its decoded data under the name; a name that is not
   * found ends the loop.
   */
  method TarContent(ms: seq<TarMember>) returns (r: Result<map<string, string>, string>)
    ensures r == TarSelection(ms, Names(ms, TarName))
  {
    var fileList := Names(ms, TarName);
    var content := map[];
    var i := 0;
    while i < |fileList|
      invariant i <= |fileList|
      invariant TarSelection(ms, fileList[..i]) == Success(content)
    {
      var name := fileList[i];
      var member := GetMember(ms, name);
      assert fileList[..i + 1][..i] == fileList[..i];
      assert fileList[..i + 1][i] == name;
      if member.None? {
        TarSelectionFailureSticks(ms, fileList, i + 1);
        return Failure(name);
      }
      if ms[member.value].isFile {
        content := content[name := ms[member.value].data];
      }
      i := i + 1;
    }
    assert fileList[..i] == fileList;
    r := Success(content);
  }
}
