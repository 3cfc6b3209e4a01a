/**
 * `split_and_save`: walk the grouped bookmarks in the order of their padded
 * page keys and write one PDF per run of consecutive bookmarks that share a
 * section title. The PDF reader is reduced to its number of pages; the writer
 * is reduced to the list of files written, each with the pages it received.
 */
module SplitPdf {
  import opened Common
  import opened Text
  import opened StrOrder
  import opened Bookmarks

  // ---------------------------------------------------------------------------
  // File names

  /** The characters `re.sub(r'[<>:"/\\|?*]', '_', ...)` replaces. */
  predicate Unsafe(c: char) {
    c == '<' || c == '>' || c == ':' || c == '"' || c == '/' || c == '\\' || c == '|' || c == '?' || c == '*'
  }

  /** Each unsafe character becomes `_`; every other character is kept. */
  function Sanitize(s: string): (r: string)
    ensures |r| == |s|
    ensures forall i :: 0 <= i < |s| ==> r[i] == (if Unsafe(s[i]) then '_' else s[i])
  {
    if s == [] then [] else Sanitize(s[..|s| - 1]) + [if Unsafe(s[|s| - 1]) then '_' else s[|s| - 1]]
  }

  /** A sanitised name holds no unsafe character, so sanitising it again changes nothing. */
  lemma SanitizeIdempotent(s: string)
    ensures forall i :: 0 <= i < |Sanitize(s)| ==> !Unsafe(Sanitize(s)[i])
    ensures Sanitize(Sanitize(s)) == Sanitize(s)
  {
  }

  /**
   * The section a (sanitised) bookmark title belongs to: "Section p.0" when
   * the text before the first '.' is a non-empty run of digits `p`, otherwise
   * the title itself.
   */
  function SectionTitle(name: string): string {
    match IndexOf(name, '.')
    case None => name
    case Some(i) => if IsDigits(name[..i]) then "Section " + name[..i] + ".0" else name
  }

  /** A numbered heading `p.rest` is filed under "Section p.0", whatever `rest` is. */
  lemma NumberedSection(p: string, rest: string)
    requires IsDigits(p)
    ensures SectionTitle(p + "." + rest) == "Section " + p + ".0"
  {
    var s := p + "." + rest;
    assert forall k :: 0 <= k < |p| ==> s[k] == p[k];
    IndexOfFirst(s, '.', |p|);
    assert s[..|p|] == p;
  }

  /** Headings of the same chapter share a section, so they land in one file when adjacent. */
  lemma SameChapterSameSection(p: string, rest1: string, rest2: string)
    requires IsDigits(p)
    ensures SectionTitle(p + "." + rest1) == SectionTitle(p + "." + rest2)
  {
    NumberedSection(p, rest1);
    NumberedSection(p, rest2);
  }

  /** A title without '.', or whose text before the first '.' is not all digits, is kept as it is. */
  lemma UnnumberedKept(name: string)
    requires '.' !in name || !IsDigits(name[..IndexOf(name, '.').value])
    ensures SectionTitle(name) == name
  {
  }

  /** "Section p.0" is itself not numbered: deriving the section twice changes nothing. */
  lemma SectionTitleIdempotent(name: string)
    ensures SectionTitle(SectionTitle(name)) == SectionTitle(name)
  {
    var r := SectionTitle(name);
    if r != name {
      var i := IndexOf(name, '.').value;
      var p := name[..i];
      assert r == "Section " + p + ".0";
      assert r[|r| - 2] == '.';
      var j := IndexOf(r, '.').value;
      assert r[0] == 'S';
      assert r[..j][0] == 'S';
    }
  }

  /** `f"./pdfs/{current_section}.pdf"` */
  function FilePath(section: string): (r: string)
    ensures |r| == |section| + 11
  {
    "./pdfs/" + section + ".pdf"
  }

  /** Different sections never share a file; the same section always does. */
  lemma FilePathInjective(a: string, b: string)
    ensures FilePath(a) == FilePath(b) <==> a == b
  {
    if FilePath(a) == FilePath(b) {
      assert a == FilePath(a)[7..|FilePath(a)| - 4];
      assert b == FilePath(b)[7..|FilePath(b)| - 4];
    }
  }

  // ---------------------------------------------------------------------------
  // Key order

  /** `str(key)` */
  function KeyStr(k: Key): string {
    match k
    case Index(i) => IntStr(i)
    case Label(s) => s
  }

  /** `f"{str(key):>5}"` */
  function SortKey(k: Key): string {
    Rjust(KeyStr(k), 5)
  }

  /** The `result.items()` pairs, in the dict's insertion order. */
  type Entries = seq<(Key, seq<Bookmark>)>

  function EntryKey(e: (Key, seq<Bookmark>)): string {
    SortKey(e.0)
  }

  /** `sorted(result.items(), key=...)`: stable, by padded key string. */
  function Sorted(result: Entries): (r: Entries)
    ensures multiset(r) == multiset(result)
  {
    SortBy(result, EntryKey)
  }

  /** The pairs of a grouped dict, keys in insertion order. */
  function EntriesOf(g: Groups): (r: Entries)
    requires forall k :: k in g.keys ==> k in g.lists
    ensures |r| == |g.keys|
    ensures forall i :: 0 <= i < |r| ==> r[i].0 == g.keys[i] && r[i].1 == g.lists[g.keys[i]]
  {
    seq(|g.keys|, i requires 0 <= i < |g.keys| => (g.keys[i], g.lists[g.keys[i]]))
  }

  /**
   * With page indices `0 <= k < 100000` as keys (the default, `use_labels`
   * off), the entries are visited in ascending page order, and no entry is
   * lost or added.
   */
  lemma NumericOrder(result: Entries)
    requires forall e :: e in result ==> e.0.Index? && 0 <= e.0.index < 100000
    ensures multiset(Sorted(result)) == multiset(result)
    ensures var s := Sorted(result);
      forall i, j :: 0 <= i < j < |s| ==> s[i].0.Index? && s[j].0.Index? && s[i].0.index <= s[j].0.index
  {
    var s := Sorted(result);
    SortBySorted(result, EntryKey);
    forall e | e in s ensures e.0.Index? && 0 <= e.0.index < 100000 {
      assert e in multiset(s);
    }
    forall i, j | 0 <= i < j < |s| ensures s[i].0.Index? && s[j].0.Index? && s[i].0.index <= s[j].0.index {
      assert s[i] in s && s[j] in s;
      assert !Less(EntryKey(s[j]), EntryKey(s[i]));
      PadKeyOrder(s[j].0.index, s[i].0.index);
    }
  }

  // ---------------------------------------------------------------------------
  // The files written

  /** One bookmark as the loop sees it: its section and the page key it was filed under. */
  datatype Item = Item(section: string, key: Key)

  /** The section of a bookmark title: sanitised, then numbered headings collapsed. */
  function SectionOf(title: string): string {
    SectionTitle(Sanitize(title))
  }

  /** The items of one entry, in list order, with `sec` giving each title's section. */
  function EntryItems(key: Key, bs: seq<Bookmark>, sec: string -> string): seq<Item> {
    if bs == [] then [] else EntryItems(key, bs[..|bs| - 1], sec) + [Item(sec(bs[|bs| - 1].title), key)]
  }

  /** The items of all entries, entry after entry. */
  function Items(es: Entries, sec: string -> string): seq<Item> {
    if es == [] then [] else Items(es[..|es| - 1], sec) + EntryItems(es[|es| - 1].0, es[|es| - 1].1, sec)
  }

  /** `reader.pages[key]`: a list indexed by an int (negative from the end); a label raises TypeError. */
  function PageOf(k: Key, pageCount: nat): (r: Result<nat, PageError>)
    ensures k.Label? ==> r == Failure(TypeError)
    ensures k.Index? ==> (r.Success? <==> -(pageCount as int) <= k.index < pageCount)
    ensures k.Index? && r.Failure? ==> r.error == IndexError
    ensures r.Success? ==> r.value < pageCount && (r.value == k.index || r.value == pageCount + k.index)
  {
    match k
    case Label(_) => Failure(TypeError)
    case Index(i) => match PyIndex(pageCount, i) { case None => Failure(IndexError) case Some(j) => Success(j) }
  }

  /** A `pdf_writer.write(...)` to `FilePath(section)` holding `pages` in order. */
  datatype Write = Write(section: string, pages: seq<nat>)

  /** A page joins the last run when its section continues it, else it opens a new run. */
  function AddPage(runs: seq<Write>, section: string, page: nat): seq<Write> {
    if runs != [] && runs[|runs| - 1].section == section then
      runs[..|runs| - 1] + [Write(section, runs[|runs| - 1].pages + [page])]
    else runs + [Write(section, [page])]
  }

  /** The runs already written when an item of `section` fails: all but an open run it would continue. */
  function Closed(runs: seq<Write>, section: string): seq<Write> {
    if runs != [] && runs[|runs| - 1].section == section then runs[..|runs| - 1] else runs
  }

  /**
   * The writes of the loop over `items` and the exception that stopped it.
   * On success every run is written, the last one after the loop.
   */
  function Save(items: seq<Item>, pageCount: nat): (seq<Write>, Option<PageError>) {
    if items == [] then ([], None)
    else
      var prev := Save(items[..|items| - 1], pageCount);
      var item := items[|items| - 1];
      if prev.1.Some? then prev
      else
        match PageOf(item.key, pageCount)
        case Failure(e) => (Closed(prev.0, item.section), Some(e))
        case Success(p) => (AddPage(prev.0, item.section, p), None)
  }

  /** The (section, page) pairs one write carries. */
  function Pairs(w: Write): (r: seq<(string, nat)>)
    ensures |r| == |w.pages|
    ensures forall i :: 0 <= i < |r| ==> r[i] == (w.section, w.pages[i])
  {
    seq(|w.pages|, i requires 0 <= i < |w.pages| => (w.section, w.pages[i]))
  }

  /** The (section, page) pairs the writes carry, file after file. */
  function Joined(ws: seq<Write>): seq<(string, nat)> {
    if ws == [] then [] else Joined(ws[..|ws| - 1]) + Pairs(ws[|ws| - 1])
  }

  /** Maximal runs: no file is empty and neighbouring files have different sections. */
  predicate Maximal(ws: seq<Write>) {
    && (forall i :: 0 <= i < |ws| ==> ws[i].pages != [])
    && (forall i :: 0 < i < |ws| ==> ws[i - 1].section != ws[i].section)
  }

  lemma {:induction false} AddPageRuns(ws: seq<Write>, section: string, page: nat)
    requires Maximal(ws)
    ensures Maximal(AddPage(ws, section, page))
    ensures Joined(AddPage(ws, section, page)) == Joined(ws) + [(section, page)]
  {
    var r := AddPage(ws, section, page);
    if ws != [] && ws[|ws| - 1].section == section {
      var w := ws[|ws| - 1];
      assert r[..|r| - 1] == ws[..|ws| - 1];
      assert Pairs(Write(section, w.pages + [page])) == Pairs(w) + [(section, page)];
    } else {
      assert r[..|r| - 1] == ws;
    }
  }

  /** The loop succeeds exactly when every item's page resolves. */
  lemma {:induction false} SaveSucceeds(items: seq<Item>, pageCount: nat)
    ensures Save(items, pageCount).1.None? <==> forall i :: 0 <= i < |items| ==> PageOf(items[i].key, pageCount).Success?
  {
    if items != [] {
      var prefix := items[..|items| - 1];
      SaveSucceeds(prefix, pageCount);
      assert forall i :: 0 <= i < |prefix| ==> prefix[i] == items[i];
    }
  }

  /**
   * On success the files are the maximal runs of equal sections: one file
   * per run, holding that run's pages in order; nothing is written for no
   * items.
   */
  lemma {:induction false} SaveRuns(items: seq<Item>, pageCount: nat)
    requires Save(items, pageCount).1.None?
    ensures var ws := Save(items, pageCount).0;
      && Maximal(ws)
      && |Joined(ws)| == |items|
      && (forall i :: 0 <= i < |items| ==>
            PageOf(items[i].key, pageCount).Success? &&
            Joined(ws)[i] == (items[i].section, PageOf(items[i].key, pageCount).value))
      && (ws == [] <==> items == [])
  {
    if items != [] {
      var prefix := items[..|items| - 1];
      var item := items[|items| - 1];
      SaveRuns(prefix, pageCount);
      var prev := Save(prefix, pageCount).0;
      var p := PageOf(item.key, pageCount).value;
      AddPageRuns(prev, item.section, p);
      var ws := Save(items, pageCount).0;
      assert ws == AddPage(prev, item.section, p);
      assert ws != [];
      assert Joined(ws) == Joined(prev) + [(item.section, p)];
      forall i | 0 <= i < |items|
        ensures PageOf(items[i].key, pageCount).Success?
        ensures Joined(ws)[i] == (items[i].section, PageOf(items[i].key, pageCount).value)
      {
        if i < |prefix| {
          assert items[i] == prefix[i];
        }
      }
    }
  }

  /** After an exception the remaining items change nothing. */
  lemma {:induction false} SaveFailureSticks(xs: seq<Item>, ys: seq<Item>, pageCount: nat)
    requires Save(xs, pageCount).1.Some?
    ensures Save(xs + ys, pageCount) == Save(xs, pageCount)
    decreases |ys|
  {
    if ys != [] {
      assert (xs + ys)[..|xs + ys| - 1] == xs + ys[..|ys| - 1];
      SaveFailureSticks(xs, ys[..|ys| - 1], pageCount);
    } else {
      assert xs + ys == xs;
    }
  }

  /**
   * The first item whose page does not resolve stops the loop with its
   * exception. The files written are the runs of the items before it, except
   * the open run when that item continues its section.
   */
  lemma FirstErrorStops(items: seq<Item>, pageCount: nat, j: nat)
    requires j < |items| && PageOf(items[j].key, pageCount).Failure?
    requires forall i :: 0 <= i < j ==> PageOf(items[i].key, pageCount).Success?
    ensures Save(items, pageCount) ==
      (Closed(Save(items[..j], pageCount).0, items[j].section), Some(PageOf(items[j].key, pageCount).error))
  {
    SaveSucceeds(items[..j], pageCount);
    assert items[..j + 1][..j] == items[..j];
    assert items == items[..j + 1] + items[j + 1..];
    SaveFailureSticks(items[..j + 1], items[j + 1..], pageCount);
  }

  /** A section that recurs after another one is written again, to the same file name. */
  lemma RecurringSectionRewrites()
    ensures var ws := Save([Item("A", Index(0)), Item("B", Index(1)), Item("A", Index(2))], 3).0;
      && ws == [Write("A", [0]), Write("B", [1]), Write("A", [2])]
      && FilePath(ws[0].section) == FilePath(ws[2].section)
  {
    var items := [Item("A", Index(0)), Item("B", Index(1)), Item("A", Index(2))];
    assert items[..2] == [Item("A", Index(0)), Item("B", Index(1))];
    assert items[..2][..1] == [Item("A", Index(0))];
    assert Save(items[..2][..1], 3).0 == [Write("A", [0])];
  }

  // ---------------------------------------------------------------------------
  // The loop

  /** The runs so far: the files written plus the one the open writer would produce. */
  function Open(writes: seq<Write>, current: Option<string>, pages: seq<nat>): seq<Write> {
    if current.Some? then writes + [Write(current.value, pages)] else writes
  }

  lemma {:induction false} ItemsSnoc(es: Entries, i: nat, sec: string -> string)
    requires i < |es|
    ensures Items(es[..i + 1], sec) == Items(es[..i], sec) + EntryItems(es[i].0, es[i].1, sec)
  {
    assert es[..i + 1][..i] == es[..i];
  }

  lemma {:induction false} ItemsConcat(xs: Entries, ys: Entries, sec: string -> string)
    ensures Items(xs + ys, sec) == Items(xs, sec) + Items(ys, sec)
    decreases |ys|
  {
    if ys == [] {
      assert xs + ys == xs;
    } else {
      var last := ys[|ys| - 1];
      assert (xs + ys)[..|xs + ys| - 1] == xs + ys[..|ys| - 1];
      assert (xs + ys)[|xs + ys| - 1] == last;
      ItemsConcat(xs, ys[..|ys| - 1], sec);
      assert Items(xs + ys, sec) == Items(xs + ys[..|ys| - 1], sec) + EntryItems(last.0, last.1, sec);
      assert Items(ys, sec) == Items(ys[..|ys| - 1], sec) + EntryItems(last.0, last.1, sec);
    }
  }

  lemma {:induction false} EntryItemsConcat(key: Key, xs: seq<Bookmark>, ys: seq<Bookmark>, sec: string -> string)
    ensures EntryItems(key, xs + ys, sec) == EntryItems(key, xs, sec) + EntryItems(key, ys, sec)
    decreases |ys|
  {
    if ys == [] {
      assert xs + ys == xs;
    } else {
      assert (xs + ys)[..|xs + ys| - 1] == xs + ys[..|ys| - 1];
      EntryItemsConcat(key, xs, ys[..|ys| - 1], sec);
    }
  }

  /** After an exception inside one entry, the rest of that entry changes nothing. */
  lemma {:induction false} EntryFailureSticks(done: seq<Item>, key: Key, value: seq<Bookmark>, k: nat, pageCount: nat, sec: string -> string)
    requires k <= |value|
    requires Save(done + EntryItems(key, value[..k], sec), pageCount).1.Some?
    ensures Save(done + EntryItems(key, value, sec), pageCount) == Save(done + EntryItems(key, value[..k], sec), pageCount)
  {
    var xs := EntryItems(key, value[..k], sec);
    var ys := EntryItems(key, value[k..], sec);
    assert value == value[..k] + value[k..];
    EntryItemsConcat(key, value[..k], value[k..], sec);
    assert done + EntryItems(key, value, sec) == (done + xs) + ys;
    SaveFailureSticks(done + xs, ys, pageCount);
  }

  lemma EntryItemsSnoc(done: seq<Item>, key: Key, value: seq<Bookmark>, j: nat, sec: string -> string)
    requires j < |value|
    ensures done + EntryItems(key, value[..j + 1], sec) ==
      done + EntryItems(key, value[..j], sec) + [Item(sec(value[j].title), key)]
  {
    assert value[..j + 1][..j] == value[..j];
  }

  /**
   * An item whose section differs from the open one (or when none is open)
   * closes the open file and starts a new one with its page; a page that
   * does not resolve leaves exactly the closed files.
   */
  lemma NewSectionStep(items: seq<Item>, runs: seq<Write>, section: string, key: Key, pageCount: nat)
    requires Save(items, pageCount) == (runs, None)
    requires runs == [] || runs[|runs| - 1].section != section
    ensures PageOf(key, pageCount).Failure? ==>
      Save(items + [Item(section, key)], pageCount) == (runs, Some(PageOf(key, pageCount).error))
    ensures PageOf(key, pageCount).Success? ==>
      Save(items + [Item(section, key)], pageCount) == (runs + [Write(section, [PageOf(key, pageCount).value])], None)
  {
    SaveStep(items, Item(section, key), pageCount);
  }

  /**
   * An item continuing the open section adds its page to the open file; a
   * page that does not resolve leaves the open file unwritten.
   */
  lemma SameSectionStep(items: seq<Item>, writes: seq<Write>, section: string, pages: seq<nat>, key: Key, pageCount: nat)
    requires Save(items, pageCount) == (writes + [Write(section, pages)], None)
    ensures PageOf(key, pageCount).Failure? ==>
      Save(items + [Item(section, key)], pageCount) == (writes, Some(PageOf(key, pageCount).error))
    ensures PageOf(key, pageCount).Success? ==>
      Save(items + [Item(section, key)], pageCount) == (writes + [Write(section, pages + [PageOf(key, pageCount).value])], None)
  {
    SaveStep(items, Item(section, key), pageCount);
    assert (writes + [Write(section, pages)])[..|writes|] == writes;
  }

  /** After an exception in one entry, the later entries change nothing. */
  lemma ItemsFailureSticks(es: Entries, k: nat, pageCount: nat, sec: string -> string)
    requires k <= |es|
    requires Save(Items(es[..k], sec), pageCount).1.Some?
    ensures Save(Items(es, sec), pageCount) == Save(Items(es[..k], sec), pageCount)
  {
    assert es == es[..k] + es[k..];
    ItemsConcat(es[..k], es[k..], sec);
    SaveFailureSticks(Items(es[..k], sec), Items(es[k..], sec), pageCount);
  }

  lemma {:induction false} SaveStep(items: seq<Item>, item: Item, pageCount: nat)
    ensures Save(items + [item], pageCount) ==
      var prev := Save(items, pageCount);
      if prev.1.Some? then prev
      else
        match PageOf(item.key, pageCount)
        case Failure(e) => (Closed(prev.0, item.section), Some(e))
        case Success(p) => (AddPage(prev.0, item.section, p), None)
  {
    assert (items + [item])[..|items|] == items;
  }

  /**
   * `split_and_save(result, reader)`: the files written, in order, and the
   * exception that ended the loop early, if any.
   */
  method SplitAndSave(result: Entries, reader: Reader) returns (writes: seq<Write>, err: Option<PageError>)
    ensures (writes, err) == Save(Items(Sorted(result), SectionOf), |reader.pageLabels|)
  {
    var pageCount := |reader.pageLabels|;
    var sorted := Sorted(result);
    var current: Option<string> := None;
    var pages: seq<nat> := [];
    writes, err := [], None;
    for i := 0 to |sorted|
      invariant Save(Items(sorted[..i], SectionOf), pageCount) == (Open(writes, current, pages), None)
      invariant current.None? ==> writes == []
      invariant err.None?
    {
      ItemsSnoc(sorted, i, SectionOf);
      writes, current, pages, err := SaveEntry(sorted[i].0, sorted[i].1, pageCount, Items(sorted[..i], SectionOf), writes, current, pages);
      if err.Some? {
        ItemsFailureSticks(sorted, i + 1, pageCount, SectionOf);
        return;
      }
    }
    assert sorted[..|sorted|] == sorted;
    if current.Some? {
      writes := writes + [Write(current.value, pages)];
    }
  }

  /**
   * The inner loop over the bookmarks filed under one key, continuing from
   * the files written so far, the open section and its pages.
   */
  method SaveEntry(key: Key, value: seq<Bookmark>, pageCount: nat, ghost done: seq<Item>,
                   writes0: seq<Write>, current0: Option<string>, pages0: seq<nat>)
    returns (writes: seq<Write>, current: Option<string>, pages: seq<nat>, err: Option<PageError>)
    requires Save(done, pageCount) == (Open(writes0, current0, pages0), None)
    requires current0.None? ==> writes0 == []
    ensures err.None? ==> Save(done + EntryItems(key, value, SectionOf), pageCount) == (Open(writes, current, pages), None)
    ensures err.None? ==> (current.None? ==> writes == [])
    ensures err.Some? ==> Save(done + EntryItems(key, value, SectionOf), pageCount) == (writes, err)
  {
    writes, current, pages, err := writes0, current0, pages0, None;
    assert done + EntryItems(key, value[..0], SectionOf) == done;
    for j := 0 to |value|
      invariant Save(done + EntryItems(key, value[..j], SectionOf), pageCount) == (Open(writes, current, pages), None)
      invariant current.None? ==> writes == []
      invariant err.None?
    {
      EntryItemsSnoc(done, key, value, j, SectionOf);
      writes, current, pages, err := SaveItem(key, value[j].title, pageCount, done + EntryItems(key, value[..j], SectionOf), writes, current, pages);
      if err.Some? {
        EntryFailureSticks(done, key, value, j + 1, pageCount, SectionOf);
        return;
      }
    }
    assert value[..|value|] == value;
  }

  /**
   * The loop body for one bookmark: close the open file when the section
   * changes, then add the bookmark's page to the open writer.
   */
  method SaveItem(key: Key, title: string, pageCount: nat, ghost before: seq<Item>,
                  writes0: seq<Write>, current0: Option<string>, pages0: seq<nat>)
    returns (writes: seq<Write>, current: Option<string>, pages: seq<nat>, err: Option<PageError>)
    requires Save(before, pageCount) == (Open(writes0, current0, pages0), None)
    requires current0.None? ==> writes0 == []
    ensures err.None? ==> Save(before + [Item(SectionOf(title), key)], pageCount) == (Open(writes, current, pages), None)
    ensures err.None? ==> (current.None? ==> writes == [])
    ensures err.Some? ==> Save(before + [Item(SectionOf(title), key)], pageCount) == (writes, err)
  {
    writes, current, pages := writes0, current0, pages0;
    var section := SectionTitle(Sanitize(title));
    if current.None? || section != current.value {
      if current.Some? {
        writes := writes + [Write(current.value, pages)];
      }
      pages := [];
      current := Some(section);
      NewSectionStep(before, writes, section, key, pageCount);
    } else {
      SameSectionStep(before, writes, section, pages, key, pageCount);
    }
    var page := PageOf(key, pageCount);
    if page.Failure? {
      return writes, current, pages, Some(page.error);
    }
    assert pages == [] ==> pages + [page.value] == [page.value];
    pages := pages + [page.value];
    err := None;
  }
}
