/**
 * `bookmark_dict`: the outline of a PDF, flattened and grouped by the page
 * each bookmark points at. The PDF reader is reduced to what the function
 * asks of it: each bookmark's destination page number and the page labels.
 */
module Bookmarks {
  import opened Common
  import opened Text

  /**
   * An outline entry: a bookmark, with the page number the reader resolves
   * its destination to, or a nested list of entries.
   */
  datatype OutlineItem =
    | Entry(title: string, destination: int)
    | Nested(items: seq<OutlineItem>)

  /** A page key: the page index, or the page label when labels are used. */
  datatype Key = Index(index: int) | Label(name: string)

  /** `dict(title=..., page=key)`. */
  datatype Bookmark = Bookmark(title: string, page: Key)

  /** The reader's `page_labels`: one label per page. */
  datatype Reader = Reader(pageLabels: seq<string>)

  /** The exception a look-up outside the page list raises. */
  datatype PageError = IndexError | TypeError

  /** Python's `xs[i]` on a list of length `n`: negative indices count from the end. */
  function PyIndex(n: nat, i: int): (r: Option<nat>)
    ensures r.Some? <==> -(n as int) <= i < n
    ensures r.Some? ==> r.value < n && (r.value == i || r.value == n + i)
  {
    if 0 <= i < n then Some(i) else if -(n as int) <= i < 0 then Some(n + i) else None
  }

  /** The entries of an outline, depth-first, in document order. */
  function Flat(items: seq<OutlineItem>): seq<OutlineItem>
    decreases items, 1
  {
    if items == [] then [] else Flat(items[..|items| - 1]) + FlatItem(items[|items| - 1])
  }

  function FlatItem(item: OutlineItem): seq<OutlineItem>
    decreases item, 0
  {
    match item
    case Entry(_, _) => [item]
    case Nested(xs) => Flat(xs)
  }

  lemma {:induction false} FlatOnlyEntries(items: seq<OutlineItem>)
    ensures forall e :: e in Flat(items) ==> e.Entry?
    decreases items, 1
  {
    if items != [] {
      FlatOnlyEntries(items[..|items| - 1]);
      var last := items[|items| - 1];
      if last.Nested? {
        FlatOnlyEntries(last.items);
      }
    }
  }

  lemma {:induction false} FlatConcat(xs: seq<OutlineItem>, ys: seq<OutlineItem>)
    ensures Flat(xs + ys) == Flat(xs) + Flat(ys)
    decreases |ys|
  {
    if ys == [] {
      assert xs + ys == xs;
    } else {
      assert (xs + ys)[..|xs + ys| - 1] == xs + ys[..|ys| - 1];
      FlatConcat(xs, ys[..|ys| - 1]);
    }
  }

  /** Nesting is invisible: a sub-list contributes its entries where it stands. */
  lemma NestingTransparent(before: seq<OutlineItem>, inner: seq<OutlineItem>, after: seq<OutlineItem>)
    ensures Flat(before + [Nested(inner)] + after) == Flat(before + inner + after)
  {
    FlatConcat(before + [Nested(inner)], after);
    FlatConcat(before, [Nested(inner)]);
    FlatConcat(before + inner, after);
    FlatConcat(before, inner);
    assert Flat([Nested(inner)]) == Flat([]) + FlatItem(Nested(inner));
  }

  // ---------------------------------------------------------------------------
  // Grouping

  /** The `result` dict: its keys in insertion order and the list under each. */
  datatype Groups = Groups(keys: seq<Key>, lists: map<Key, seq<Bookmark>>)

  function NoGroups(): Groups {
    Groups([], map[])
  }

  /** Titles containing "Table" (case-sensitive) are skipped. */
  predicate Skipped(title: string) {
    Contains(title, "Table")
  }

  /**
   * The key of a kept bookmark: the label lookup always happens (and raises
   * IndexError outside the page list); the key is the label or the raw index.
   */
  function KeyOf(title: string, destination: int, reader: Reader, useLabels: bool): Result<Key, PageError> {
    match PyIndex(|reader.pageLabels|, destination)
    case None => Failure(IndexError)
    case Some(j) => Success(if useLabels then Label(reader.pageLabels[j]) else Index(destination))
  }

  /** `result[key].append(dict(title=..., page=key))`, creating the list first for a new key. */
  function Append(g: Groups, key: Key, b: Bookmark): Groups {
    if key in g.lists then Groups(g.keys, g.lists[key := g.lists[key] + [b]])
    else Groups(g.keys + [key], g.lists[key := [b]])
  }

  /** One entry of the loop: skipped, or appended under its key. */
  function Step(g: Groups, e: OutlineItem, reader: Reader, useLabels: bool): Result<Groups, PageError>
    requires e.Entry?
  {
    if Skipped(e.title) then Success(g)
    else
      var key := KeyOf(e.title, e.destination, reader, useLabels);
      if key.Failure? then Failure(key.error) else Success(Append(g, key.value, Bookmark(e.title, key.value)))
  }

  /**
   * Feeding flattened entries one by one into the dict; the first exception
   * stops the loop and leaves the dict as it was then.
   */
  function Feed(g: Groups, es: seq<OutlineItem>, reader: Reader, useLabels: bool): (r: (Groups, Option<PageError>))
    requires forall e :: e in es ==> e.Entry?
  {
    if es == [] then (g, None)
    else
      var prev := Feed(g, es[..|es| - 1], reader, useLabels);
      if prev.1.Some? then prev
      else
        var s := Step(prev.0, es[|es| - 1], reader, useLabels);
        if s.Failure? then (prev.0, Some(s.error)) else (s.value, None)
  }

  lemma {:induction false} FeedConcat(g: Groups, xs: seq<OutlineItem>, ys: seq<OutlineItem>, reader: Reader, useLabels: bool)
    requires forall e :: e in xs + ys ==> e.Entry?
    ensures Feed(g, xs + ys, reader, useLabels) ==
      var a := Feed(g, xs, reader, useLabels);
      if a.1.Some? then a else Feed(a.0, ys, reader, useLabels)
    decreases |ys|
  {
    if ys == [] {
      assert xs + ys == xs;
    } else {
      assert (xs + ys)[..|xs + ys| - 1] == xs + ys[..|ys| - 1];
      FeedConcat(g, xs, ys[..|ys| - 1], reader, useLabels);
    }
  }

  // --- an independent description of the finished dict ------------------------

  /** The key of a kept entry, when it resolves. */
  predicate KeptWith(e: OutlineItem, k: Key, reader: Reader, useLabels: bool)
    requires e.Entry?
  {
    !Skipped(e.title) && KeyOf(e.title, e.destination, reader, useLabels) == Success(k)
  }

  /** The bookmarks of the kept entries with key `k`, in order. */
  function Group(es: seq<OutlineItem>, k: Key, reader: Reader, useLabels: bool): seq<Bookmark>
    requires forall e :: e in es ==> e.Entry?
  {
    if es == [] then []
    else
      var e := es[|es| - 1];
      Group(es[..|es| - 1], k, reader, useLabels) + (if KeptWith(e, k, reader, useLabels) then [Bookmark(e.title, k)] else [])
  }

  /** The keys of the kept entries, each once, in order of first occurrence. */
  function FirstKeys(es: seq<OutlineItem>, reader: Reader, useLabels: bool): seq<Key>
    requires forall e :: e in es ==> e.Entry?
  {
    if es == [] then []
    else
      var prev := FirstKeys(es[..|es| - 1], reader, useLabels);
      var e := es[|es| - 1];
      var key := KeyOf(e.title, e.destination, reader, useLabels);
      if !Skipped(e.title) && key.Success? && key.value !in prev then prev + [key.value] else prev
  }

  /** Whether the label look-up of every kept entry stays inside the page list. */
  predicate AllResolve(es: seq<OutlineItem>, reader: Reader)
    requires forall e :: e in es ==> e.Entry?
  {
    forall i :: 0 <= i < |es| ==> !Skipped(es[i].title) ==> PyIndex(|reader.pageLabels|, es[i].destination).Some?
  }

  /**
   * Feeding entries into an empty dict raises exactly when some kept
   * entry's page lies outside the page list. Otherwise the keys are the kept
   * entries' keys, each once in order of first occurrence, and each list holds
   * that key's kept bookmarks in outline order.
   */
  lemma {:induction false} FeedResult(es: seq<OutlineItem>, reader: Reader, useLabels: bool)
    requires forall e :: e in es ==> e.Entry?
    ensures Feed(NoGroups(), es, reader, useLabels).1.None? <==> AllResolve(es, reader)
    ensures Feed(NoGroups(), es, reader, useLabels).1.Some? ==> Feed(NoGroups(), es, reader, useLabels).1.value == IndexError
    ensures Feed(NoGroups(), es, reader, useLabels).1.None? ==>
      var g := Feed(NoGroups(), es, reader, useLabels).0;
      && g.keys == FirstKeys(es, reader, useLabels)
      && (forall k :: k in g.lists <==> k in g.keys)
      && (forall k :: k in g.lists ==> g.lists[k] == Group(es, k, reader, useLabels))
  {
    if es != [] {
      var prefix := es[..|es| - 1];
      var e := es[|es| - 1];
      FeedResult(prefix, reader, useLabels);
      assert forall i :: 0 <= i < |prefix| ==> prefix[i] == es[i];
      var prev := Feed(NoGroups(), prefix, reader, useLabels);
      if prev.1.None? {
        var g := prev.0;
        var key := KeyOf(e.title, e.destination, reader, useLabels);
        if !Skipped(e.title) && key.Success? {
          var g' := Feed(NoGroups(), es, reader, useLabels).0;
          forall k | k in g'.lists ensures g'.lists[k] == Group(es, k, reader, useLabels) {
            if k != key.value {
              assert !KeptWith(e, k, reader, useLabels);
            } else if key.value !in g.lists {
              GroupEmpty(prefix, k, reader, useLabels);
            }
          }
        }
      }
    }
  }

  /** A key not in the first-key list has no bookmarks. */
  lemma {:induction false} GroupEmpty(es: seq<OutlineItem>, k: Key, reader: Reader, useLabels: bool)
    requires forall e :: e in es ==> e.Entry?
    requires k !in FirstKeys(es, reader, useLabels)
    ensures Group(es, k, reader, useLabels) == []
  {
    if es != [] {
      var prefix := es[..|es| - 1];
      assert forall e :: e in prefix ==> e in es;
      GroupEmpty(prefix, k, reader, useLabels);
    }
  }

  /** No element occurs twice. */
  predicate Distinct<T(==)>(xs: seq<T>) {
    forall i, j :: 0 <= i < j < |xs| ==> xs[i] != xs[j]
  }

  /** Each key is listed once. */
  lemma {:induction false} FirstKeysDistinct(es: seq<OutlineItem>, reader: Reader, useLabels: bool)
    requires forall e :: e in es ==> e.Entry?
    ensures Distinct(FirstKeys(es, reader, useLabels))
  {
    if es != [] {
      var prefix := es[..|es| - 1];
      assert forall e :: e in prefix ==> e in es;
      FirstKeysDistinct(prefix, reader, useLabels);
      var prev := FirstKeys(prefix, reader, useLabels);
      var ks := FirstKeys(es, reader, useLabels);
      var e := es[|es| - 1];
      var key := KeyOf(e.title, e.destination, reader, useLabels);
      if !Skipped(e.title) && key.Success? && key.value !in prev {
        assert ks == prev + [key.value];
        forall i, j | 0 <= i < j < |ks| ensures ks[i] != ks[j] {
          assert j == |prev| || prev[i] != prev[j];
          assert ks[i] == prev[i];
          if j == |prev| {
            assert prev[i] in prev;
          } else {
            assert ks[j] == prev[j];
          }
        }
      }
    }
  }

  /** Every grouped bookmark carries its key and a title without "Table". */
  lemma {:induction false} GroupMembers(es: seq<OutlineItem>, k: Key, reader: Reader, useLabels: bool)
    requires forall e :: e in es ==> e.Entry?
    ensures forall b :: b in Group(es, k, reader, useLabels) ==> b.page == k && !Skipped(b.title)
    ensures |Group(es, k, reader, useLabels)| <= |es|
  {
    if es != [] {
      var prefix := es[..|es| - 1];
      assert forall e :: e in prefix ==> e in es;
      GroupMembers(prefix, k, reader, useLabels);
    }
  }

  // ---------------------------------------------------------------------------
  // The shared result dict

  class BookmarkDict {
    /** The keys of `result`, in insertion order. */
    var keys: seq<Key>
    /** `result[key]` for each key. */
    var lists: map<Key, seq<Bookmark>>

    /** `kw.get('result', {})` when no dict is passed: a fresh empty one. */
    constructor()
      ensures keys == [] && lists == map[]
    {
      keys := [];
      lists := map[];
    }

    /**
     * One call of `bookmark_dict` with this dict as `result`: nested lists are
     * handled by a recursive call on the same dict.
     */
    method Add(items: seq<OutlineItem>, reader: Reader, useLabels: bool) returns (err: Option<PageError>)
      modifies this
      ensures FlatOnly(items)
      ensures (Groups(keys, lists), err) == Feed(old(Groups(keys, lists)), Flat(items), reader, useLabels)
      decreases items
    {
      FlatOnlyEntries(items);
      ghost var start := Groups(keys, lists);
      var i := 0;
      while i < |items|
        invariant 0 <= i <= |items|
        invariant FlatOnly(items[..i])
        invariant (Groups(keys, lists), None) == Feed(start, Flat(items[..i]), reader, useLabels)
      {
        var item := items[i];
        assert items[..i + 1] == items[..i] + [item];
        assert Flat(items[..i + 1]) == Flat(items[..i]) + FlatItem(item);
        FlatOnlyEntries(items[..i + 1]);
        FeedConcat(start, Flat(items[..i]), FlatItem(item), reader, useLabels);
        var e;
        if item.Nested? {
          e := Add(item.items, reader, useLabels);
        } else {
          e := AddEntry(item, reader, useLabels);
        }
        if e.Some? {
          FeedRestAfterError(start, items, i + 1, reader, useLabels);
          return e;
        }
        i := i + 1;
      }
      assert items[..i] == items;
      err := None;
    }

    /** The loop body for a bookmark (lines 12-18). */
    method AddEntry(item: OutlineItem, reader: Reader, useLabels: bool) returns (err: Option<PageError>)
      requires item.Entry?
      modifies this
      ensures (Groups(keys, lists), err) == Feed(old(Groups(keys, lists)), [item], reader, useLabels)
    {
      assert [item][..0] == [];
      ghost var g := Groups(keys, lists);
      if Skipped(item.title) {
        return None;
      }
      var labels := reader.pageLabels;
      var n := |labels|;
      if !(-n <= item.destination < n) {
        return Some(IndexError);
      }
      var pageLabel := if item.destination >= 0 then labels[item.destination] else labels[n + item.destination];
      var key := if useLabels then Label(pageLabel) else Index(item.destination);
      var b := Bookmark(item.title, key);
      if key !in lists {
        keys := keys + [key];
        lists := lists[key := []];
        assert lists[key] + [b] == [b];
      }
      lists := lists[key := lists[key] + [b]];
      assert KeyOf(item.title, item.destination, reader, useLabels) == Success(key);
      assert Groups(keys, lists) == Append(g, key, b);
      err := None;
    }
  }

  predicate FlatOnly(items: seq<OutlineItem>) {
    forall e :: e in Flat(items) ==> e.Entry?
  }

  /** After an exception, the remaining items change nothing more. */
  lemma FeedRestAfterError(start: Groups, items: seq<OutlineItem>, k: nat, reader: Reader, useLabels: bool)
    requires k <= |items| && FlatOnly(items)
    requires forall e :: e in Flat(items[..k]) ==> e.Entry?
    requires Feed(start, Flat(items[..k]), reader, useLabels).1.Some?
    ensures Feed(start, Flat(items), reader, useLabels) == Feed(start, Flat(items[..k]), reader, useLabels)
  {
    assert items == items[..k] + items[k..];
    FlatConcat(items[..k], items[k..]);
    FeedConcat(start, Flat(items[..k]), Flat(items[k..]), reader, useLabels);
  }

  /** `bookmark_dict(outline, reader, use_labels=...)`: the filled dict, or the exception. */
  method BookmarkDictOf(outline: seq<OutlineItem>, reader: Reader, useLabels: bool) returns (r: Result<Groups, PageError>)
    ensures FlatOnly(outline)
    ensures var f := Feed(NoGroups(), Flat(outline), reader, useLabels);
      r == if f.1.Some? then Failure(f.1.value) else Success(f.0)
  {
    var result := new BookmarkDict();
    var err := result.Add(outline, reader, useLabels);
    if err.Some? {
      return Failure(err.value);
    }
    r := Success(Groups(result.keys, result.lists));
  }
}
