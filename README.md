# Format-dispatching file extraction, schema inference and PDF splitting, in Dafny

This project models three parts of a small Python tool collection and proves properties of the models.

- **The extraction engine** (`file_loader.py`). A `FileProcessor` owns a table from lower-cased file suffixes to format handlers.
  - `register_handler` adds or replaces a table entry.
  - `process_file` sends a file to the handler its suffix names. A file with no handler gets an `"unknown"` record.
  - `process_directory` walks a directory tree. It builds a dict from each file's path to that file's record.
  - The XML handler turns an element tree into nested dicts, through `_element_to_dict`.
  - The ZIP and TAR handlers choose which archive members end up in the record's `content`.
  - The other handlers are record producers over what their libraries return or raise.
- **Schema inference** (`extract_schema.py`). It finds the schema of a loaded JSON document.
  - A dict becomes a dict of schemas.
  - A scalar becomes its Python type name.
  - A list becomes the merged schema of its elements, or the type name of its first element.
  - Dict and list schemas go through the module-level memo table `seen_schemas`.
- **PDF splitting** (`split_pdf_by_section.py`).
  - `bookmark_dict` flattens a PDF outline and groups the bookmarks by page key.
  - `split_and_save` visits the groups in order of their padded page keys. It writes one PDF per run of consecutive bookmarks that share a section title.

Modules, one per file:

| file | module | what it holds |
|---|---|---|
| `common.dfy` | `Common` | `Option` and `Result` |
| `text.dfy` | `Text` | `lower`, `strip`, `find`, `rfind`, `isdigit` and `in` on strings |
| `json.dfy` | `JsonValue` | JSON values; dicts as insertion-ordered key/value lists |
| `paths.dfy` | `Paths` | `Path.name` and `Path.suffix` |
| `xml.dfy` | `Xml` | `_element_to_dict` |
| `archives.dfy` | `Archives` | ZIP and TAR member selection |
| `handlers.dfy` | `Handlers` | the handlers and their `except` clauses |
| `file_loader.dfy` | `FileLoader` | the handler table, dispatch, the directory walk and the `FileProcessor` class |
| `schema.dfy` | `Schema` | schema inference and the `SchemaExtractor` class |
| `strorder.dfy` | `StrOrder` | Python string order, `str(int)`, `rjust` and the stable `sorted` |
| `bookmarks.dfy` | `Bookmarks` | `bookmark_dict` |
| `split_pdf.dfy` | `SplitPdf` | `split_and_save` |

Each stateful part is a class whose methods are proved against specification functions:
- `FileProcessor` owns the handler table.
- `SchemaExtractor` owns the memo table.
- `BookmarkDict` owns the `result` dict.

Each loop of the source is a `method` with a `while` or `for` loop, proved against a function that describes the whole loop. The properties the source promises are lemmas about those functions.

Two behaviours of the code that the model keeps:
- **Exceptions.** Only named exceptions become error records. The text and CSV handlers catch only `IOError`; JSON catches only `JSONDecodeError`; XML only `ParseError`; ZIP only `BadZipFile`; TAR only `TarError`. Any other exception escapes `process_file` and aborts `process_directory`. Examples are a `UnicodeDecodeError` on a text file, a `csv.Error`, a JSON file that cannot be opened, or the `KeyError` that `getmember` raises for a TAR member listed with a trailing `/`.
  - `Handlers.Extract` models this exactly.
  - `FileLoader.WalkResult` and `FileLoader.CollectFails` state what it means for a walk.
  - Unreadable directory entries are not turned into records either.
- **XML.** `<a><b>1</b><b>2</b></a>` becomes `{"b": [{"#text": "1"}, {"#text": "2"}]}`. The root's own tag is not a key, and a text-only child becomes a dict with a `#text` key (`Xml.DuplicateSiblings`).

## Model

| member | source | states |
|---|---|---|
| Text.Lower | file_loader.py:209 | `str.lower()` on ASCII: same length, each character lowered on its own |
| Text.TrimStart | file_loader.py:116-117 | what is dropped is leading white space, and what is left does not start with white space |
| Text.TrimEnd | file_loader.py:116-117 | what is dropped is trailing white space, and what is left does not end with white space |
| Text.Strip | file_loader.py:116-117 | `strip()` is empty exactly when the text is all white space; otherwise it starts and ends with non-space |
| Text.StripEmpty | file_loader.py:116 | trimming both ends leaves nothing exactly when every character is white space |
| Text.LastIndexOf | file_loader.py:212 | `rfind`: absent exactly when the character does not occur; otherwise no later occurrence |
| Text.IndexOf | split_pdf_by_section.py:27 | `find`: absent exactly when the character does not occur; otherwise no earlier occurrence |
| Text.IndexOfFirst | split_pdf_by_section.py:27 | a position holding the character with no earlier occurrence is what `find` returns |
| JsonValue.Keys | file_loader.py:106-117 | a dict's keys, one per member, in insertion order |
| JsonValue.Get | file_loader.py:109-110 | looking `k` up finds nothing exactly when `k` is not a key |
| JsonValue.PutKeys | file_loader.py:111-117 | assigning to a present key keeps the key order; a new key is appended last |
| JsonValue.PutGet | file_loader.py:111-117 | after `d[k] = v`, `k` maps to `v` and every other key is unchanged |
| JsonValue.PutDistinct | file_loader.py:111-117 | assignment never creates a duplicate key |
| Paths.Suffix | file_loader.py:212 | `Path.suffix`: empty exactly when there is no dot, the name ends in a dot, or the only dot leads; otherwise the tail from the last dot, with no further dot in it |
| Paths.ExtensionKey | file_loader.py:212 | the lookup key is empty or a dot followed by at least one character |
| Paths.TarGzUsesLastSuffix | file_loader.py:201 | `x.tar.gz` is dispatched on `.gz` alone |
| Paths.UpperCaseSuffixIsLowered | file_loader.py:212 | `X.TXT` is dispatched on `.txt` |
| Archives.Names | file_loader.py:124 | `namelist()` and `getnames()` list every member name in archive order, repeats included |
| Archives.LastIndex | file_loader.py:125 | `read(name)` and `getmember` find a member exactly when the name is listed, and it is the last member with that name |
| Archives.ZipContentUpTo | file_loader.py:125 | the comprehension over the first k names has exactly those not ending in `/`, each with the data of the last entry of that name |
| Archives.ZipContent | file_loader.py:125 | `content` has exactly the listed names not ending in `/`, each mapped to the data of the last entry with that name |
| Archives.RStripSlash | file_loader.py:138 | `rstrip('/')` removes exactly the trailing slashes and keeps the rest |
| Archives.TarSelection | file_loader.py:136-141 | the loop fails on a listed name `getmember` cannot find; otherwise its dict has exactly the listed names whose member is a regular file, each with that member's data |
| Archives.TarSelectionSucceeds | file_loader.py:137-138 | the loop raises exactly when some listed name cannot be found |
| Archives.TarSelectionFailureSticks | file_loader.py:138 | after a lookup has raised, the remaining names change nothing |
| Archives.SlashFreeName | file_loader.py:138 | a name without a trailing `/` is looked up as it is |
| Archives.SlashFreeArchive | file_loader.py:136-141 | when no member name ends in `/`, the loop succeeds and keeps exactly the names whose last member is a regular file |
| Archives.TrailingSlashNotFound | file_loader.py:137-138 | a member listed as `x/` with no member called `x` makes `getmember` raise |
| Archives.TarContent | file_loader.py:136-141 | the loop's outcome is `TarSelection` of the listed names |
| Handlers.TarCall | file_loader.py:134-142 | the only exception the TAR body raises over an opened archive is `getmember`'s `KeyError` |
| Handlers.TarLookupEscapes | file_loader.py:136-144 | a `getmember` lookup that fails raises `KeyError`, which the TAR handler does not catch |
| Handlers.Extract | file_loader.py:22-184 | a success record carries the handler's type tag; an error record appears exactly when the library raised something the handler catches; an exception escapes exactly when the handler does not catch it, and it is the one raised |
| Handlers.CatchAllHandlersNeverRaise | file_loader.py:43-58 | the PDF, image, HTML and Excel handlers never let an exception escape |
| Xml.ChildPairs | file_loader.py:107-108 | one (tag, child dict) pair per child, in document order |
| Xml.FoldStep | file_loader.py:109-115 | one more child updates its tag's value by the append / make-list / set rule |
| Xml.ElementToDict | file_loader.py:105-118 | the loop with its in-place updates returns the element's dict as `ElementDict` defines it |
| Xml.Tags | file_loader.py:107-109 | the children's tags, in document order |
| Xml.DedupSameElements | file_loader.py:109 | removing repeats keeps exactly the same tags |
| Xml.FoldKeys | file_loader.py:107-115 | the children's part of the dict has one key per distinct tag, in order of first occurrence |
| Xml.OccurrencesOf | file_loader.py:107-115 | a tag no child carries has no dicts; a tag some child carries has at least one |
| Xml.CoalesceGroup | file_loader.py:110-113 | one more dict under a present tag extends that tag's group |
| Xml.FoldValue | file_loader.py:109-115 | a tag seen once maps to its child's dict; a tag seen k >= 2 times maps to the list of the k dicts, in document order |
| Xml.ChildPairsAreDicts | file_loader.py:108 | every child's value is a dict |
| Xml.ElementDictShape | file_loader.py:105-118 | the keys are the distinct child tags; `#text` holds the stripped text when that is non-empty; the element's own tag is a key only when a child carries it |
| Xml.BlankTextHasNoTextKey | file_loader.py:116-117 | an absent or blank text adds no `#text` key |
| Xml.Bare | file_loader.py:105-118 | removing attributes and tails keeps tags, texts and the number of children |
| Xml.AttributesAndTailIgnored | file_loader.py:105-118 | attributes and tail text never affect the dict |
| Xml.LeafDict | file_loader.py:116-117 | a childless element with non-blank text `t` becomes `{"#text": t}` |
| Xml.FoldTwinTags | file_loader.py:109-113 | two children with the same tag give a two-element list |
| Xml.TwoChildPairs | file_loader.py:107-108 | the pairs of an element with two children |
| Xml.DuplicateSiblings | file_loader.py:105-118 | `<a><b>x</b><b>y</b></a>` becomes `{"b": [{"#text": x}, {"#text": y}]}` |
| FileLoader.StemAndKey | file_loader.py:212-213 | a dot-free stem followed by a lower-case dotted key is dispatched on that key |
| FileLoader.DefaultKeysReachable | file_loader.py:188-206 | every one of the seventeen default keys is a valid suffix that some file name produces |
| FileLoader.UnknownExtension | file_loader.py:216-218 | a suffix without a handler gives the `"unknown"` record with the "No handler" message, never an exception |
| FileLoader.DefaultsAreBuiltin | file_loader.py:188-206 | every default entry is a built-in handler |
| FileLoader.DefaultDispatch | file_loader.py:211-218 | under the default table a file gets a record of its family or the `"unknown"` record; an exception escapes exactly when the family's handler does not catch it |
| FileLoader.RegisterThenDispatch | file_loader.py:208-209 | after registering, files with that lower-cased extension go to the new handler and all other files are unaffected |
| FileLoader.UndottedKeyUnreachable | file_loader.py:208-213 | a handler registered without a leading dot is never chosen |
| FileLoader.EmptyKeyTakesSuffixless | file_loader.py:208-213 | a handler registered under `""` receives exactly the files with no suffix |
| FileLoader.FailureSticks | file_loader.py:225-230 | once an entry has raised, the rest of the walk keeps that exception |
| FileLoader.FileStep | file_loader.py:227-228 | a regular file is processed and stored under its path, or its exception ends the walk |
| FileLoader.DirStep | file_loader.py:229-230 | a subdirectory is walked recursively and merged with `update`, or its exception ends the walk |
| FileLoader.NestedWalkKeepsFlag | file_loader.py:229-230 | a subdirectory is walked only when `recursive` holds, so the nested call's default `True` equals passing `recursive` |
| FileLoader.SkipStep | file_loader.py:225-230 | an entry that is neither a file nor a subdirectory to descend into changes nothing |
| FileLoader.CollectAppend | file_loader.py:230 | processing two file lists in a row is `dict.update` of the second result into the first |
| FileLoader.WalkIsCollect | file_loader.py:220-231 | the walk is the processing, in order, of the files it visits; a non-directory raises ValueError |
| FileLoader.EntriesAreCollect | file_loader.py:225-230 | the same, entry by entry |
| FileLoader.CollectSucceeds | file_loader.py:225-230 | the walk succeeds exactly when no visited file raises |
| FileLoader.CollectFails | file_loader.py:225-230 | a failed walk carries the exception of the first file that raised |
| FileLoader.CollectContents | file_loader.py:227-228 | with distinct paths, the keys are exactly the visited paths, each mapped to its own record |
| FileLoader.FilesBelow | file_loader.py:225-230 | every visited file lies strictly below the walked directory |
| FileLoader.EntryFilesBelow | file_loader.py:225-230 | every file visited through an entry lies below that entry's name |
| FileLoader.FilesDistinct | file_loader.py:225-230 | in a well-formed tree no path is visited twice |
| FileLoader.EntryFilesDistinct | file_loader.py:225-230 | the same, entry by entry |
| FileLoader.ShallowFiles | file_loader.py:227-229 | without recursion, exactly the regular files directly inside the directory are visited |
| FileLoader.WalkResult | file_loader.py:220-231 | a walk raises exactly when a visited file raises; otherwise each visited path, and only those, maps to its file's record |
| FileLoader.FileProcessor.constructor | file_loader.py:187-206 | the table starts as the seventeen default entries |
| FileLoader.FileProcessor.RegisterHandler | file_loader.py:208-209 | the table gains or replaces exactly the entry under the lower-cased extension |
| FileLoader.FileProcessor.ProcessFile | file_loader.py:211-218 | the record or exception that dispatch under the current table gives; a file without a handler gets `"unknown"` |
| FileLoader.FileProcessor.ProcessDirectory | file_loader.py:220-231 | the loop over the entries gives exactly the walk result |
| FileLoader.FileProcessor.ProcessEntry | file_loader.py:226-230 | one turn of the loop advances the walk by one entry |
| Schema.Memo | extract_schema.py:28-33 | with a consistent table the lookup returns the schema itself, and the table keeps every old entry |
| Schema.ValueSchema | extract_schema.py:21-26 | a scalar's schema is its type name and leaves the table alone; the table only grows |
| Schema.FromDict | extract_schema.py:18-33 | a non-dict raises AttributeError; a successful schema is a dict over the same keys and is stored in the table |
| Schema.DictFields | extract_schema.py:19-26 | the loop's schema has the keys of the members so far; the table only grows |
| Schema.FromList | extract_schema.py:35-53 | an empty list gives 'empty list' with the table unchanged; a list with a scalar first element gives that element's type name; a dict schema is stored and only comes from a non-empty list of dicts or lists |
| Schema.DictItems | extract_schema.py:39 | on success, every element is a dict with one schema each, over its own keys |
| Schema.ListItems | extract_schema.py:41 | on success, one schema per element; a dict schema comes only from a nested list |
| Schema.Merge | extract_schema.py:45-47 | `update` succeeds exactly when every schema is a dict; a string schema raises ValueError |
| Schema.MergeAndRemember | extract_schema.py:45-53 | a merged schema is a dict and is stored in the table |
| Schema.DocumentSchema | extract_schema.py:3-14 | a non-dict document raises AttributeError; a successful schema is a dict over the document's keys |
| Schema.ValueTransparent | extract_schema.py:16 | the memo table never changes a value's schema |
| Schema.DictTransparent | extract_schema.py:28-33 | the memo table never changes a dict's schema |
| Schema.FieldsTransparent | extract_schema.py:19-26 | the memo table never changes the member loop's result |
| Schema.ListTransparent | extract_schema.py:48-53 | the memo table never changes a list's schema |
| Schema.DictItemsTransparent | extract_schema.py:39 | the memo table never changes the element schemas of a list of dicts |
| Schema.ListItemsTransparent | extract_schema.py:41 | the memo table never changes the element schemas of a list of lists |
| Schema.FieldsSucceed | extract_schema.py:20-26 | the member loop raises exactly when some member value's schema raises |
| Schema.FieldsStepSucceeds | extract_schema.py:20-26 | one turn succeeds exactly when the loop so far and the value's schema do |
| Schema.FieldsStep | extract_schema.py:20-26 | one turn sets the member's key to the value's own schema |
| Schema.AssocLookup | extract_schema.py:20-26 | with distinct keys, each key maps to its own member's schema |
| Schema.FieldsAreAssoc | extract_schema.py:20-26 | the member loop sets each key to its value's schema |
| Schema.MemberShapes | extract_schema.py:20-26 | the member value schemas, one per member |
| Schema.DictSchema | extract_schema.py:18-33 | a dict's schema: it raises exactly when a value's schema does; otherwise it has the same keys, each mapped to its value's schema |
| Schema.TopLevelNotRemembered | extract_schema.py:3-14 | the top level gives the dict function's schema but does not store it |
| Schema.ScalarFieldsKeepCache | extract_schema.py:20-26 | a dict of scalars leaves the table unchanged |
| Schema.ScalarDocument | extract_schema.py:3-14 | a document of scalars leaves the table unchanged, while the same dict met below the top level is stored |
| Schema.LastWith | extract_schema.py:45-47 | the last dict schema holding a key, and none after it does |
| Schema.MergeKeys | extract_schema.py:45-47 | the merged schema has the union of the keys |
| Schema.MergeLaterWins | extract_schema.py:45-47 | on a shared key the last schema holding it wins |
| Schema.SchemaKeysOfItems | extract_schema.py:38-39 | the element schemas' keys are the elements' keys |
| Schema.ListOfDicts | extract_schema.py:38-47 | a list starting with a dict raises unless every element is a dict; its schema's keys are the union of the elements' keys |
| Schema.ListOfLists | extract_schema.py:40-47 | a list starting with a list raises unless every element is a non-empty list starting with a dict or list; a scalar or empty inner list gives ValueError |
| Schema.ScalarListIgnoresRest | extract_schema.py:42-43 | only the first element of a list of scalars is looked at |
| Schema.FieldsFailureSticks | extract_schema.py:20-26 | after an exception the member loop changes nothing more |
| Schema.DictItemsFailureSticks | extract_schema.py:39 | after an exception the dict comprehension changes nothing more |
| Schema.ListItemsFailureSticks | extract_schema.py:41 | after an exception the list comprehension changes nothing more |
| Schema.FieldsTurn | extract_schema.py:20-26 | one turn of the member loop in terms of the value's schema and the table |
| Schema.DictItemsStep | extract_schema.py:39 | one turn of the dict comprehension |
| Schema.ListItemsStep | extract_schema.py:41 | one turn of the list comprehension |
| Schema.MergeFailureSticks | extract_schema.py:45-47 | after a string schema the merge stays failed |
| Schema.SchemaExtractor.constructor | extract_schema.py:16 | `seen_schemas` starts empty |
| Schema.SchemaExtractor.ExtractSchema | extract_schema.py:3-14 | the schema and new table are those of the document |
| Schema.SchemaExtractor.ExtractSchemaFromDict | extract_schema.py:18-33 | the schema and new table are `FromDict` of the old table |
| Schema.SchemaExtractor.ExtractMembers | extract_schema.py:19-26 | the member loop gives the whole-loop result and table |
| Schema.SchemaExtractor.ExtractMember | extract_schema.py:20-26 | one member's turn advances the loop by one |
| Schema.SchemaExtractor.ExtractValue | extract_schema.py:21-26 | the `isinstance` dispatch gives the value's schema and table |
| Schema.SchemaExtractor.ExtractSchemaFromList | extract_schema.py:35-53 | the schema and new table are `FromList` of the old table |
| Schema.SchemaExtractor.DictItemSchemas | extract_schema.py:39 | the comprehension over a list of dicts |
| Schema.SchemaExtractor.ListItemSchemas | extract_schema.py:41 | the comprehension over a list of lists |
| Schema.SchemaExtractor.MergeAll | extract_schema.py:45-47 | the `update` loop gives the merged dict or ValueError |
| Schema.SchemaExtractor.Remember | extract_schema.py:28-33 | look up or store the schema in `seen_schemas` |
| StrOrder.LessIrreflexive | split_pdf_by_section.py:24 | no string sorts before itself |
| StrOrder.LessTransitive | split_pdf_by_section.py:24 | string order is transitive |
| StrOrder.LessTotal | split_pdf_by_section.py:24 | any two strings are ordered one way or are equal |
| StrOrder.LessCommonPrefix | split_pdf_by_section.py:24 | a common prefix does not affect the order |
| StrOrder.LessSnoc | split_pdf_by_section.py:24 | for equal lengths the first differing character decides |
| StrOrder.NatStr | split_pdf_by_section.py:24 | `str(n)` is a non-empty run of decimal digits |
| StrOrder.Rjust | split_pdf_by_section.py:24 | `rjust(w)` pads on the left with spaces to width w, and leaves longer strings unchanged |
| StrOrder.Spaces | split_pdf_by_section.py:24 | n spaces |
| StrOrder.NatStrLength | split_pdf_by_section.py:24 | `str(n)` has as many characters as n has digits |
| StrOrder.DigitsMonotone | split_pdf_by_section.py:24 | larger numbers have at least as many digits |
| StrOrder.DigitsBelow | split_pdf_by_section.py:24 | a number below 10^k has at most k digits |
| StrOrder.NatStrOrder | split_pdf_by_section.py:24 | numbers with the same digit count compare as their strings do |
| StrOrder.PaddedShorterFirst | split_pdf_by_section.py:24 | padded to width 5, a shorter number string sorts first |
| StrOrder.PadKeyOrder | split_pdf_by_section.py:24 | for page indices below 100000 the padded key order is the numeric order |
| StrOrder.WideIndexSortsEarly | split_pdf_by_section.py:24 | past width 5 the order is textual: page 100000 sorts before page 99999 |
| StrOrder.Insert | split_pdf_by_section.py:24 | inserting adds exactly one element |
| StrOrder.InsertSorted | split_pdf_by_section.py:24 | inserting into a sorted list keeps it sorted |
| StrOrder.SortBy | split_pdf_by_section.py:24 | `sorted` returns a permutation of its input |
| StrOrder.SortBySorted | split_pdf_by_section.py:24 | `sorted` returns a permutation ordered by the key |
| StrOrder.WithKeyAppend | split_pdf_by_section.py:24 | the elements with one key, taken from a concatenation, are those of each part in turn |
| StrOrder.SortedAbove | split_pdf_by_section.py:24 | a key below the first key of a sorted list equals none of its keys |
| StrOrder.InsertStable | split_pdf_by_section.py:24 | inserting places the element after every element with an equal key |
| StrOrder.SortByStable | split_pdf_by_section.py:24 | `sorted` is stable: elements with equal keys keep their input order |
| Bookmarks.PyIndex | split_pdf_by_section.py:14 | Python list indexing succeeds exactly for -n <= i < n, counting negatives from the end |
| Bookmarks.FlatOnlyEntries | split_pdf_by_section.py:8-10 | flattening leaves only bookmarks |
| Bookmarks.FlatConcat | split_pdf_by_section.py:8-10 | flattening distributes over concatenation |
| Bookmarks.NestingTransparent | split_pdf_by_section.py:8-10 | a nested list contributes its entries where it stands |
| Bookmarks.FeedConcat | split_pdf_by_section.py:8-18 | feeding two lists in a row is feeding the second into the result of the first, unless the first raised |
| Bookmarks.FeedResult | split_pdf_by_section.py:5-20 | the dict raises, with IndexError, exactly when a kept bookmark's page has no label; otherwise its keys are the kept keys once each, in order of first occurrence, each with its kept bookmarks in outline order |
| Bookmarks.GroupEmpty | split_pdf_by_section.py:13-18 | a key that no kept bookmark has gets no list |
| Bookmarks.FirstKeysDistinct | split_pdf_by_section.py:16-17 | each key is created once |
| Bookmarks.GroupMembers | split_pdf_by_section.py:12-18 | every grouped bookmark carries its key and a title without "Table" |
| Bookmarks.BookmarkDict.constructor | split_pdf_by_section.py:6 | the default `result` is a fresh empty dict |
| Bookmarks.BookmarkDict.Add | split_pdf_by_section.py:5-20 | the recursive calls on the shared dict leave the state that feeding the flattened outline gives |
| Bookmarks.BookmarkDict.AddEntry | split_pdf_by_section.py:12-18 | one bookmark is skipped, or appended under its key, or raises |
| Bookmarks.FeedRestAfterError | split_pdf_by_section.py:8-18 | after an exception the remaining outline changes nothing |
| Bookmarks.BookmarkDictOf | split_pdf_by_section.py:5-20 | `bookmark_dict(outline, reader)` gives the filled dict or the exception |
| SplitPdf.Sanitize | split_pdf_by_section.py:26 | same length; each unsafe character becomes `_` and every other character is kept |
| SplitPdf.SanitizeIdempotent | split_pdf_by_section.py:26 | a sanitised title holds no unsafe character, so sanitising again changes nothing |
| SplitPdf.NumberedSection | split_pdf_by_section.py:27-28 | a title `p.rest` with digits `p` is filed under "Section p.0" |
| SplitPdf.SameChapterSameSection | split_pdf_by_section.py:27-28 | headings of the same chapter share a section |
| SplitPdf.UnnumberedKept | split_pdf_by_section.py:29-30 | a title without a numbered prefix is its own section |
| SplitPdf.SectionTitleIdempotent | split_pdf_by_section.py:27-30 | deriving the section twice changes nothing |
| SplitPdf.FilePath | split_pdf_by_section.py:33 | the output path adds eleven characters to the section |
| SplitPdf.FilePathInjective | split_pdf_by_section.py:33 | two sections share an output path exactly when they are equal |
| SplitPdf.Sorted | split_pdf_by_section.py:24 | the sorted items are a permutation of the dict's items |
| SplitPdf.EntriesOf | split_pdf_by_section.py:24 | `result.items()` is one pair per key, in insertion order, with that key's list |
| SplitPdf.NumericOrder | split_pdf_by_section.py:24 | with page indices below 100000 the groups are visited in ascending page order, and none is lost or added |
| SplitPdf.PageOf | split_pdf_by_section.py:37 | `reader.pages[key]`: a label raises TypeError; an index resolves exactly when -n <= i < n, else IndexError |
| SplitPdf.Pairs | split_pdf_by_section.py:37 | a file carries its section with each of its pages |
| SplitPdf.AddPageRuns | split_pdf_by_section.py:31-37 | adding a page keeps the runs maximal and appends exactly that (section, page) |
| SplitPdf.SaveSucceeds | split_pdf_by_section.py:37 | the loop succeeds exactly when every page resolves |
| SplitPdf.SaveRuns | split_pdf_by_section.py:21-40 | on success the files are the maximal runs of equal sections, with every bookmark's page in order; no bookmarks means no file |
| SplitPdf.SaveFailureSticks | split_pdf_by_section.py:37 | after an exception the remaining bookmarks change nothing |
| SplitPdf.FirstErrorStops | split_pdf_by_section.py:31-37 | the first page that does not resolve stops the loop with its exception; only the runs closed before it are written |
| SplitPdf.RecurringSectionRewrites | split_pdf_by_section.py:31-36 | a section that recurs after another is written again to the same path, replacing the earlier file |
| SplitPdf.ItemsSnoc | split_pdf_by_section.py:24-25 | one more group adds its bookmarks at the end |
| SplitPdf.ItemsConcat | split_pdf_by_section.py:24-25 | the bookmarks of two group lists are concatenated |
| SplitPdf.EntryItemsConcat | split_pdf_by_section.py:25 | the bookmarks of one group distribute over concatenation |
| SplitPdf.EntryFailureSticks | split_pdf_by_section.py:25-37 | after an exception inside a group, the rest of it changes nothing |
| SplitPdf.EntryItemsSnoc | split_pdf_by_section.py:25 | one more bookmark of a group adds one item |
| SplitPdf.NewSectionStep | split_pdf_by_section.py:31-37 | a new section closes the open file and starts a writer with the page; an unresolved page leaves the closed files |
| SplitPdf.SameSectionStep | split_pdf_by_section.py:37 | the same section adds the page to the open writer |
| SplitPdf.ItemsFailureSticks | split_pdf_by_section.py:24-37 | after an exception the remaining groups change nothing |
| SplitPdf.SaveStep | split_pdf_by_section.py:31-37 | one bookmark's step of the loop |
| SplitPdf.SplitAndSave | split_pdf_by_section.py:21-40 | the files written, in order, and the exception that stopped the loop, are those the loop specification gives |
| SplitPdf.SaveEntry | split_pdf_by_section.py:25-37 | the inner loop over one group continues the loop specification |
| SplitPdf.SaveItem | split_pdf_by_section.py:26-37 | one bookmark's turn continues the loop specification |

## Left out

- File system and library I/O. Reading files, `csv`, `json.load`, the XML parser, `zipfile`, `tarfile`, PyPDF2, Pillow, BeautifulSoup and openpyxl are not modelled. For each file, what each call would return or raise is given in its `FileData`. UTF-8 decoding with `errors='ignore'` is part of that data.
- `os.scandir` order is the order of a directory's `entries`. Symbolic links, and whether `is_file()`/`is_dir()` follow them, are not modelled. Nor are errors raised by `scandir` itself.
- Results are keyed by the path as a component sequence, not by the string `str(entry_path)`. `Path(...)` normalisation is not modelled.
- Only ASCII case is folded, by `lower()`. Unicode case mappings are not modelled.
- Logging, `print`, `argparse`, `main` and the `__main__` blocks are not modelled: `file_loader.py` lines 14-15 and 233-262, `extract_schema.py` 54-61, `split_pdf_by_section.py` 19 and 42-45.
- A custom handler object that is falsy (`if handler:` at file_loader.py:214) would be treated as missing. Handlers here are never falsy.
- The directory walk takes a file-system tree, not a live file system. Entries that change during the walk are not modelled.
- `Schema`: schema dicts are maps, so key order is not modelled. `seen_schemas` is keyed by the schema value rather than by `json.dumps(schema, sort_keys=True)`. That serialisation is one-to-one on schemas, so lookups find the same entries. The table returns the stored equal schema. Python's object identity, and the aliasing it creates between returned schemas, is not modelled.
- `Schema`: JSON numbers are unbounded integers and reals. Float details such as `NaN` and `Infinity` are not modelled.
- `Bookmarks`: `reader.get_destination_page_number` is abstract. Each outline entry carries the page number it resolves to. `reader.page_labels` is a list of labels, and its length is the number of pages.
- `Bookmarks`: the `result=` keyword's initial dict is empty in every call from outside (the default). Passing a non-empty dict in from outside is modelled by `Bookmarks.BookmarkDict.Add` from any start state.
- `SplitPdf`: `PdfWriter` is recorded, not run. Each write is a file path with the pages it received, in order. Failures of `open()` and of `write()` are not modelled. A second write to the same path replaces the first, which `SplitPdf.RecurringSectionRewrites` shows.
- `SplitPdf`: the keys visited come from `result.items()` of a dict built by `bookmark_dict`. The entry list is taken as given, with `SplitPdf.EntriesOf` connecting it to a grouped dict.
- `SplitPdf.NumericOrder`: stated only for page indices below 100000. Above that the padded string order is no longer numeric; `StrOrder.WideIndexSortsEarly` shows the first such case.
- `Text`: `isdigit()` is modelled for ASCII digits only. Other Unicode digits, such as superscripts, are not.
- `Bookmarks`: `get_destination_page_number` is taken to return a page index. A destination it cannot resolve returns `None` in pypdf, and the source then fails with a `TypeError`; that case is not modelled. A result of `-1` is modelled: it reads the last page label, as Python's negative indexing does.
- Python's recursion limit is not modelled. Very deep XML trees, directory trees or PDF outlines would raise `RecursionError` in the source; in the model they are processed.
- `FileLoader`: the results are a map, so the key insertion order of `process_directory`'s dict is not modelled. The order in which files are visited is modelled, by `FileLoader.Files`.
- `Archives`: reading a ZIP entry is taken to succeed. Errors from encrypted entries or bad CRCs are not modelled.
- `Handlers.TarLookupEscapes`: the `KeyError` message is `filename '<name>' not found`. Python's `repr` quoting of names that contain quotes is not modelled.
