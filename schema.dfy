/**
 * Schema inference over a loaded JSON document: every dict becomes a dict of
 * schemas, every scalar its Python type name, and a list the schema of its
 * first element's kind (merged over all elements for dicts and lists). Dict
 * and list schemas pass through a global memo table.
 */
module Schema {
  import opened Common
  import opened JsonValue

  /** A schema: a type name (or "empty list"), or a dict of schemas. Key order is not modelled. */
  datatype Schema = Name(name: string) | Fields(fields: map<string, Schema>)

  /** The exceptions the schema functions can raise on shapes they do not expect. */
  datatype SchemaError =
    | AttributeError   // `.items()` on something that is not a dict
    | KeyError         // `lst[0]` on a non-empty dict
    | TypeError        // `lst[0]` on a number or `True`
    | ValueError       // `dict.update` with a string schema

  /**
   * `seen_schemas`. The source keys it by `json.dumps(schema, sort_keys=True)`,
   * which is one-to-one on schemas, so here the schema itself is the key.
   */
  type Cache = map<Schema, Schema>

  /** Every entry is stored under its own serialisation. */
  predicate Valid(seen: Cache) {
    forall k :: k in seen ==> seen[k] == k
  }

  /** Entries are only ever added: `b` keeps every entry of `a`. */
  predicate Grows(a: Cache, b: Cache) {
    forall k :: k in a ==> k in b && b[k] == a[k]
  }

  /** `type(v).__name__` of a JSON value. */
  function TypeName(v: Json): string {
    match v
    case JNull => "NoneType"
    case JBool(_) => "bool"
    case JInt(_) => "int"
    case JFloat(_) => "float"
    case JStr(_) => "str"
    case JArray(_) => "list"
    case JObject(_) => "dict"
  }

  /** `not v`. */
  predicate Falsy(v: Json) {
    match v
    case JNull => true
    case JBool(b) => !b
    case JInt(i) => i == 0
    case JFloat(f) => f == 0.0
    case JStr(s) => s == ""
    case JArray(items) => items == []
    case JObject(members) => members == []
  }

  predicate IsScalar(v: Json) {
    !v.JObject? && !v.JArray?
  }

  /** A list whose schema can be a dict: non-empty, with a dict or a list first. */
  predicate NestedList(v: Json) {
    v.JArray? && |v.items| > 0 && !IsScalar(v.items[0])
  }

  /** The set of keys of a dict's first `n` members. */
  function KeySet(d: Dict, n: nat): set<string>
    requires n <= |d|
  {
    set i | 0 <= i < n :: d[i].0
  }

  /** The look-up in `seen_schemas`: an equal stored schema is returned, a new one is stored. */
  function Memo(s: Schema, seen: Cache): (r: (Schema, Cache))
    ensures Valid(seen) ==> r.0 == s && Valid(r.1) && s in r.1
    ensures Grows(seen, r.1)
  {
    if s in seen then (seen[s], seen) else (s, seen[s := s])
  }

  /** The schema of a dict member's value (the body of both dict loops). */
  function ValueSchema(v: Json, seen: Cache): (r: (Result<Schema, SchemaError>, Cache))
    ensures Valid(seen) ==> Valid(r.1)
    ensures Grows(seen, r.1)
    ensures IsScalar(v) ==> r == (Success(Name(TypeName(v))), seen)
    decreases v, 3, 0
  {
    if v.JObject? then FromDict(v, seen)
    else if v.JArray? then FromList(v, seen)
    else (Success(Name(TypeName(v))), seen)
  }

  /** `extract_schema_from_dict`. */
  function FromDict(v: Json, seen: Cache): (r: (Result<Schema, SchemaError>, Cache))
    ensures Valid(seen) ==> Valid(r.1)
    ensures Grows(seen, r.1)
    ensures !v.JObject? ==> r == (Failure(AttributeError), seen)
    ensures Valid(seen) && r.0.Success? ==>
      r.0.value.Fields? && r.0.value in r.1 && r.0.value.fields.Keys == KeySet(v.members, |v.members|)
    decreases v, 1, 0
  {
    if !v.JObject? then (Failure(AttributeError), seen)
    else
      var (fields, seen1) := DictFields(v, |v.members|, seen);
      if fields.Failure? then (Failure(fields.error), seen1)
      else
        var (s, seen2) := Memo(Fields(fields.value), seen1);
        (Success(s), seen2)
  }

  /** The loop of a dict's schema over its first `n` members. */
  function DictFields(v: Json, n: nat, seen: Cache): (r: (Result<map<string, Schema>, SchemaError>, Cache))
    requires v.JObject? && n <= |v.members|
    ensures Valid(seen) ==> Valid(r.1)
    ensures Grows(seen, r.1)
    ensures r.0.Success? ==> r.0.value.Keys == KeySet(v.members, n)
    decreases v, 0, n
  {
    if n == 0 then (Success(map[]), seen)
    else
      var (prev, seen1) := DictFields(v, n - 1, seen);
      if prev.Failure? then (prev, seen1)
      else
        var member := v.members[n - 1];
        var (s, seen2) := ValueSchema(member.1, seen1);
        if s.Failure? then (Failure(s.error), seen2)
        else (Success(prev.value[member.0 := s.value]), seen2)
  }

  /**
   * `extract_schema_from_list`, applied to any value: a list normally, but the
   * elements of a list of lists can be anything.
   */
  function FromList(v: Json, seen: Cache): (r: (Result<Schema, SchemaError>, Cache))
    ensures Valid(seen) ==> Valid(r.1)
    ensures Grows(seen, r.1)
    ensures Valid(seen) && r.0.Success? && r.0.value.Fields? ==> r.0.value in r.1 && NestedList(v)
    ensures Falsy(v) ==> r == (Success(Name("empty list")), seen)
    ensures v.JArray? && |v.items| > 0 && IsScalar(v.items[0]) ==> r == (Success(Name(TypeName(v.items[0]))), seen)
    decreases v, 2, 0
  {
    if Falsy(v) then (Success(Name("empty list")), seen)
    else if v.JObject? then (Failure(KeyError), seen)
    else if v.JStr? then (Success(Name("str")), seen)
    else if !v.JArray? then (Failure(TypeError), seen)
    else
      var first := v.items[0];
      if first.JObject? then
        var (schemas, seen1) := DictItems(v, |v.items|, seen);
        MergeAndRemember(schemas, seen1)
      else if first.JArray? then
        var (schemas, seen1) := ListItems(v, |v.items|, seen);
        MergeAndRemember(schemas, seen1)
      else (Success(Name(TypeName(first))), seen)
  }

  /** `[extract_schema_from_dict(item) for item in lst]` over the first `n` items. */
  function DictItems(v: Json, n: nat, seen: Cache): (r: (Result<seq<Schema>, SchemaError>, Cache))
    requires v.JArray? && n <= |v.items|
    ensures Valid(seen) ==> Valid(r.1)
    ensures Grows(seen, r.1)
    ensures r.0.Success? ==> |r.0.value| == n
    ensures r.0.Success? ==> forall i :: 0 <= i < n ==> v.items[i].JObject?
    ensures Valid(seen) && r.0.Success? ==> forall i :: 0 <= i < n ==>
      r.0.value[i].Fields? && r.0.value[i].fields.Keys == KeySet(v.items[i].members, |v.items[i].members|)
    decreases v, 0, n
  {
    if n == 0 then (Success([]), seen)
    else
      var (prev, seen1) := DictItems(v, n - 1, seen);
      if prev.Failure? then (prev, seen1)
      else
        var (s, seen2) := FromDict(v.items[n - 1], seen1);
        if s.Failure? then (Failure(s.error), seen2)
        else (Success(prev.value + [s.value]), seen2)
  }

  /** `[extract_schema_from_list(item) for item in lst]` over the first `n` items. */
  function ListItems(v: Json, n: nat, seen: Cache): (r: (Result<seq<Schema>, SchemaError>, Cache))
    requires v.JArray? && n <= |v.items|
    ensures Valid(seen) ==> Valid(r.1)
    ensures Grows(seen, r.1)
    ensures r.0.Success? ==> |r.0.value| == n
    ensures Valid(seen) && r.0.Success? ==> forall i :: 0 <= i < n ==> r.0.value[i].Fields? ==> NestedList(v.items[i])
    decreases v, 0, n
  {
    if n == 0 then (Success([]), seen)
    else
      var (prev, seen1) := ListItems(v, n - 1, seen);
      if prev.Failure? then (prev, seen1)
      else
        var (s, seen2) := FromList(v.items[n - 1], seen1);
        if s.Failure? then (Failure(s.error), seen2)
        else (Success(prev.value + [s.value]), seen2)
  }

  /** `merged_schema.update(schema)` over the schemas in order; a string schema raises ValueError. */
  function Merge(schemas: seq<Schema>): (r: Result<map<string, Schema>, SchemaError>)
    ensures r.Success? <==> forall i :: 0 <= i < |schemas| ==> schemas[i].Fields?
    ensures r.Failure? ==> r.error == ValueError
  {
    if schemas == [] then Success(map[])
    else
      var prev := Merge(schemas[..|schemas| - 1]);
      var last := schemas[|schemas| - 1];
      if prev.Failure? then prev
      else if last.Name? then Failure(ValueError)
      else Success(prev.value + last.fields)
  }

  /** The tail of `extract_schema_from_list`: merge, then look up or store the merged schema. */
  function MergeAndRemember(schemas: Result<seq<Schema>, SchemaError>, seen: Cache): (r: (Result<Schema, SchemaError>, Cache))
    ensures Valid(seen) ==> Valid(r.1)
    ensures Grows(seen, r.1)
    ensures Valid(seen) && r.0.Success? ==> r.0.value.Fields? && r.0.value in r.1
  {
    if schemas.Failure? then (Failure(schemas.error), seen)
    else
      var merged := Merge(schemas.value);
      if merged.Failure? then (Failure(merged.error), seen)
      else
        var (s, seen1) := Memo(Fields(merged.value), seen);
        (Success(s), seen1)
  }

  /** `extract_schema` after `json.load`: the top-level dict's schema, neither looked up nor stored. */
  function DocumentSchema(data: Json, seen: Cache): (r: (Result<Schema, SchemaError>, Cache))
    ensures Valid(seen) ==> Valid(r.1)
    ensures Grows(seen, r.1)
    ensures !data.JObject? ==> r == (Failure(AttributeError), seen)
    ensures r.0.Success? ==> r.0.value.Fields? && r.0.value.fields.Keys == KeySet(data.members, |data.members|)
  {
    if !data.JObject? then (Failure(AttributeError), seen)
    else
      var (fields, seen1) := DictFields(data, |data.members|, seen);
      if fields.Failure? then (Failure(fields.error), seen1)
      else (Success(Fields(fields.value)), seen1)
  }

  // ---------------------------------------------------------------------------
  // The memo table never changes a result

  lemma {:induction false} ValueTransparent(v: Json, s1: Cache, s2: Cache)
    requires Valid(s1) && Valid(s2)
    ensures ValueSchema(v, s1).0 == ValueSchema(v, s2).0
    decreases v, 3, 0
  {
    if v.JObject? {
      DictTransparent(v, s1, s2);
    } else if v.JArray? {
      ListTransparent(v, s1, s2);
    }
  }

  /** A dict's schema is the same whatever (consistent) schemas the memo table already holds. */
  lemma {:induction false} DictTransparent(v: Json, s1: Cache, s2: Cache)
    requires Valid(s1) && Valid(s2)
    ensures FromDict(v, s1).0 == FromDict(v, s2).0
    decreases v, 1, 0
  {
    if v.JObject? {
      FieldsTransparent(v, |v.members|, s1, s2);
    }
  }

  lemma {:induction false} FieldsTransparent(v: Json, n: nat, s1: Cache, s2: Cache)
    requires v.JObject? && n <= |v.members| && Valid(s1) && Valid(s2)
    ensures DictFields(v, n, s1).0 == DictFields(v, n, s2).0
    decreases v, 0, n
  {
    if n > 0 {
      FieldsTransparent(v, n - 1, s1, s2);
      ValueTransparent(v.members[n - 1].1, DictFields(v, n - 1, s1).1, DictFields(v, n - 1, s2).1);
    }
  }

  /** A list's schema is the same whatever (consistent) schemas the memo table already holds. */
  lemma {:induction false} ListTransparent(v: Json, s1: Cache, s2: Cache)
    requires Valid(s1) && Valid(s2)
    ensures FromList(v, s1).0 == FromList(v, s2).0
    decreases v, 2, 0
  {
    if !Falsy(v) && v.JArray? {
      if v.items[0].JObject? {
        DictItemsTransparent(v, |v.items|, s1, s2);
      } else if v.items[0].JArray? {
        ListItemsTransparent(v, |v.items|, s1, s2);
      }
    }
  }

  lemma {:induction false} DictItemsTransparent(v: Json, n: nat, s1: Cache, s2: Cache)
    requires v.JArray? && n <= |v.items| && Valid(s1) && Valid(s2)
    ensures DictItems(v, n, s1).0 == DictItems(v, n, s2).0
    decreases v, 0, n
  {
    if n > 0 {
      DictItemsTransparent(v, n - 1, s1, s2);
      DictTransparent(v.items[n - 1], DictItems(v, n - 1, s1).1, DictItems(v, n - 1, s2).1);
    }
  }

  lemma {:induction false} ListItemsTransparent(v: Json, n: nat, s1: Cache, s2: Cache)
    requires v.JArray? && n <= |v.items| && Valid(s1) && Valid(s2)
    ensures ListItems(v, n, s1).0 == ListItems(v, n, s2).0
    decreases v, 0, n
  {
    if n > 0 {
      ListItemsTransparent(v, n - 1, s1, s2);
      ListTransparent(v.items[n - 1], ListItems(v, n - 1, s1).1, ListItems(v, n - 1, s2).1);
    }
  }

  /** The schema of a value as computed with an empty memo table; by the lemmas above, with any. */
  function Shape(v: Json): Result<Schema, SchemaError> {
    ValueSchema(v, map[]).0
  }

  // ---------------------------------------------------------------------------
  // Dicts

  /** The dict loop raises exactly when the schema of some member's value raises. */
  lemma {:induction false} FieldsSucceed(v: Json, n: nat, seen: Cache)
    requires v.JObject? && n <= |v.members| && Valid(seen)
    ensures DictFields(v, n, seen).0.Success? <==> forall i :: 0 <= i < n ==> Shape(v.members[i].1).Success?
  {
    if n > 0 {
      FieldsSucceed(v, n - 1, seen);
      FieldsStepSucceeds(v, n, seen);
    }
  }

  /** One turn of the dict loop succeeds when the loop so far and the value's schema do. */
  lemma FieldsStepSucceeds(v: Json, n: nat, seen: Cache)
    requires v.JObject? && 0 < n <= |v.members| && Valid(seen)
    ensures DictFields(v, n, seen).0.Success? <==> DictFields(v, n - 1, seen).0.Success? && Shape(v.members[n - 1].1).Success?
  {
    ValueTransparent(v.members[n - 1].1, DictFields(v, n - 1, seen).1, map[]);
  }

  /** One turn of the dict loop whose value's schema is known. */
  lemma FieldsStep(v: Json, n: nat, seen: Cache)
    requires v.JObject? && 0 < n <= |v.members| && Valid(seen)
    requires DictFields(v, n - 1, seen).0.Success? && Shape(v.members[n - 1].1).Success?
    ensures DictFields(v, n, seen).0 ==
      Success(DictFields(v, n - 1, seen).0.value[v.members[n - 1].0 := Shape(v.members[n - 1].1).value])
  {
    ValueTransparent(v.members[n - 1].1, DictFields(v, n - 1, seen).1, map[]);
  }

  /** The dict that sets each of the first `n` keys of `d`, in order, to the matching schema in `vals`. */
  function Assoc(d: Dict, vals: seq<Schema>, n: nat): map<string, Schema>
    requires n <= |d| && n <= |vals|
  {
    if n == 0 then map[] else Assoc(d, vals, n - 1)[d[n - 1].0 := vals[n - 1]]
  }

  lemma {:induction false} AssocLookup(d: Dict, vals: seq<Schema>, n: nat)
    requires n <= |d| && n <= |vals| && DistinctKeys(d)
    ensures forall i :: 0 <= i < n ==> d[i].0 in Assoc(d, vals, n) && Assoc(d, vals, n)[d[i].0] == vals[i]
  {
    if n > 0 {
      AssocLookup(d, vals, n - 1);
    }
  }

  /** The dict loop sets each key to its value's own schema. */
  lemma {:induction false} FieldsAreAssoc(v: Json, n: nat, seen: Cache, vals: seq<Schema>)
    requires v.JObject? && n <= |v.members| && n <= |vals| && Valid(seen)
    requires forall i :: 0 <= i < n ==> Shape(v.members[i].1) == Success(vals[i])
    ensures DictFields(v, n, seen).0 == Success(Assoc(v.members, vals, n))
  {
    if n > 0 {
      FieldsAreAssoc(v, n - 1, seen, vals);
      FieldsStep(v, n, seen);
    }
  }

  /** The schemas of the first `n` members' values, all of which succeed. */
  function MemberShapes(v: Json, n: nat): (vals: seq<Schema>)
    requires v.JObject? && n <= |v.members|
    requires forall i :: 0 <= i < n ==> Shape(v.members[i].1).Success?
    ensures |vals| == n && forall i :: 0 <= i < n ==> Shape(v.members[i].1) == Success(vals[i])
  {
    seq(n, i requires 0 <= i < n => Shape(v.members[i].1).value)
  }

  /** `extract_schema_from_dict` on a dict: keys, values and failure, independent of the memo table. */
  lemma DictSchema(v: Json, seen: Cache)
    requires v.JObject? && Valid(seen) && DistinctKeys(v.members)
    ensures FromDict(v, seen).0.Success? <==> forall i :: 0 <= i < |v.members| ==> Shape(v.members[i].1).Success?
    ensures FromDict(v, seen).0.Success? ==>
      && FromDict(v, seen).0.value.Fields?
      && FromDict(v, seen).0.value.fields.Keys == KeySet(v.members, |v.members|)
      && forall i :: 0 <= i < |v.members| ==> FromDict(v, seen).0.value.fields[v.members[i].0] == Shape(v.members[i].1).value
  {
    FieldsSucceed(v, |v.members|, seen);
    if FromDict(v, seen).0.Success? {
      var vals := MemberShapes(v, |v.members|);
      FieldsAreAssoc(v, |v.members|, seen, vals);
      AssocLookup(v.members, vals, |v.members|);
    }
  }

  /** The top level gives the same key-to-schema map as the dict function, but never touches the memo table for itself. */
  lemma TopLevelNotRemembered(data: Json, seen: Cache)
    requires data.JObject? && Valid(seen)
    ensures DocumentSchema(data, seen).0 == FromDict(data, seen).0
    ensures DocumentSchema(data, seen).1 == DictFields(data, |data.members|, seen).1
  {
  }

  /** A dict of scalars leaves the memo table as it was. */
  lemma {:induction false} ScalarFieldsKeepCache(v: Json, n: nat, seen: Cache)
    requires v.JObject? && n <= |v.members|
    requires forall i :: 0 <= i < n ==> IsScalar(v.members[i].1)
    ensures DictFields(v, n, seen).0.Success? && DictFields(v, n, seen).1 == seen
  {
    if n > 0 {
      ScalarFieldsKeepCache(v, n - 1, seen);
    }
  }

  /**
   * So the top level of a document whose values are all scalars leaves the
   * memo table unchanged, while the same dict met below the top level is
   * stored in it.
   */
  lemma ScalarDocument(data: Json, seen: Cache)
    requires data.JObject? && Valid(seen)
    requires forall i :: 0 <= i < |data.members| ==> IsScalar(data.members[i].1)
    ensures DocumentSchema(data, seen).0.Success? && DocumentSchema(data, seen).1 == seen
    ensures FromDict(data, seen).0.Success? && FromDict(data, seen).0.value in FromDict(data, seen).1
  {
    ScalarFieldsKeepCache(data, |data.members|, seen);
  }

  // ---------------------------------------------------------------------------
  // Lists

  /** The union of the key sets of the dicts among `items`. */
  function ObjectKeys(items: seq<Json>): set<string> {
    if items == [] then {}
    else
      var last := items[|items| - 1];
      ObjectKeys(items[..|items| - 1]) + (if last.JObject? then KeySet(last.members, |last.members|) else {})
  }

  /** The union of the keys of dict schemas. */
  function SchemaKeys(schemas: seq<Schema>): set<string> {
    if schemas == [] then {}
    else
      var last := schemas[|schemas| - 1];
      SchemaKeys(schemas[..|schemas| - 1]) + (if last.Fields? then last.fields.Keys else {})
  }

  /** The index of the last dict schema that has key `k`, or -1. */
  function LastWith(schemas: seq<Schema>, k: string): (j: int)
    ensures -1 <= j < |schemas|
    ensures j >= 0 ==> schemas[j].Fields? && k in schemas[j].fields
    ensures forall j' :: j < j' < |schemas| ==> !(schemas[j'].Fields? && k in schemas[j'].fields)
  {
    if schemas == [] then -1
    else
      var last := schemas[|schemas| - 1];
      if last.Fields? && k in last.fields then |schemas| - 1
      else LastWith(schemas[..|schemas| - 1], k)
  }

  /** The merged schema has the union of the keys. */
  lemma {:induction false} MergeKeys(schemas: seq<Schema>)
    requires Merge(schemas).Success?
    ensures Merge(schemas).value.Keys == SchemaKeys(schemas)
  {
    if schemas != [] {
      MergeKeys(schemas[..|schemas| - 1]);
    }
  }

  /** On a key several schemas share, the last of them wins. */
  lemma {:induction false} MergeLaterWins(schemas: seq<Schema>, k: string)
    requires Merge(schemas).Success? && k in Merge(schemas).value
    ensures LastWith(schemas, k) >= 0
    ensures Merge(schemas).value[k] == schemas[LastWith(schemas, k)].fields[k]
  {
    var prefix := schemas[..|schemas| - 1];
    var last := schemas[|schemas| - 1];
    if !(k in last.fields) {
      MergeLaterWins(prefix, k);
    }
  }

  lemma {:induction false} SchemaKeysOfItems(v: Json, n: nat, schemas: seq<Schema>)
    requires v.JArray? && n <= |v.items| && |schemas| == n
    requires forall i :: 0 <= i < n ==>
      v.items[i].JObject? && schemas[i].Fields? && schemas[i].fields.Keys == KeySet(v.items[i].members, |v.items[i].members|)
    ensures SchemaKeys(schemas) == ObjectKeys(v.items[..n])
  {
    if n > 0 {
      SchemaKeysOfItems(v, n - 1, schemas[..n - 1]);
      assert v.items[..n][..n - 1] == v.items[..n - 1];
    }
  }

  /**
   * A list whose first element is a dict: it raises unless every element is
   * a dict, and its schema's keys are the union of the elements' keys.
   */
  lemma ListOfDicts(v: Json, seen: Cache)
    requires v.JArray? && |v.items| > 0 && v.items[0].JObject? && Valid(seen)
    ensures FromList(v, seen).0.Success? ==>
      && (forall i :: 0 <= i < |v.items| ==> v.items[i].JObject?)
      && FromList(v, seen).0.value.Fields?
      && FromList(v, seen).0.value.fields.Keys == ObjectKeys(v.items)
  {
    var (schemas, seen1) := DictItems(v, |v.items|, seen);
    if schemas.Success? && Merge(schemas.value).Success? {
      SchemaKeysOfItems(v, |v.items|, schemas.value);
      MergeKeys(schemas.value);
      assert v.items[..|v.items|] == v.items;
    }
  }

  /**
   * A list whose first element is a list raises unless every element is a
   * non-empty list that starts with a dict or a list: an empty or scalar
   * inner list has a string schema, which `dict.update` rejects.
   */
  lemma ListOfLists(v: Json, seen: Cache)
    requires v.JArray? && |v.items| > 0 && v.items[0].JArray? && Valid(seen)
    ensures FromList(v, seen).0.Success? ==> forall i :: 0 <= i < |v.items| ==> NestedList(v.items[i])
    ensures ListItems(v, |v.items|, seen).0.Success? && (exists i :: 0 <= i < |v.items| && !NestedList(v.items[i])) ==>
      FromList(v, seen).0 == Failure(ValueError)
  {
  }

  /** Only the first element of a list of scalars is looked at. */
  lemma ScalarListIgnoresRest(x: Json, rest1: seq<Json>, rest2: seq<Json>, seen: Cache)
    requires IsScalar(x)
    ensures FromList(JArray([x] + rest1), seen) == FromList(JArray([x] + rest2), seen)
    ensures FromList(JArray([x] + rest1), seen).0 == Success(Name(TypeName(x)))
  {
  }

  // ---------------------------------------------------------------------------
  // The memo table as the state it is

  lemma {:induction false} FieldsFailureSticks(v: Json, k: nat, n: nat, seen: Cache)
    requires v.JObject? && k <= n <= |v.members| && DictFields(v, k, seen).0.Failure?
    ensures DictFields(v, n, seen) == DictFields(v, k, seen)
    decreases n
  {
    if k < n {
      FieldsFailureSticks(v, k, n - 1, seen);
    }
  }

  lemma {:induction false} DictItemsFailureSticks(v: Json, k: nat, n: nat, seen: Cache)
    requires v.JArray? && k <= n <= |v.items| && DictItems(v, k, seen).0.Failure?
    ensures DictItems(v, n, seen) == DictItems(v, k, seen)
    decreases n
  {
    if k < n {
      DictItemsFailureSticks(v, k, n - 1, seen);
    }
  }

  lemma {:induction false} ListItemsFailureSticks(v: Json, k: nat, n: nat, seen: Cache)
    requires v.JArray? && k <= n <= |v.items| && ListItems(v, k, seen).0.Failure?
    ensures ListItems(v, n, seen) == ListItems(v, k, seen)
    decreases n
  {
    if k < n {
      ListItemsFailureSticks(v, k, n - 1, seen);
    }
  }

  /** One turn of the dict loop, in terms of the value's schema. */
  lemma FieldsTurn(v: Json, i: nat, seen: Cache, prev: map<string, Schema>, seen1: Cache, s: Result<Schema, SchemaError>, seen2: Cache)
    requires v.JObject? && i < |v.members|
    requires DictFields(v, i, seen) == (Success(prev), seen1)
    requires ValueSchema(v.members[i].1, seen1) == (s, seen2)
    ensures DictFields(v, i + 1, seen) ==
      if s.Failure? then (Failure(s.error), seen2) else (Success(prev[v.members[i].0 := s.value]), seen2)
  {
  }

  /** One turn of the dict-items comprehension. */
  lemma DictItemsStep(v: Json, i: nat, seen: Cache, prev: seq<Schema>, seen1: Cache, s: Result<Schema, SchemaError>, seen2: Cache)
    requires v.JArray? && i < |v.items|
    requires DictItems(v, i, seen) == (Success(prev), seen1)
    requires FromDict(v.items[i], seen1) == (s, seen2)
    ensures DictItems(v, i + 1, seen) ==
      if s.Failure? then (Failure(s.error), seen2) else (Success(prev + [s.value]), seen2)
  {
  }

  /** One turn of the list-items comprehension. */
  lemma ListItemsStep(v: Json, i: nat, seen: Cache, prev: seq<Schema>, seen1: Cache, s: Result<Schema, SchemaError>, seen2: Cache)
    requires v.JArray? && i < |v.items|
    requires ListItems(v, i, seen) == (Success(prev), seen1)
    requires FromList(v.items[i], seen1) == (s, seen2)
    ensures ListItems(v, i + 1, seen) ==
      if s.Failure? then (Failure(s.error), seen2) else (Success(prev + [s.value]), seen2)
  {
  }

  class SchemaExtractor {
    /** `seen_schemas`. */
    var seen: Cache

    /** The module starts with an empty `seen_schemas`. */
    constructor()
      ensures seen == map[]
    {
      seen := map[];
    }

    /** `extract_schema` on the loaded document. */
    method ExtractSchema(data: Json) returns (r: Result<Schema, SchemaError>)
      modifies this
      ensures (r, seen) == DocumentSchema(data, old(seen))
    {
      if !data.JObject? {
        return Failure(AttributeError);
      }
      var schema := ExtractMembers(data);
      if schema.Failure? {
        return Failure(schema.error);
      }
      r := Success(Fields(schema.value));
    }

    /** `extract_schema_from_dict`. */
    method ExtractSchemaFromDict(d: Json) returns (r: Result<Schema, SchemaError>)
      modifies this
      ensures (r, seen) == FromDict(d, old(seen))
      decreases d, 2
    {
      if !d.JObject? {
        return Failure(AttributeError);
      }
      var schema := ExtractMembers(d);
      if schema.Failure? {
        return Failure(schema.error);
      }
      r := Remember(Fields(schema.value));
    }

    /** The loop both dict functions run over the members (lines 7-13 and 20-26). */
    method ExtractMembers(d: Json) returns (r: Result<map<string, Schema>, SchemaError>)
      requires d.JObject?
      modifies this
      ensures (r, seen) == DictFields(d, |d.members|, old(seen))
      decreases d, 1
    {
      var schema: map<string, Schema> := map[];
      var i := 0;
      while i < |d.members|
        invariant 0 <= i <= |d.members|
        invariant DictFields(d, i, old(seen)) == (Success(schema), seen)
      {
        var step := ExtractMember(d, i, schema, old(seen));
        if step.Failure? {
          FieldsFailureSticks(d, i + 1, |d.members|, old(seen));
          return step;
        }
        schema := step.value;
        i := i + 1;
      }
      r := Success(schema);
    }

    /** One pass of the member loop: `schema[key] = ...` for the member at index `i`. */
    method ExtractMember(d: Json, i: nat, schema: map<string, Schema>, ghost start: Cache)
      returns (r: Result<map<string, Schema>, SchemaError>)
      requires d.JObject? && i < |d.members|
      requires DictFields(d, i, start) == (Success(schema), seen)
      modifies this
      ensures (r, seen) == DictFields(d, i + 1, start)
      decreases d, 0
    {
      var key := d.members[i].0;
      var value := d.members[i].1;
      ghost var seen1 := seen;
      var s := ExtractValue(value);
      FieldsTurn(d, i, start, schema, seen1, s, seen);
      if s.Failure? {
        return Failure(s.error);
      }
      r := Success(schema[key := s.value]);
    }

    /** The `isinstance` dispatch in the body of both dict loops. */
    method ExtractValue(value: Json) returns (s: Result<Schema, SchemaError>)
      modifies this
      ensures (s, seen) == ValueSchema(value, old(seen))
      decreases value, 3
    {
      if value.JObject? {
        s := ExtractSchemaFromDict(value);
      } else if value.JArray? {
        s := ExtractSchemaFromList(value);
      } else {
        s := Success(Name(TypeName(value)));
      }
    }

    /** `extract_schema_from_list`, on any value. */
    method ExtractSchemaFromList(lst: Json) returns (r: Result<Schema, SchemaError>)
      modifies this
      ensures (r, seen) == FromList(lst, old(seen))
      decreases lst, 2
    {
      if Falsy(lst) {
        return Success(Name("empty list"));
      } else if lst.JObject? {
        return Failure(KeyError);
      } else if lst.JStr? {
        return Success(Name("str"));
      } else if !lst.JArray? {
        return Failure(TypeError);
      }
      var first := lst.items[0];
      var schemas;
      if first.JObject? {
        schemas := DictItemSchemas(lst);
      } else if first.JArray? {
        schemas := ListItemSchemas(lst);
      } else {
        return Success(Name(TypeName(first)));
      }
      if schemas.Failure? {
        return Failure(schemas.error);
      }
      var merged := MergeAll(schemas.value);
      if merged.Failure? {
        return Failure(merged.error);
      }
      r := Remember(Fields(merged.value));
    }

    /** `[extract_schema_from_dict(item) for item in lst]`. */
    method DictItemSchemas(lst: Json) returns (r: Result<seq<Schema>, SchemaError>)
      requires lst.JArray?
      modifies this
      ensures (r, seen) == DictItems(lst, |lst.items|, old(seen))
      decreases lst, 0
    {
      var schemas: seq<Schema> := [];
      var i := 0;
      while i < |lst.items|
        invariant 0 <= i <= |lst.items|
        invariant DictItems(lst, i, old(seen)) == (Success(schemas), seen)
      {
        ghost var seen1 := seen;
        var s := ExtractSchemaFromDict(lst.items[i]);
        DictItemsStep(lst, i, old(seen), schemas, seen1, s, seen);
        if s.Failure? {
          DictItemsFailureSticks(lst, i + 1, |lst.items|, old(seen));
          return Failure(s.error);
        }
        schemas := schemas + [s.value];
        i := i + 1;
      }
      r := Success(schemas);
    }

    /** `[extract_schema_from_list(item) for item in lst]`. */
    method ListItemSchemas(lst: Json) returns (r: Result<seq<Schema>, SchemaError>)
      requires lst.JArray?
      modifies this
      ensures (r, seen) == ListItems(lst, |lst.items|, old(seen))
      decreases lst, 0
    {
      var schemas: seq<Schema> := [];
      var i := 0;
      while i < |lst.items|
        invariant 0 <= i <= |lst.items|
        invariant ListItems(lst, i, old(seen)) == (Success(schemas), seen)
      {
        ghost var seen1 := seen;
        var s := ExtractSchemaFromList(lst.items[i]);
        ListItemsStep(lst, i, old(seen), schemas, seen1, s, seen);
        if s.Failure? {
          ListItemsFailureSticks(lst, i + 1, |lst.items|, old(seen));
          return Failure(s.error);
        }
        schemas := schemas + [s.value];
        i := i + 1;
      }
      r := Success(schemas);
    }

    /** `for schema in schemas: merged_schema.update(schema)`. */
    method MergeAll(schemas: seq<Schema>) returns (r: Result<map<string, Schema>, SchemaError>)
      ensures r == Merge(schemas)
    {
      var merged: map<string, Schema> := map[];
      var j := 0;
      while j < |schemas|
        invariant 0 <= j <= |schemas|
        invariant Merge(schemas[..j]) == Success(merged)
      {
        assert schemas[..j + 1][..j] == schemas[..j];
        if schemas[j].Name? {
          MergeFailureSticks(schemas, j + 1);
          return Failure(ValueError);
        }
        merged := merged + schemas[j].fields;
        j := j + 1;
      }
      assert schemas[..j] == schemas;
      r := Success(merged);
    }

    /** The look-up in, or the store to, `seen_schemas` (lines 28-33 and 48-53). */
    method Remember(s: Schema) returns (r: Result<Schema, SchemaError>)
      modifies this
      ensures (r, seen) == (Success(Memo(s, old(seen)).0), Memo(s, old(seen)).1)
    {
      if s in seen {
        r := Success(seen[s]);
      } else {
        seen := seen[s := s];
        r := Success(s);
      }
    }
  }

  lemma {:induction false} MergeFailureSticks(schemas: seq<Schema>, k: nat)
    requires k <= |schemas| && Merge(schemas[..k]).Failure?
    ensures Merge(schemas) == Merge(schemas[..k])
    decreases |schemas| - k
  {
    if k < |schemas| {
      assert schemas[..k + 1][..k] == schemas[..k];
      MergeFailureSticks(schemas, k + 1);
    } else {
      assert schemas[..k] == schemas;
    }
  }
}
