/** `JSONProcessor`: flattening a parsed JSON document into one line per
    scalar, and the metadata read from its top level. */
module JsonProcessor {
  import opened Wrappers
  import opened Text
  import opened Values

  /** The prefix a list element's lines get: `"{prefix}[{i}] "`. */
  function ItemPrefix(prefix: string, i: nat): string {
    prefix + "[" + NatToString(i) + "] "
  }

  /** The prefix a dictionary entry's lines get: `"{prefix}{key}: "`. */
  function KeyPrefix(prefix: string, key: string): string {
    prefix + key + ": "
  }

  function Concat(xss: seq<seq<string>>): seq<string> {
    if xss == [] then [] else Concat(xss[..|xss| - 1]) + xss[|xss| - 1]
  }

  /** The lines `extract_text_recursive(j, prefix)` appends: a container
      element recurses with a longer prefix, a scalar element gives one
      line. */
  function Lines(j: Json, prefix: string): seq<string>
    decreases j, 2
  {
    match j
    case JObject(_) => Concat(ObjectPieces(j, prefix))
    case JArray(_) => Concat(ArrayPieces(j, prefix))
    case _ => [prefix + ScalarStr(j)]
  }

  /** The lines of each dictionary entry, in insertion order. */
  function ObjectPieces(j: Json, prefix: string): seq<seq<string>>
    requires j.JObject?
    decreases j, 1
  {
    var ms := j.members;
    seq(|ms|, i requires 0 <= i < |ms| => EntryLines(ms[i].key, ms[i].value, prefix))
  }

  /** The lines of each list element, in order. */
  function ArrayPieces(j: Json, prefix: string): seq<seq<string>>
    requires j.JArray?
    decreases j, 1
  {
    var xs := j.items;
    seq(|xs|, i requires 0 <= i < |xs| => ElementLines(xs[i], i, prefix))
  }

  /** One dictionary entry: a nested container recurses under
      `"{prefix}{key}: "`, a scalar is the line `"{prefix}{key}: {value}"`. */
  function EntryLines(key: string, value: Json, prefix: string): seq<string>
    decreases value, 3
  {
    if IsContainer(value) then Lines(value, KeyPrefix(prefix, key))
    else [KeyPrefix(prefix, key) + ScalarStr(value)]
  }

  /** List element `i`: a nested container recurses under
      `"{prefix}[{i}] "`, a scalar is the line `"{prefix}[{i}] {item}"`. */
  function ElementLines(x: Json, i: nat, prefix: string): seq<string>
    decreases x, 3
  {
    if IsContainer(x) then Lines(x, ItemPrefix(prefix, i))
    else [ItemPrefix(prefix, i) + ScalarStr(x)]
  }

  lemma ConcatStep(xss: seq<seq<string>>, i: nat)
    requires i < |xss|
    ensures Concat(xss[..i + 1]) == Concat(xss[..i]) + xss[i]
  {
    assert xss[..i + 1][..i] == xss[..i];
  }

  /** One turn of the dictionary loop appends the lines of entry `i`. */
  lemma MemberStep(obj: Json, prefix: string, parts: seq<string>, i: nat, out: seq<string>, next: seq<string>)
    requires obj.JObject? && i < |obj.members|
    requires out == parts + Concat(ObjectPieces(obj, prefix)[..i])
    requires next == out + EntryLines(obj.members[i].key, obj.members[i].value, prefix)
    ensures next == parts + Concat(ObjectPieces(obj, prefix)[..i + 1])
  {
    ConcatStep(ObjectPieces(obj, prefix), i);
  }

  /** One turn of the list loop appends the lines of element `i`. */
  lemma ItemStep(obj: Json, prefix: string, parts: seq<string>, i: nat, out: seq<string>, next: seq<string>)
    requires obj.JArray? && i < |obj.items|
    requires out == parts + Concat(ArrayPieces(obj, prefix)[..i])
    requires next == out + ElementLines(obj.items[i], i, prefix)
    ensures next == parts + Concat(ArrayPieces(obj, prefix)[..i + 1])
  {
    ConcatStep(ArrayPieces(obj, prefix), i);
  }

  /** `extract_text_recursive`: appends the lines of `obj` to the list of
      parts gathered so far. */
  method ExtractTextRecursive(obj: Json, prefix: string, parts: seq<string>) returns (out: seq<string>)
    ensures out == parts + Lines(obj, prefix)
    decreases obj, 1
  {
    if obj.JObject? {
      out := ExtractMembers(obj, prefix, parts);
    } else if obj.JArray? {
      out := ExtractItems(obj, prefix, parts);
    } else {
      out := parts + [prefix + ScalarStr(obj)];
    }
  }

  /** The dictionary branch: the loop over `obj.items()`. */
  method ExtractMembers(obj: Json, prefix: string, parts: seq<string>) returns (out: seq<string>)
    requires obj.JObject?
    ensures out == parts + Concat(ObjectPieces(obj, prefix))
    decreases obj, 0
  {
    var ms := obj.members;
    out := parts;
    var i := 0;
    while i < |ms|
      invariant 0 <= i <= |ms|
      invariant out == parts + Concat(ObjectPieces(obj, prefix)[..i])
    {
      var m := ms[i];
      assert m in ms;
      var next;
      if IsContainer(m.value) {
        next := ExtractTextRecursive(m.value, KeyPrefix(prefix, m.key), out);
      } else {
        next := out + [KeyPrefix(prefix, m.key) + ScalarStr(m.value)];
      }
      MemberStep(obj, prefix, parts, i, out, next);
      out := next;
      i := i + 1;
    }
    assert ObjectPieces(obj, prefix)[..i] == ObjectPieces(obj, prefix);
  }

  /** The list branch: the loop over `enumerate(obj)`. */
  method ExtractItems(obj: Json, prefix: string, parts: seq<string>) returns (out: seq<string>)
    requires obj.JArray?
    ensures out == parts + Concat(ArrayPieces(obj, prefix))
    decreases obj, 0
  {
    var xs := obj.items;
    out := parts;
    var i := 0;
    while i < |xs|
      invariant 0 <= i <= |xs|
      invariant out == parts + Concat(ArrayPieces(obj, prefix)[..i])
    {
      var x := xs[i];
      assert x in xs;
      var next;
      if IsContainer(x) {
        next := ExtractTextRecursive(x, ItemPrefix(prefix, i), out);
      } else {
        next := out + [ItemPrefix(prefix, i) + ScalarStr(x)];
      }
      ItemStep(obj, prefix, parts, i, out, next);
      out := next;
      i := i + 1;
    }
    assert ArrayPieces(obj, prefix)[..i] == ArrayPieces(obj, prefix);
  }

  /** `JSONProcessor.extract_text` on the parsed document (`None` when the
      file cannot be read or parsed, which the source turns into ""). */
  method ExtractText(data: Option<Json>) returns (text: string)
    ensures text == JsonText(data)
  {
    match data {
      case None => text := "";
      case Some(j) =>
        var parts := ExtractTextRecursive(j, "", []);
        assert parts == Lines(j, "");
        text := Join(parts, "\n");
    }
  }

  function JsonText(data: Option<Json>): string {
    match data
    case None => ""
    case Some(j) => Join(Lines(j, ""), "\n")
  }

  // ---------------------------------------------------------------------
  // Properties of the flattening

  /** The number of scalars in a document, containers counting only through
      their elements. */
  function Leaves(j: Json): nat
    decreases j
  {
    match j
    case JObject(ms) => SumLeaves(seq(|ms|, i requires 0 <= i < |ms| => Leaves(ms[i].value)))
    case JArray(xs) => SumLeaves(seq(|xs|, i requires 0 <= i < |xs| => Leaves(xs[i])))
    case _ => 1
  }

  function SumLeaves(ns: seq<nat>): nat {
    if ns == [] then 0 else SumLeaves(ns[..|ns| - 1]) + ns[|ns| - 1]
  }

  /** Every line `Concat` gathers starts with `prefix` when every piece's
      lines do, and the counts add up. */
  lemma {:induction false} ConcatShape(xss: seq<seq<string>>, ns: seq<nat>, prefix: string)
    requires |xss| == |ns|
    requires forall k :: 0 <= k < |xss| ==> |xss[k]| == ns[k]
    requires forall k, l :: 0 <= k < |xss| && 0 <= l < |xss[k]| ==> StartsWith(xss[k][l], prefix)
    ensures |Concat(xss)| == SumLeaves(ns)
    ensures forall l :: 0 <= l < |Concat(xss)| ==> StartsWith(Concat(xss)[l], prefix)
    decreases |xss|
  {
    if xss != [] {
      var n := |xss| - 1;
      ConcatShape(xss[..n], ns[..n], prefix);
      var c := Concat(xss);
      assert c == Concat(xss[..n]) + xss[n];
      forall l | 0 <= l < |c|
        ensures StartsWith(c[l], prefix)
      {
        if l >= |Concat(xss[..n])| {
          assert c[l] == xss[n][l - |Concat(xss[..n])|];
        } else {
          assert c[l] == Concat(xss[..n])[l];
        }
      }
    }
  }

  /** One line per scalar in the document, each under the prefix it was
      given: nothing is dropped and empty containers print nothing. */
  lemma {:induction false} LinesShape(j: Json, prefix: string)
    ensures |Lines(j, prefix)| == Leaves(j)
    ensures forall l :: 0 <= l < |Lines(j, prefix)| ==> StartsWith(Lines(j, prefix)[l], prefix)
    decreases j, 2
  {
    match j {
      case JObject(ms) =>
        var pieces := ObjectPieces(j, prefix);
        var ns := seq(|ms|, i requires 0 <= i < |ms| => Leaves(ms[i].value));
        forall k | 0 <= k < |ms|
          ensures |pieces[k]| == ns[k]
          ensures forall l :: 0 <= l < |pieces[k]| ==> StartsWith(pieces[k][l], prefix)
        {
          EntryShape(ms[k].key, ms[k].value, prefix);
        }
        ConcatShape(pieces, ns, prefix);
      case JArray(xs) =>
        var pieces := ArrayPieces(j, prefix);
        var ns := seq(|xs|, i requires 0 <= i < |xs| => Leaves(xs[i]));
        forall k | 0 <= k < |xs|
          ensures |pieces[k]| == ns[k]
          ensures forall l :: 0 <= l < |pieces[k]| ==> StartsWith(pieces[k][l], prefix)
        {
          ElementShape(xs[k], k, prefix);
        }
        ConcatShape(pieces, ns, prefix);
      case _ =>
        assert (prefix + ScalarStr(j))[..|prefix|] == prefix;
    }
  }

  /** An entry gives one line per scalar of its value, each starting with
      `"{prefix}{key}: "` (and so with `prefix`). */
  lemma {:induction false} EntryShape(key: string, value: Json, prefix: string)
    ensures |EntryLines(key, value, prefix)| == Leaves(value)
    ensures forall l :: 0 <= l < |EntryLines(key, value, prefix)| ==>
              StartsWith(EntryLines(key, value, prefix)[l], KeyPrefix(prefix, key))
    ensures forall l :: 0 <= l < |EntryLines(key, value, prefix)| ==>
              StartsWith(EntryLines(key, value, prefix)[l], prefix)
    decreases value, 3
  {
    var p := KeyPrefix(prefix, key);
    assert p == prefix + (key + ": ");
    if IsContainer(value) {
      LinesShape(value, p);
    } else {
      assert (p + ScalarStr(value))[..|p|] == p;
    }
    forall l | 0 <= l < |EntryLines(key, value, prefix)|
      ensures StartsWith(EntryLines(key, value, prefix)[l], prefix)
    {
      StartsWithExtend(prefix, key + ": ", EntryLines(key, value, prefix)[l]);
    }
  }

  /** Element `i` gives one line per scalar, each starting with
      `"{prefix}[{i}] "` (and so with `prefix`). */
  lemma {:induction false} ElementShape(x: Json, i: nat, prefix: string)
    ensures |ElementLines(x, i, prefix)| == Leaves(x)
    ensures forall l :: 0 <= l < |ElementLines(x, i, prefix)| ==>
              StartsWith(ElementLines(x, i, prefix)[l], ItemPrefix(prefix, i))
    ensures forall l :: 0 <= l < |ElementLines(x, i, prefix)| ==>
              StartsWith(ElementLines(x, i, prefix)[l], prefix)
    decreases x, 3
  {
    var p := ItemPrefix(prefix, i);
    var ext := "[" + NatToString(i) + "] ";
    assert p == prefix + ext;
    if IsContainer(x) {
      LinesShape(x, p);
    } else {
      assert (p + ScalarStr(x))[..|p|] == p;
    }
    forall l | 0 <= l < |ElementLines(x, i, prefix)|
      ensures StartsWith(ElementLines(x, i, prefix)[l], prefix)
    {
      StartsWithExtend(prefix, ext, ElementLines(x, i, prefix)[l]);
    }
  }

  /** The document `{"a": {"b": 1}, "c": [2, 3]}` flattens to the three
      lines `a: b: 1`, `c: [0] 2` and `c: [1] 3` (joined with newlines into
      the extracted text). */
  lemma NestedExample()
    ensures Lines(JObject([
              Member("a", JObject([Member("b", JNumber("1"))])),
              Member("c", JArray([JNumber("2"), JNumber("3")]))]), "")
            == ["a: b: 1", "c: [0] 2", "c: [1] 3"]
  {
    var inner := JObject([Member("b", JNumber("1"))]);
    var arr := JArray([JNumber("2"), JNumber("3")]);
    var doc := JObject([Member("a", inner), Member("c", arr)]);
    assert KeyPrefix("", "a") == "a: " && KeyPrefix("", "c") == "c: ";
    ExampleInner();
    ExampleArray();
    var pd := ObjectPieces(doc, "");
    assert pd[0] == EntryLines("a", inner, "") == Lines(inner, "a: ") == ["a: b: 1"];
    assert pd[1] == EntryLines("c", arr, "") == Lines(arr, "c: ") == ["c: [0] 2", "c: [1] 3"];
    assert pd[..1][..0] == [];
    assert Concat(pd[..1]) == ["a: b: 1"];
    assert pd[..2] == pd;
  }

  lemma ExampleInner()
    ensures Lines(JObject([Member("b", JNumber("1"))]), "a: ") == ["a: b: 1"]
  {
    var inner := JObject([Member("b", JNumber("1"))]);
    assert KeyPrefix("a: ", "b") == "a: b: ";
    assert ScalarStr(JNumber("1")) == "1" && "a: b: " + "1" == "a: b: 1";
    var pi := ObjectPieces(inner, "a: ");
    assert pi[0] == EntryLines("b", JNumber("1"), "a: ") == ["a: b: 1"];
    assert pi[..0] == [];
  }

  lemma ExampleArray()
    ensures Lines(JArray([JNumber("2"), JNumber("3")]), "c: ") == ["c: [0] 2", "c: [1] 3"]
  {
    var arr := JArray([JNumber("2"), JNumber("3")]);
    assert NatToString(0) == "0" && NatToString(1) == "1";
    assert ItemPrefix("c: ", 0) == "c: [0] " && ItemPrefix("c: ", 1) == "c: [1] ";
    assert ScalarStr(JNumber("2")) == "2" && "c: [0] " + "2" == "c: [0] 2";
    assert ScalarStr(JNumber("3")) == "3" && "c: [1] " + "3" == "c: [1] 3";
    var pa := ArrayPieces(arr, "c: ");
    assert pa[0] == ElementLines(JNumber("2"), 0, "c: ") == ["c: [0] 2"];
    assert pa[1] == ElementLines(JNumber("3"), 1, "c: ") == ["c: [1] 3"];
    assert pa[..1][..0] == [];
    assert Concat(pa[..1]) == ["c: [0] 2"];
    assert pa[..2] == pa;
    assert Concat(pa) == Concat(pa[..1]) + pa[1];
  }

  // ---------------------------------------------------------------------
  // Metadata

  /** The well-known top-level fields copied into the metadata. */
  const WellKnownFields: seq<string> :=
    ["title", "name", "description", "summary", "version", "date", "author"]

  /** `data[key]` of a parsed dictionary, `None` when absent. */
  function Lookup(ms: seq<Member>, key: string): Option<Json> {
    if ms == [] then None
    else if ms[0].key == key then Some(ms[0].value)
    else Lookup(ms[1..], key)
  }

  /** `list(data.keys())`. */
  function Keys(ms: seq<Member>): seq<string> {
    seq(|ms|, i requires 0 <= i < |ms| => ms[i].key)
  }

  /** The three entries every parsed document's metadata starts with. */
  const JsonBase: Metadata :=
    map["file_extension" := MStr(".json"), "processing_method" := MStr("json_parser"),
        "processor" := MStr("JSONProcessor")]

  /** The entries the dictionary branch sets before looking at the fields. */
  function ObjectBase(ms: seq<Member>): Metadata {
    JsonBase["json_keys" := MStrList(Keys(ms))]["json_structure" := MStr("object")]
  }

  /** `metadata[field] = data[field]` for each of `fields` the dictionary has. */
  function Found(ms: seq<Member>, fields: seq<string>): Metadata {
    map f | f in fields && Lookup(ms, f).Some? :: MJson(Lookup(ms, f).value)
  }

  /** `JSONProcessor.extract_metadata` on the parsed document. */
  function JsonMetadata(data: Option<Json>): Metadata {
    match data
    case None => map[]
    case Some(JObject(ms)) => ObjectBase(ms) + Found(ms, WellKnownFields)
    case Some(JArray(xs)) =>
      JsonBase["json_structure" := MStr("array")]["json_array_length" := MInt(|xs|)]
    case Some(_) => JsonBase
  }

  lemma FoundStep(ms: seq<Member>, fields: seq<string>, i: nat, meta: Metadata, base: Metadata)
    requires i < |fields| && meta == base + Found(ms, fields[..i])
    ensures var f := fields[i];
            base + Found(ms, fields[..i + 1]) ==
              if Lookup(ms, f).Some? then meta[f := MJson(Lookup(ms, f).value)] else meta
  {
    assert fields[..i + 1] == fields[..i] + [fields[i]];
  }

  /** `JSONProcessor.extract_metadata` on the parsed document. */
  method ExtractMetadata(data: Option<Json>) returns (meta: Metadata)
    ensures meta == JsonMetadata(data)
  {
    match data {
      case None => meta := map[];
      case Some(j) =>
        meta := JsonBase;
        match j {
          case JObject(ms) =>
            meta := meta["json_keys" := MStrList(Keys(ms))];
            meta := meta["json_structure" := MStr("object")];
            meta := CopyWellKnown(ms, meta);
          case JArray(xs) =>
            meta := meta["json_structure" := MStr("array")];
            meta := meta["json_array_length" := MInt(|xs|)];
          case _ =>
        }
    }
  }

  /** The loop over the well-known fields: each one the dictionary has is
      copied over. */
  method CopyWellKnown(ms: seq<Member>, start: Metadata) returns (meta: Metadata)
    ensures meta == start + Found(ms, WellKnownFields)
  {
    meta := start;
    var i := 0;
    assert Found(ms, WellKnownFields[..0]) == map[];
    while i < |WellKnownFields|
      invariant 0 <= i <= |WellKnownFields|
      invariant meta == start + Found(ms, WellKnownFields[..i])
    {
      var field := WellKnownFields[i];
      FoundStep(ms, WellKnownFields, i, meta, start);
      var found := Lookup(ms, field);
      if found.Some? {
        meta := meta[field := MJson(found.value)];
      }
      i := i + 1;
    }
    assert WellKnownFields[..i] == WellKnownFields;
  }

  lemma ReservedKeysNotWellKnown()
    ensures "json_structure" !in WellKnownFields && "json_keys" !in WellKnownFields
    ensures "processor" !in WellKnownFields && "file_extension" !in WellKnownFields
    ensures "processing_method" !in WellKnownFields && "document_id" !in WellKnownFields
  {
  }

  /** A parsed dictionary's metadata records its keys and that it is an
      object, and a well-known field is in it exactly when the dictionary
      has that field, with the dictionary's value. */
  lemma JsonObjectMetadata(ms: seq<Member>)
    ensures JsonMetadata(Some(JObject(ms)))["json_structure"] == MStr("object")
    ensures JsonMetadata(Some(JObject(ms)))["json_keys"] == MStrList(Keys(ms))
    ensures forall f :: f in WellKnownFields ==>
              (f in JsonMetadata(Some(JObject(ms))) <==> Lookup(ms, f).Some?)
    ensures forall f :: f in WellKnownFields && Lookup(ms, f).Some? ==>
              JsonMetadata(Some(JObject(ms)))[f] == MJson(Lookup(ms, f).value)
  {
    ReservedKeysNotWellKnown();
  }

  /** A file that does not parse gives no metadata at all; any parsed
      document is marked as handled by the JSON parser; an array records its
      length; no document id is ever set. */
  lemma JsonMetadataSpec(data: Option<Json>)
    ensures data.None? ==> JsonMetadata(data) == map[]
    ensures data.Some? ==> JsonMetadata(data)["processor"] == MStr("JSONProcessor")
    ensures data.Some? ==> JsonMetadata(data)["file_extension"] == MStr(".json")
    ensures data.Some? && data.value.JArray? ==>
              JsonMetadata(data)["json_structure"] == MStr("array")
              && JsonMetadata(data)["json_array_length"] == MInt(|data.value.items|)
    ensures "document_id" !in JsonMetadata(data)
  {
    ReservedKeysNotWellKnown();
  }
}
