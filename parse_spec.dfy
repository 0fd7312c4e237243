/**
  What `Parser_3_1_0.parse(jsonDict)` (pyblitz/generator/parser.py) records, as
  a function of the decoded specification: the servers in order, the schema
  properties in the order `_recordSchemaProperty` sees them, and the methods in
  the order `_recordMethod` sees them, each with the response schemas its
  responses mention. The three phases run one after the other and the first
  exception stops the parse; `ParseDoc` returns that exception.
*/
module ParseSpec {
  import opened Wrappers
  import opened Strs
  import opened Json
  import opened Records
  import opened Scanner
  import ET = EndpointTree

  /** One `_recordMethod(pathUrl, method)`, with the method as it stands once its responses are scanned. */
  datatype MethodRec = MethodRec(url: string, data: MethodData)

  /** Everything one parse records. */
  datatype Parsed = Parsed(servers: seq<Server>, props: seq<PropRecord>, methods: seq<MethodRec>)

  /** The item of a path object that lists shared parameters; it is not a method. */
  const ParametersItem := "parameters"

  // ----------------------------------------------------------------- servers

  /**
    What `zip(serverList, range(len(serverList)))` iterates: a list's elements,
    a dict's keys, a string's characters; `len` of anything else raises TypeError.
  */
  function ServerElems(v: Json): (r: Result<seq<Json>>)
    ensures r.Ok? <==> v.JArr? || v.JObj? || v.JStr?
    ensures r.Err? ==> r.error == TypeError
    ensures r.Ok? ==> |r.value| == (match v case JArr(es) => |es| case JObj(fs) => |fs| case JStr(s) => |s| case _ => 0)
  {
    match v
    case JArr(es) => Ok(es)
    case JObj(fs) => Ok(seq(|fs|, i requires 0 <= i < |fs| => JStr(fs[i].0)))
    case JStr(s) => Ok(seq(|s|, i requires 0 <= i < |s| => JStr([s[i]])))
    case _ => Err(TypeError)
  }

  /** `f"NO_NAME_FOUND_{idx + 1}"` */
  function DefaultName(idx: nat): string {
    "NO_NAME_FOUND_" + NatToString(idx + 1)
  }

  /** `f"Your description for '{name}' here"` */
  function ServerDesc(name: string): string {
    "Your description for '" + name + "' here"
  }

  /**
    One turn of the servers loop: the name is the server's `description` when
    truthy, else a numbered placeholder; the url is stored without one trailing
    slash. A name or url that is not a string is not modelled.
  */
  function ServerOf(server: Json, idx: nat): Result<Server> {
    var descV :- Subscript(server, "description");
    var urlV :- Subscript(server, "url");
    var nameV := if Truthy(descV) then descV else JStr(DefaultName(idx));
    if !nameV.JStr? || !urlV.JStr? then Err(NotModelled)
    else MakeServer(nameV.s, urlV.s, ServerDesc(nameV.s))
  }

  function ServersFrom(elems: seq<Json>, i: nat): (r: Result<seq<Server>>)
    requires i <= |elems|
    ensures r.Ok? ==> |r.value| == |elems| - i
    decreases |elems| - i
  {
    if i == |elems| then Ok([])
    else
      var s :- ServerOf(elems[i], i);
      var rest :- ServersFrom(elems, i + 1);
      Ok([s] + rest)
  }

  function ServersOf(doc: Json): Result<seq<Server>> {
    var list :- Subscript(doc, "servers");
    var elems :- ServerElems(list);
    ServersFrom(elems, 0)
  }

  // ----------------------------------------------------------------- schemas

  /** `Parser.SchemaProperty(propName, propData.get('description', ""))`; the constructor asserts a string. */
  function PropOfData(propName: string, propData: Json): (r: Result<SchemaProperty>)
    ensures r.Ok? ==> r.value.name == propName
  {
    var d :- GetOr(propData, "description", JStr(""));
    if d.JStr? then Ok(SchemaProperty(propName, d.s)) else Err(AssertionError)
  }

  /** `schemaData.get('description', "")`, which `_recordSchemaProperty` asserts is a string. */
  function SchemaDescOf(schemaData: Json): Result<string> {
    var d :- GetOr(schemaData, "description", JStr(""));
    if d.JStr? then Ok(d.s) else Err(AssertionError)
  }

  /**
    One turn of the inner loop: the property is built first, then the schema's
    description is read; both must be strings.
  */
  function PropRecordOf(schemaName: string, schemaData: Json, propName: string, propData: Json): (r: Result<PropRecord>)
    ensures r.Ok? ==> r.value.schemaName == schemaName && r.value.prop.name == propName
  {
    var prop :- PropOfData(propName, propData);
    var desc :- SchemaDescOf(schemaData);
    Ok(PropRecord(schemaName, desc, prop))
  }

  /** The inner loop over one schema's properties, from property `i` on. */
  function PropRecordsFrom(schemaName: string, schemaData: Json, props: seq<(string, Json)>, i: nat): Result<seq<PropRecord>>
    requires i <= |props|
    decreases |props| - i
  {
    if i == |props| then Ok([])
    else
      var rec :- PropRecordOf(schemaName, schemaData, props[i].0, props[i].1);
      var rest :- PropRecordsFrom(schemaName, schemaData, props, i + 1);
      Ok([rec] + rest)
  }

  /** The inner loop records one property per entry, in order, each under the schema's name. */
  lemma {:induction false} PropRecordsNamed(schemaName: string, schemaData: Json, props: seq<(string, Json)>, i: nat)
    requires i <= |props|
    ensures var r := PropRecordsFrom(schemaName, schemaData, props, i);
      r.Ok? ==>
        && |r.value| == |props| - i
        && forall j :: 0 <= j < |r.value| ==> r.value[j].schemaName == schemaName && r.value[j].prop.name == props[i + j].0
    decreases |props| - i
  {
    if i < |props| {
      PropRecordsNamed(schemaName, schemaData, props, i + 1);
    }
  }

  function SchemaRecords(schemaName: string, schemaData: Json): Result<seq<PropRecord>> {
    var propsV :- Subscript(schemaData, "properties");
    var props :- Items(propsV);
    PropRecordsFrom(schemaName, schemaData, props, 0)
  }

  /** The outer loop over `jsonDict['components']['schemas'].items()`, from schema `i` on. */
  function SchemasFrom(schemas: seq<(string, Json)>, i: nat): Result<seq<PropRecord>>
    requires i <= |schemas|
    decreases |schemas| - i
  {
    if i == |schemas| then Ok([])
    else
      var first :- SchemaRecords(schemas[i].0, schemas[i].1);
      var rest :- SchemasFrom(schemas, i + 1);
      Ok(first + rest)
  }

  function SchemasOf(doc: Json): Result<seq<PropRecord>> {
    var items :- SchemaItems(doc);
    SchemasFrom(items, 0)
  }

  /** `jsonDict['components']['schemas'].items()` */
  function SchemaItems(doc: Json): Result<seq<(string, Json)>> {
    var components :- Subscript(doc, "components");
    var schemas :- Subscript(components, "schemas");
    Items(schemas)
  }

  // ------------------------------------------------------------------- paths

  /** `_genEndpointDesc(methodData)`: the summary, a blank line, the description. */
  function GenEndpointDesc(methodData: Json): (r: Result<string>)
    ensures r.Ok? ==> exists s, d :: r.value == s + "\n\n" + d
  {
    var summary :- Subscript(methodData, "summary");
    var wrappedDesc :- Subscript(methodData, "description");
    var s :- PyStr(summary);
    var d :- PyStr(wrappedDesc);
    Ok(s + "\n\n" + d)
  }

  /** The loop over `methodData['responses'].items()`: each response body is scanned with an empty key path. */
  function ResponsesFrom(doc: Json, responses: seq<(string, Json)>, i: nat, fuel: nat): Result<seq<Entry>>
    requires i <= |responses|
    decreases |responses| - i
  {
    if i == |responses| then Ok([])
    else
      var first :- LayerEntries(doc, responses[i].0, [], responses[i].1, fuel);
      var rest :- ResponsesFrom(doc, responses, i + 1, fuel);
      Ok(first + rest)
  }

  /** Past the last response nothing more is recorded. */
  lemma ResponsesEnd(doc: Json, responses: seq<(string, Json)>, fuel: nat)
    ensures ResponsesFrom(doc, responses, |responses|, fuel) == Ok([])
  {
  }

  /** What scanning all of `methodData['responses']` records. */
  function ResponsesOf(doc: Json, methodData: Json, fuel: nat): Result<seq<Entry>> {
    var responsesV :- Subscript(methodData, "responses");
    var responses :- Items(responsesV);
    ResponsesFrom(doc, responses, 0, fuel)
  }

  /**
    One method of one path: its description, `_recordMethod` (AttributeError
    for the empty url), then the scan of its responses into its response map.
  */
  function MethodOf(doc: Json, url: string, verb: string, methodData: Json, fuel: nat): (r: Result<MethodRec>)
    ensures r.Ok? ==> r.value.url == url && r.value.data.name == verb && url != ""
    ensures r.Ok? ==> ResponseMapValid(r.value.data.responseSchema)
  {
    var desc :- GenEndpointDesc(methodData);
    MethodWith(doc, url, verb, desc, methodData, fuel)
  }

  /** The rest of `MethodOf` once the description is known: the record, then the scan. */
  function MethodWith(doc: Json, url: string, verb: string, desc: string, methodData: Json, fuel: nat): (r: Result<MethodRec>)
    ensures r.Ok? ==> r.value.url == url && r.value.data.name == verb && r.value.data.desc == desc && url != ""
    ensures r.Ok? ==> ResponseMapValid(r.value.data.responseSchema)
    ensures r.Err? <==> url == "" || ResponsesOf(doc, methodData, fuel).Err?
  {
    if url == "" then Err(AttributeError)
    else
      var entries :- ResponsesOf(doc, methodData, fuel);
      Ok(MethodRec(url, MethodData(verb, desc, AddEntries(Dicts.Empty(), entries))))
  }

  /** The loop over one path's `path.items()`, from item `i` on; `parameters` is not a method and is skipped. */
  function VerbsFrom(doc: Json, url: string, verbs: seq<(string, Json)>, i: nat, fuel: nat): Result<seq<MethodRec>>
    requires i <= |verbs|
    decreases |verbs| - i
  {
    if i == |verbs| then Ok([])
    else if verbs[i].0 == ParametersItem then VerbsFrom(doc, url, verbs, i + 1, fuel)
    else
      var first :- MethodOf(doc, url, verbs[i].0, verbs[i].1, fuel);
      var rest :- VerbsFrom(doc, url, verbs, i + 1, fuel);
      Ok([first] + rest)
  }

  function PathRecords(doc: Json, url: string, path: Json, fuel: nat): Result<seq<MethodRec>> {
    var verbs :- Items(path);
    VerbsFrom(doc, url, verbs, 0, fuel)
  }

  /** The loop over `jsonDict['paths'].items()`, from path `i` on. */
  function PathsFrom(doc: Json, paths: seq<(string, Json)>, i: nat, fuel: nat): Result<seq<MethodRec>>
    requires i <= |paths|
    decreases |paths| - i
  {
    if i == |paths| then Ok([])
    else
      var first :- PathRecords(doc, paths[i].0, paths[i].1, fuel);
      var rest :- PathsFrom(doc, paths, i + 1, fuel);
      Ok(first + rest)
  }

  function PathsOf(doc: Json, fuel: nat): Result<seq<MethodRec>> {
    var pathsV :- Subscript(doc, "paths");
    var paths :- Items(pathsV);
    PathsFrom(doc, paths, 0, fuel)
  }

  // ------------------------------------------------------------------- parse

  /** The version check the parser starts with: a dict whose `openapi` is `"3.1.0"`. */
  function CheckVersion(doc: Json): (r: Outcome)
    ensures r.Pass? <==> doc.JObj? && Lookup(doc.fields, "openapi") == Some(JStr("3.1.0"))
  {
    if !doc.JObj? then Fail(AssertionError)
    else
      match Subscript(doc, "openapi")
      case Err(e) => Fail(e)
      case Ok(version) => if version != JStr("3.1.0") then Fail(AssertionError) else Pass
  }

  /** `Parser_3_1_0.parse(jsonDict)`: version check, servers, schemas, paths. */
  function ParseDoc(doc: Json, fuel: nat): Result<Parsed> {
    var checked := CheckVersion(doc);
    if checked.Fail? then Err(checked.error)
    else
      var servers :- ServersOf(doc);
      var props :- SchemasOf(doc);
      var methods :- PathsOf(doc, fuel);
      Ok(Parsed(servers, props, methods))
  }

  /** The endpoint tree after recording methods one after the other. */
  function RecordAll(t: ET.Tree<MethodData>, recs: seq<MethodRec>): (r: Result<ET.Tree<MethodData>>)
    requires ET.Valid(t)
    ensures r.Ok? ==> ET.Valid(r.value)
    decreases |recs|
  {
    if recs == [] then Ok(t)
    else
      var t1 :- ET.RecordMethod(t, recs[0].url, recs[0].data.name, recs[0].data);
      RecordAll(t1, recs[1..])
  }

  /** Recording a list of methods fails exactly when one of their urls is empty. */
  lemma {:induction false} RecordAllOk(t: ET.Tree<MethodData>, recs: seq<MethodRec>)
    requires ET.Valid(t)
    ensures RecordAll(t, recs).Ok? <==> forall j :: 0 <= j < |recs| ==> recs[j].url != ""
    decreases |recs|
  {
    if recs != [] && recs[0].url != "" {
      var r1 := ET.RecordMethod(t, recs[0].url, recs[0].data.name, recs[0].data);
      var t1 := r1.value;
      assert RecordAll(t, recs) == RecordAll(t1, recs[1..]);
      RecordAllOk(t1, recs[1..]);
      RestUrls(recs);
    }
  }

  /** The urls of a list are non-empty exactly when its head's and its tail's are. */
  lemma RestUrls(recs: seq<MethodRec>)
    requires recs != []
    ensures (forall j :: 0 <= j < |recs| ==> recs[j].url != "") <==>
      recs[0].url != "" && forall j :: 0 <= j < |recs[1..]| ==> recs[1..][j].url != ""
  {
    if recs[0].url != "" && forall j :: 0 <= j < |recs[1..]| ==> recs[1..][j].url != "" {
      forall j | 0 < j < |recs|
        ensures recs[j].url != ""
      {
        assert recs[j] == recs[1..][j - 1];
      }
    }
  }

  // ----------------------------------------------------- one turn of a loop
  // Each lemma below unfolds one turn of a loop's specification: the turn's
  // error, or the turn's records in front of the rest.

  lemma ServersStep(elems: seq<Json>, i: nat)
    requires i < |elems|
    ensures var s := ServerOf(elems[i], i);
      ServersFrom(elems, i) == if s.Err? then Err(s.error) else Prepend([s.value], ServersFrom(elems, i + 1))
  {
  }

  lemma PropRecordsStep(schemaName: string, schemaData: Json, props: seq<(string, Json)>, i: nat)
    requires i < |props|
    ensures var rec := PropRecordOf(schemaName, schemaData, props[i].0, props[i].1);
      PropRecordsFrom(schemaName, schemaData, props, i) ==
        if rec.Err? then Err(rec.error) else Prepend([rec.value], PropRecordsFrom(schemaName, schemaData, props, i + 1))
  {
  }

  lemma SchemasStep(schemas: seq<(string, Json)>, i: nat)
    requires i < |schemas|
    ensures var first := SchemaRecords(schemas[i].0, schemas[i].1);
      SchemasFrom(schemas, i) == if first.Err? then Err(first.error) else Prepend(first.value, SchemasFrom(schemas, i + 1))
  {
  }

  lemma ResponsesStep(doc: Json, responses: seq<(string, Json)>, i: nat, fuel: nat)
    requires i < |responses|
    ensures var first := LayerEntries(doc, responses[i].0, [], responses[i].1, fuel);
      ResponsesFrom(doc, responses, i, fuel) ==
        if first.Err? then Err(first.error) else Prepend(first.value, ResponsesFrom(doc, responses, i + 1, fuel))
  {
  }

  lemma VerbsStep(doc: Json, url: string, verbs: seq<(string, Json)>, i: nat, fuel: nat)
    requires i < |verbs|
    ensures var first := MethodOf(doc, url, verbs[i].0, verbs[i].1, fuel);
      VerbsFrom(doc, url, verbs, i, fuel) ==
        if verbs[i].0 == ParametersItem then VerbsFrom(doc, url, verbs, i + 1, fuel)
        else if first.Err? then Err(first.error)
        else Prepend([first.value], VerbsFrom(doc, url, verbs, i + 1, fuel))
  {
  }

  lemma PathsStep(doc: Json, paths: seq<(string, Json)>, i: nat, fuel: nat)
    requires i < |paths|
    ensures var first := PathRecords(doc, paths[i].0, paths[i].1, fuel);
      PathsFrom(doc, paths, i, fuel) == if first.Err? then Err(first.error) else Prepend(first.value, PathsFrom(doc, paths, i + 1, fuel))
  {
  }

  /** A loop that has gone through every item has accumulated the whole list. */
  /** One turn of a loop that gathers records: the turn's error ends the whole result, or its records join the done ones. */
  lemma Turn<T>(spec: Result<seq<T>>, done: seq<T>, first: Result<seq<T>>, rest: Result<seq<T>>, here: Result<seq<T>>)
    requires here == if first.Err? then Err(first.error) else Prepend(first.value, rest)
    requires spec == Prepend(done, here)
    ensures first.Err? ==> spec == Err(first.error)
    ensures first.Ok? ==> spec == Prepend(done + first.value, rest)
  {
    if first.Ok? {
      PrependTwice(done, first.value, rest);
    }
  }

  lemma Finished<T>(spec: Result<seq<T>>, done: seq<T>)
    requires spec == Prepend(done, Ok([]))
    ensures spec == Ok(done)
  {
    assert done + [] == done;
  }

  // -------------------------------------------------------------- properties

  lemma {:induction false} RecordAllAppend(t: ET.Tree<MethodData>, a: seq<MethodRec>, b: seq<MethodRec>)
    requires ET.Valid(t)
    ensures RecordAll(t, a + b) == match RecordAll(t, a) case Err(e) => Err(e) case Ok(t1) => RecordAll(t1, b)
    decreases |a|
  {
    if a == [] {
      assert a + b == b;
    } else {
      assert (a + b)[0] == a[0] && (a + b)[1..] == a[1..] + b;
      var t1 := ET.RecordMethod(t, a[0].url, a[0].data.name, a[0].data);
      if t1.Ok? {
        RecordAllAppend(t1.value, a[1..], b);
      }
    }
  }

  /** Recording one more method after `recs`. */
  lemma RecordAllSnoc(t: ET.Tree<MethodData>, recs: seq<MethodRec>, rec: MethodRec, t1: ET.Tree<MethodData>)
    requires ET.Valid(t) && RecordAll(t, recs) == Ok(t1)
    ensures RecordAll(t, recs + [rec]) == ET.RecordMethod(t1, rec.url, rec.data.name, rec.data)
  {
    RecordAllAppend(t, recs, [rec]);
    assert [rec][1..] == [];
  }

  /** The version check comes first: a specification for another version is refused with AssertionError. */
  lemma OtherVersionRefused(doc: Json, fuel: nat)
    requires doc.JObj? && Lookup(doc.fields, "openapi").Some? && Lookup(doc.fields, "openapi") != Some(JStr("3.1.0"))
    ensures ParseDoc(doc, fuel) == Err(AssertionError)
  {
  }

  /** A specification without an `openapi` key raises KeyError; a non-dict raises AssertionError. */
  lemma MissingVersionRefused(doc: Json, fuel: nat)
    ensures !doc.JObj? ==> ParseDoc(doc, fuel) == Err(AssertionError)
    ensures doc.JObj? && Lookup(doc.fields, "openapi").None? ==> ParseDoc(doc, fuel) == Err(KeyError)
  {
  }

  /** Methods recorded under `url`, which is not empty, none of them named `parameters`. */
  ghost predicate RecordedUnder(recs: seq<MethodRec>, url: string) {
    forall j :: 0 <= j < |recs| ==> recs[j].url == url && url != "" && recs[j].data.name != ParametersItem
  }

  lemma RecordedUnderCons(first: MethodRec, rest: seq<MethodRec>, url: string)
    requires first.url == url && url != "" && first.data.name != ParametersItem && RecordedUnder(rest, url)
    ensures RecordedUnder([first] + rest, url)
  {
    var all := [first] + rest;
    forall j | 0 < j < |all|
      ensures all[j] == rest[j - 1]
    {
    }
  }

  /** The methods of one path are recorded under its url, which is not empty, and none is `parameters`. */
  lemma {:induction false} VerbsNamed(doc: Json, url: string, verbs: seq<(string, Json)>, i: nat, fuel: nat)
    requires i <= |verbs|
    ensures var r := VerbsFrom(doc, url, verbs, i, fuel); r.Ok? ==> RecordedUnder(r.value, url)
    decreases |verbs| - i
  {
    if i < |verbs| {
      VerbsNamed(doc, url, verbs, i + 1, fuel);
      var first := MethodOf(doc, url, verbs[i].0, verbs[i].1, fuel);
      var rest := VerbsFrom(doc, url, verbs, i + 1, fuel);
      VerbsStep(doc, url, verbs, i, fuel);
      if verbs[i].0 != ParametersItem && first.Ok? && rest.Ok? {
        RecordedUnderCons(first.value, rest.value, url);
      }
    }
  }

  /** Methods recorded under a non-empty url each, none of them named `parameters`. */
  ghost predicate AllNamed(recs: seq<MethodRec>) {
    forall j :: 0 <= j < |recs| ==> recs[j].url != "" && recs[j].data.name != ParametersItem
  }

  lemma AllNamedAppend(a: seq<MethodRec>, url: string, b: seq<MethodRec>)
    requires RecordedUnder(a, url) && AllNamed(b)
    ensures AllNamed(a + b)
  {
    var all := a + b;
    forall j | |a| <= j < |all|
      ensures all[j] == b[j - |a|]
    {
    }
  }

  /** Every method recorded by the paths loop has a non-empty url and is not `parameters`. */
  lemma {:induction false} PathsNamed(doc: Json, paths: seq<(string, Json)>, i: nat, fuel: nat)
    requires i <= |paths|
    ensures var r := PathsFrom(doc, paths, i, fuel); r.Ok? ==> AllNamed(r.value)
    decreases |paths| - i
  {
    if i < |paths| {
      PathsNamed(doc, paths, i + 1, fuel);
      PathRecordsNamed(doc, paths[i].0, paths[i].1, fuel);
      PathsStep(doc, paths, i, fuel);
      StepNamed(PathRecords(doc, paths[i].0, paths[i].1, fuel), paths[i].0, PathsFrom(doc, paths, i + 1, fuel));
    }
  }

  /** One turn of the paths loop keeps every recorded method named. */
  lemma StepNamed(first: Result<seq<MethodRec>>, url: string, rest: Result<seq<MethodRec>>)
    requires first.Ok? ==> RecordedUnder(first.value, url)
    requires rest.Ok? ==> AllNamed(rest.value)
    ensures var r := if first.Err? then Err(first.error) else Prepend(first.value, rest); r.Ok? ==> AllNamed(r.value)
  {
    if first.Ok? {
      PrependNamed(first.value, url, rest);
    }
  }

  lemma PrependNamed(first: seq<MethodRec>, url: string, rest: Result<seq<MethodRec>>)
    requires RecordedUnder(first, url) && (rest.Ok? ==> AllNamed(rest.value))
    ensures Prepend(first, rest).Ok? ==> AllNamed(Prepend(first, rest).value)
  {
    if rest.Ok? {
      AllNamedAppend(first, url, rest.value);
    }
  }

  /** The methods of one path are recorded under its url. */
  lemma PathRecordsNamed(doc: Json, url: string, path: Json, fuel: nat)
    ensures var r := PathRecords(doc, url, path, fuel); r.Ok? ==> RecordedUnder(r.value, url)
  {
    if Items(path).Ok? {
      VerbsNamed(doc, url, Items(path).value, 0, fuel);
    }
  }

  /** A successful parse names no method `parameters`, and recording its methods cannot fail. */
  lemma ParsedRecordable(doc: Json, fuel: nat, t: ET.Tree<MethodData>)
    requires ET.Valid(t) && ParseDoc(doc, fuel).Ok?
    ensures RecordAll(t, ParseDoc(doc, fuel).value.methods).Ok?
    ensures forall j :: 0 <= j < |ParseDoc(doc, fuel).value.methods| ==> ParseDoc(doc, fuel).value.methods[j].data.name != ParametersItem
  {
    var items := Items(Subscript(doc, "paths").value).value;
    var methods := ParseDoc(doc, fuel).value.methods;
    assert PathsFrom(doc, items, 0, fuel) == Ok(methods);
    PathsNamed(doc, items, 0, fuel);
    RecordAllOk(t, methods);
  }

  /**
    A server whose description is falsy (`null`, `""`, `false`, `0`, an empty
    list or dict) is named after its position, counting from one.
  */
  lemma UnnamedServer(d: Json, idx: nat, url: string)
    requires !Truthy(d) && url != ""
    ensures var server := JObj([("description", d), ("url", JStr(url))]);
      && ServerOf(server, idx).Ok?
      && ServerOf(server, idx).value.name == DefaultName(idx)
      && ServerOf(server, idx).value.desc == "Your description for '" + "NO_NAME_FOUND_" + NatToString(idx + 1) + "' here"
  {
    var server := JObj([("description", d), ("url", JStr(url))]);
    assert server.fields[0].0 != "url" by {
      assert server.fields[0].0[0] != "url"[0];
    }
    assert Lookup(server.fields, "url") == Some(JStr(url));
    UnnamedServerOf(server, idx, url);
    Regroup3("Your description for '", "NO_NAME_FOUND_", NatToString(idx + 1), "' here");
  }

  /** `UnnamedServer` for any dict whose `description` is falsy. */
  lemma UnnamedServerOf(server: Json, idx: nat, url: string)
    requires server.JObj? && url != ""
    requires Lookup(server.fields, "description").Some? && !Truthy(Lookup(server.fields, "description").value)
    requires Lookup(server.fields, "url") == Some(JStr(url))
    ensures ServerOf(server, idx).Ok?
    ensures ServerOf(server, idx).value.name == DefaultName(idx)
    ensures ServerOf(server, idx).value.desc == ServerDesc(DefaultName(idx))
  {
  }

  /** A server whose description is a non-empty string is named by it. */
  lemma NamedServerOf(server: Json, idx: nat, name: string, url: string)
    requires server.JObj? && name != "" && url != ""
    requires Lookup(server.fields, "description") == Some(JStr(name)) && Lookup(server.fields, "url") == Some(JStr(url))
    ensures ServerOf(server, idx).Ok?
    ensures ServerOf(server, idx).value.name == name
    ensures ServerOf(server, idx).value.desc == ServerDesc(name)
  {
  }

  lemma Regroup3(a: string, b: string, c: string, d: string)
    ensures a + (b + c) + d == a + b + c + d
  {
  }

  /** A schema whose `properties` is empty records nothing, so it never reaches the registry. */
  lemma SchemaWithoutPropertiesUnrecorded(schemaName: string, schemaData: Json)
    requires schemaData.JObj? && Lookup(schemaData.fields, "properties") == Some(JObj([]))
    ensures SchemaRecords(schemaName, schemaData) == Ok([])
  {
  }

  /** A method's description is its summary and description strings with a blank line between. */
  lemma EndpointDescOfStrings(summary: string, desc: string)
    ensures GenEndpointDesc(JObj([("summary", JStr(summary)), ("description", JStr(desc))])) == Ok(summary + "\n\n" + desc)
  {
    var fields := [("summary", JStr(summary)), ("description", JStr(desc))];
    assert fields[0].0 != "description" by {
      assert fields[0].0[0] != "description"[0];
    }
    assert Lookup(fields, "description") == Lookup(fields[1..], "description");
  }
}
