/**
  The response scanner of `Parser_3_1_0` (pyblitz/generator/parser.py,
  `_scanOpenApiObjectLayer` and `_scanResponseData`): it walks a response
  object of the specification and records, against the method, every
  `$ref` into `#/components/schemas/...` together with its status code and the
  raw key path that led to it. A `$ref` of another kind is resolved through the
  fragment form of a JSON Pointer (section 6 of RFC 6901, without `~0`/`~1`
  unescaping or percent-decoding) and the walk continues in the target.

  Each scanning routine is given twice: as a function that returns the entries
  the scan records (or the exception it raises), and as the method that
  records them into a `Method` object, proved to do exactly that. The walk
  has no bound in the source; `fuel` stands in for Python's recursion limit.
*/
module Scanner {
  import opened Wrappers
  import opened Strs
  import opened Json
  import opened Records

  // --------------------------------------------------------- JSON Pointer

  /** `for pathKey in keys: nextObject = nextObject[pathKey]` */
  function WalkPointer(doc: Json, keys: seq<string>): Result<Json>
    decreases |keys|
  {
    if keys == [] then Ok(doc)
    else
      var next :- Subscript(doc, keys[0]);
      WalkPointer(next, keys[1..])
  }

  /** Walking `a + b` is walking `a`, then `b` from where `a` ended. */
  lemma {:induction false} WalkPointerAppend(doc: Json, a: seq<string>, b: seq<string>)
    ensures WalkPointer(doc, a + b) == match WalkPointer(doc, a) case Err(e) => Err(e) case Ok(x) => WalkPointer(x, b)
    decreases |a|
  {
    if a == [] {
      assert a + b == b;
    } else {
      assert (a + b)[0] == a[0] && (a + b)[1..] == a[1..] + b;
      if Subscript(doc, a[0]).Ok? {
        WalkPointerAppend(Subscript(doc, a[0]).value, a[1..], b);
      }
    }
  }

  /** A pointer through a dict that lacks the next key raises KeyError, whatever follows. */
  lemma MissingKeyFails(doc: Json, a: seq<string>, k: string, b: seq<string>)
    requires WalkPointer(doc, a).Ok? && WalkPointer(doc, a).value.JObj?
    requires Lookup(WalkPointer(doc, a).value.fields, k).None?
    ensures WalkPointer(doc, a + [k] + b) == Err(KeyError)
  {
    WalkPointerAppend(doc, a, [k] + b);
    assert a + [k] + b == a + ([k] + b);
  }

  /** The pointer walk of `_scanOpenApiObjectLayer`, one key at a time. */
  method FollowPointer(doc: Json, keys: seq<string>) returns (r: Result<Json>)
    ensures r == WalkPointer(doc, keys)
  {
    var next := doc;
    var i := 0;
    while i < |keys|
      invariant 0 <= i <= |keys|
      invariant WalkPointer(doc, keys) == WalkPointer(next, keys[i..])
    {
      assert keys[i..][1..] == keys[i + 1..];
      var step := Subscript(next, keys[i]);
      if step.Err? {
        return Err(step.error);
      }
      next := step.value;
      i := i + 1;
    }
    return Ok(next);
  }

  // ------------------------------------------------------- $ref resolution

  /**
    What `_scanOpenApiObjectLayer` continues with once a `$ref` pointer has
    been walked to `target`: the target's `properties` for a schema, the
    `content` / `application/json` / `schema` / `properties` chain for a
    response (with `{}` for each missing level), or nothing when that chain
    has no properties. `refPathList[2]` raises IndexError, an unknown kind
    AssertionError.
  */
  function ResolveTarget(target: Json, pieces: seq<string>): Result<Option<Json>> {
    if |pieces| < 3 then Err(IndexError)
    else if pieces[2] == "schemas" then
      var props :- Subscript(target, "properties");
      Ok(Some(props))
    else if pieces[2] == "responses" then
      var content :- GetOr(target, "content", JObj([]));
      var appJson :- GetOr(content, "application/json", JObj([]));
      var schema :- GetOr(appJson, "schema", JObj([]));
      var props :- Get(schema, "properties");
      if props.None? || props == Some(JNull) then Ok(None) else Ok(props)
    else Err(AssertionError)
  }

  /** The `$ref` branch of `_scanOpenApiObjectLayer`: a non-string has no `split` (AttributeError). */
  function ResolveRef(doc: Json, ref: Json): Result<Option<Json>> {
    if !ref.JStr? then Err(AttributeError)
    else
      var pieces := Split(ref.s, '/');
      var target :- WalkPointer(doc, pieces[1..]);
      ResolveTarget(target, pieces)
  }

  // ------------------------------------------------------ what a scan records

  predicate EndsInRef(path: seq<JsonKey>) {
    |path| > 0 && path[|path| - 1] == KStr("$ref")
  }

  /** `_scanOpenApiObjectLayer(jsonKeyPath, currObject, ...)`: the entries it records, or its exception. */
  function LayerEntries(doc: Json, code: string, path: seq<JsonKey>, cur: Json, fuel: nat): Result<seq<Entry>>
    decreases fuel, 2, 0
  {
    var next :- if EndsInRef(path) then ResolveRef(doc, cur) else Ok(Some(cur));
    match next
    case None => Ok([])
    case Some(obj) => ItemsEntries(doc, code, path, Children(obj), 0, fuel)
  }

  /** The loop of `_scanOpenApiObjectLayer` from item `i` on. */
  function ItemsEntries(doc: Json, code: string, path: seq<JsonKey>, items: seq<(JsonKey, Json)>, i: nat, fuel: nat): Result<seq<Entry>>
    requires i <= |items|
    decreases fuel, 1, |items| - i
  {
    if i == |items| then Ok([])
    else
      var first :- DataEntries(doc, code, path + [items[i].0], items[i].1, fuel);
      var rest :- ItemsEntries(doc, code, path, items, i + 1, fuel);
      Ok(first + rest)
  }

  /**
    `_scanResponseData(jsonKeyPath, jsonValue, ...)`: a `$ref` into `schemas`
    is recorded (status code through `int()`, raising ValueError, and the
    last pointer segment) and not descended into; anything else is scanned as
    a layer. Running out of fuel stands for RecursionError.
  */
  function DataEntries(doc: Json, code: string, path: seq<JsonKey>, v: Json, fuel: nat): Result<seq<Entry>>
    decreases fuel, 0, 0
  {
    if fuel == 0 then Err(RecursionError)
    else if EndsInRef(path) then
      if !v.JStr? then Err(AttributeError)
      else
        var pieces := Split(v.s, '/');
        if |pieces| < 3 then Err(IndexError)
        else if pieces[2] == "schemas" then
          var c :- ParseInt(code);
          Ok([Entry(c, path, pieces[|pieces| - 1])])
        else LayerEntries(doc, code, path, v, fuel - 1)
    else LayerEntries(doc, code, path, v, fuel - 1)
  }

  // --------------------------------------------------------- the scanner

  /** Scanning fails as its specification fails; when it passes, the method gained exactly the entries specified. */
  ghost predicate ScannedAs(m: Method, before: ResponseMap, outcome: Outcome, spec: Result<seq<Entry>>)
    reads m
    requires ResponseMapValid(before)
  {
    && Agrees(outcome, spec)
    && (outcome.Pass? ==> m.responseSchema == AddEntries(before, spec.value))
  }

  /** The `$ref` branch of `_scanOpenApiObjectLayer`: the object the layer goes on to iterate, if any. */
  method ResolveLayer(doc: Json, path: seq<JsonKey>, cur: Json) returns (r: Result<Option<Json>>)
    ensures r == if EndsInRef(path) then ResolveRef(doc, cur) else Ok(Some(cur))
  {
    if !EndsInRef(path) {
      return Ok(Some(cur));
    }
    if !cur.JStr? {
      return Err(AttributeError);
    }
    var pieces := Split(cur.s, '/');
    var target := FollowPointer(doc, pieces[1..]);
    if target.Err? {
      return Err(target.error);
    }
    r := ResolveTarget(target.value, pieces);
  }

  /** `parser._scanOpenApiObjectLayer(jsonKeyPath, currObject, jsonDict, callback)` with `_scanResponseData` as the callback. */
  method ScanOpenApiObjectLayer(doc: Json, code: string, path: seq<JsonKey>, cur: Json, m: Method, fuel: nat)
      returns (r: Outcome)
    requires m.Valid()
    modifies m
    ensures m.Valid()
    ensures ScannedAs(m, old(m.responseSchema), r, LayerEntries(doc, code, path, cur, fuel))
    decreases fuel, 2, 0
  {
    var next := ResolveLayer(doc, path, cur);
    if next.Err? {
      return Fail(next.error);
    }
    if next.value.None? {
      return Pass;
    }
    r := ScanItems(doc, code, path, Children(next.value.value), m, fuel);
  }

  /** One turn of the loop below, read off ItemsEntries. */
  lemma ItemsStep(doc: Json, code: string, path: seq<JsonKey>, items: seq<(JsonKey, Json)>, i: nat, fuel: nat)
    requires i < |items|
    ensures var d := DataEntries(doc, code, path + [items[i].0], items[i].1, fuel);
      ItemsEntries(doc, code, path, items, i, fuel) ==
        if d.Err? then Err(d.error) else Prepend(d.value, ItemsEntries(doc, code, path, items, i + 1, fuel))
  {
  }

  /** The loop of `_scanOpenApiObjectLayer`: each item is handed to `_scanResponseData` under its extended key path. */
  method ScanItems(doc: Json, code: string, path: seq<JsonKey>, items: seq<(JsonKey, Json)>, m: Method, fuel: nat)
      returns (r: Outcome)
    requires m.Valid()
    modifies m
    ensures m.Valid()
    ensures ScannedAs(m, old(m.responseSchema), r, ItemsEntries(doc, code, path, items, 0, fuel))
    decreases fuel, 1, 0
  {
    ghost var spec := ItemsEntries(doc, code, path, items, 0, fuel);
    ghost var done: seq<Entry> := [];
    assert spec.Ok? ==> done + spec.value == spec.value;
    var i := 0;
    while i < |items|
      invariant 0 <= i <= |items|
      invariant m.Valid()
      invariant spec == Prepend(done, ItemsEntries(doc, code, path, items, i, fuel))
      invariant m.responseSchema == AddEntries(old(m.responseSchema), done)
    {
      ItemsStep(doc, code, path, items, i, fuel);
      var o := ScanResponseData(doc, code, path + [items[i].0], items[i].1, m, fuel);
      if o.Fail? {
        return o;
      }
      ghost var more := DataEntries(doc, code, path + [items[i].0], items[i].1, fuel).value;
      AddEntriesAppend(old(m.responseSchema), done, more);
      PrependTwice(done, more, ItemsEntries(doc, code, path, items, i + 1, fuel));
      done := done + more;
      i := i + 1;
    }
    assert done + [] == done;
    return Pass;
  }

  /** `parser._scanResponseData(jsonKeyPath, jsonValue, jsonDict, method, responseCode)` */
  method ScanResponseData(doc: Json, code: string, path: seq<JsonKey>, v: Json, m: Method, fuel: nat)
      returns (r: Outcome)
    requires m.Valid()
    modifies m
    ensures m.Valid()
    ensures ScannedAs(m, old(m.responseSchema), r, DataEntries(doc, code, path, v, fuel))
    decreases fuel, 0, 0
  {
    if fuel == 0 {
      return Fail(RecursionError);
    }
    if EndsInRef(path) {
      if !v.JStr? {
        return Fail(AttributeError);
      }
      var pieces := Split(v.s, '/');
      if |pieces| < 3 {
        return Fail(IndexError);
      }
      if pieces[2] == "schemas" {
        r := RecordResponseSchema(m, code, path, pieces[|pieces| - 1]);
        return;
      }
    }
    r := ScanOpenApiObjectLayer(doc, code, path, v, m, fuel - 1);
  }

  /**
    `parser._recordResponseSchema(method, responseCodeStr, path, schemaClassRefStr)`
    as intended: `int(responseCodeStr)` (ValueError), then
    `method.addSchemaToResponseJson(...)`.
  */
  method RecordResponseSchema(m: Method, code: string, path: seq<JsonKey>, schemaRef: string) returns (r: Outcome)
    requires m.Valid()
    modifies m
    ensures m.Valid()
    ensures r.Pass? <==> ParseInt(code).Ok?
    ensures r.Fail? ==> r.error == ParseInt(code).error && m.responseSchema == old(m.responseSchema)
    ensures r.Pass? ==> m.responseSchema == AddSchemaEntry(old(m.responseSchema), ParseInt(code).value, path, schemaRef)
  {
    var c := ParseInt(code);
    if c.Err? {
      return Fail(c.error);
    }
    m.AddSchemaToResponseJson(c.value, path, schemaRef);
    return Pass;
  }

  /**
    `_recordResponseSchema` as written: it calls `method._addSchemaToResponseJson`,
    which `Parser.Method` does not define, so after `int()` succeeds the call
    raises AttributeError and nothing is ever recorded.
  */
  method RecordResponseSchemaAsWritten(m: Method, code: string, path: seq<JsonKey>, schemaRef: string) returns (r: Outcome)
    ensures r.Fail?
    ensures r.error == (if ParseInt(code).Err? then ParseInt(code).error else AttributeError)
  {
    var c := ParseInt(code);
    if c.Err? {
      return Fail(c.error);
    }
    return Fail(AttributeError);
  }

  // -------------------------------------------------------------- properties

  /**
    A `$ref` into `schemas` met in a response body is recorded as is, under the
    status code, the key path ending in `"$ref"` and the last pointer segment,
    and the pointer is not followed: even a dangling one records.
  */
  lemma SchemaRefRecorded(doc: Json, code: string, path: seq<JsonKey>, ref: string, fuel: nat)
    requires EndsInRef(path) && fuel > 0
    requires |Split(ref, '/')| >= 3 && Split(ref, '/')[2] == "schemas"
    requires ParseInt(code).Ok?
    ensures DataEntries(doc, code, path, JStr(ref), fuel) ==
      Ok([Entry(ParseInt(code).value, path, Split(ref, '/')[|Split(ref, '/')| - 1])])
  {
  }

  /** A `$ref` into `responses` whose target has no `content` is skipped; nothing is recorded. */
  lemma ResponseRefWithoutContentSkipped(doc: Json, code: string, path: seq<JsonKey>, ref: string, fuel: nat)
    requires EndsInRef(path)
    requires |Split(ref, '/')| >= 3 && Split(ref, '/')[2] == "responses"
    requires WalkPointer(doc, Split(ref, '/')[1..]).Ok?
    requires var target := WalkPointer(doc, Split(ref, '/')[1..]).value;
      target.JObj? && Lookup(target.fields, "content").None?
    ensures LayerEntries(doc, code, path, JStr(ref), fuel) == Ok([])
  {
  }

  /** A `$ref` into `responses` continues in the `properties` of its JSON schema. */
  lemma ResponseRefFollowed(doc: Json, ref: string, target: Json, props: Json)
    requires |Split(ref, '/')| >= 3 && Split(ref, '/')[2] == "responses"
    requires WalkPointer(doc, Split(ref, '/')[1..]) == Ok(target)
    requires props != JNull
    requires target == JObj([("content", JObj([("application/json", JObj([("schema", JObj([("properties", props)]))]))]))])
    ensures ResolveRef(doc, JStr(ref)) == Ok(Some(props))
  {
  }

  /** A `$ref` of any other kind raises AssertionError once its pointer resolves. */
  lemma OtherRefFails(doc: Json, ref: string)
    requires |Split(ref, '/')| >= 3 && Split(ref, '/')[2] != "schemas" && Split(ref, '/')[2] != "responses"
    requires WalkPointer(doc, Split(ref, '/')[1..]).Ok?
    ensures ResolveRef(doc, JStr(ref)) == Err(AssertionError)
  {
  }

  /** Every entry a scan records carries the status code, and a key path that extends the scanned one and ends in `"$ref"`. */
  ghost predicate EntriesUnder(es: seq<Entry>, code: string, path: seq<JsonKey>, strict: bool) {
    forall e :: e in es ==>
      && ParseInt(code) == Ok(e.code)
      && EndsInRef(e.keyPath)
      && |path| <= |e.keyPath| && e.keyPath[..|path|] == path
      && (strict ==> |path| < |e.keyPath|)
  }

  lemma {:induction false} LayerEntriesUnder(doc: Json, code: string, path: seq<JsonKey>, cur: Json, fuel: nat)
    requires LayerEntries(doc, code, path, cur, fuel).Ok?
    ensures EntriesUnder(LayerEntries(doc, code, path, cur, fuel).value, code, path, true)
    decreases fuel, 2, 0
  {
    var next := if EndsInRef(path) then ResolveRef(doc, cur) else Ok(Some(cur));
    if next.value.Some? {
      ItemsEntriesUnder(doc, code, path, Children(next.value.value), 0, fuel);
    }
  }

  lemma {:induction false} ItemsEntriesUnder(doc: Json, code: string, path: seq<JsonKey>, items: seq<(JsonKey, Json)>, i: nat, fuel: nat)
    requires i <= |items|
    requires ItemsEntries(doc, code, path, items, i, fuel).Ok?
    ensures EntriesUnder(ItemsEntries(doc, code, path, items, i, fuel).value, code, path, true)
    decreases fuel, 1, |items| - i
  {
    if i < |items| {
      var p := path + [items[i].0];
      DataEntriesUnder(doc, code, p, items[i].1, fuel);
      ItemsEntriesUnder(doc, code, path, items, i + 1, fuel);
      var first := DataEntries(doc, code, p, items[i].1, fuel).value;
      forall e | e in first
        ensures e.keyPath[..|path|] == path
      {
        assert e.keyPath[..|p|][..|path|] == p[..|path|];
      }
    }
  }

  lemma {:induction false} DataEntriesUnder(doc: Json, code: string, path: seq<JsonKey>, v: Json, fuel: nat)
    requires DataEntries(doc, code, path, v, fuel).Ok?
    ensures EntriesUnder(DataEntries(doc, code, path, v, fuel).value, code, path, false)
    decreases fuel, 0, 0
  {
    if EndsInRef(path) && |Split(v.s, '/')| >= 3 && Split(v.s, '/')[2] == "schemas" {
    } else {
      LayerEntriesUnder(doc, code, path, v, fuel - 1);
    }
  }

  /**
    After a scan, `allSchemaInResponseJson` lists each scanned (code, key path)
    with the schema of the last entry the scan found for it.
  */
  lemma ScannedEntriesListed(before: ResponseMap, es: seq<Entry>, e: Entry)
    requires ResponseMapValid(before) && e in es
    ensures LastFor(es, e.code, e.keyPath, Binding(before, e.code, e.keyPath)).Some?
    ensures var after := AddEntries(before, es);
      Entry(e.code, e.keyPath, LastFor(es, e.code, e.keyPath, Binding(before, e.code, e.keyPath)).value) in AllEntries(after)
  {
    LastForFound(es, e, Binding(before, e.code, e.keyPath));
    AddEntriesBinding(before, es, e.code, e.keyPath);
  }

  /** The last entry of `es` for (code, path) exists once one entry has them. */
  lemma {:induction false} LastForFound(es: seq<Entry>, e: Entry, d: Option<string>)
    requires e in es
    ensures LastFor(es, e.code, e.keyPath, d).Some?
    decreases |es|
  {
    var last := es[|es| - 1];
    if !(last.code == e.code && last.keyPath == e.keyPath) {
      assert e in es[..|es| - 1] by {
        var i :| 0 <= i < |es| && es[i] == e;
        assert i < |es| - 1;
        assert es[..|es| - 1][i] == e;
      }
      LastForFound(es[..|es| - 1], e, d);
    }
  }
}
