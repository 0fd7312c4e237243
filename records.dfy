/**
  The parse-result records of pyblitz/generator/parser.py: `Parser.Server`,
  `Parser.SchemaProperty`, and the two records whose dicts are updated in
  place, `Parser.Method` (its response-schema map) and `Parser.Schema` (its
  properties). Beside each class is the value it is specified by.
*/
module Records {
  import opened Wrappers
  import opened Dicts
  import opened Json

  // ---------------------------------------------------------------- Server

  datatype Server = Server(name: string, url: string, desc: string)

  /**
    `Parser.Server(name, url, desc)`: one trailing `/` is removed from the url,
    anything else is kept; `url[-1]` on an empty url raises IndexError.
  */
  function MakeServer(name: string, url: string, desc: string): (r: Result<Server>)
    ensures r.Err? <==> url == ""
    ensures r.Err? ==> r.error == IndexError
    ensures r.Ok? ==> r.value.name == name && r.value.desc == desc
    ensures r.Ok? && url[|url| - 1] == '/' ==> r.value.url + "/" == url
    ensures r.Ok? && url[|url| - 1] != '/' ==> r.value.url == url
  {
    if url == [] then Err(IndexError)
    else if url[|url| - 1] == '/' then Ok(Server(name, url[..|url| - 1], desc))
    else Ok(Server(name, url, desc))
  }

  /** Exactly one trailing slash is removed, even when the url ends in several. */
  lemma ServerStripsOneSlash(name: string, url: string, desc: string)
    ensures MakeServer(name, url + "/", desc) == Ok(Server(name, url, desc))
  {
    assert (url + "/")[..|url|] == url;
  }

  // -------------------------------------------------------- SchemaProperty

  datatype SchemaProperty = SchemaProperty(name: string, desc: string)

  // ---------------------------------------------------------------- Method

  /** A response schema found in a response body: status code, raw spec key path, schema class name. */
  datatype Entry = Entry(code: int, keyPath: seq<JsonKey>, schemaRef: string)

  /** `Method._responseSchema`: status code -> (key path -> schema class name). */
  type ResponseMap = Dict<int, Dict<seq<JsonKey>, string>>

  ghost predicate ResponseMapValid(rs: ResponseMap) {
    rs.Valid() && forall c :: c in rs.m ==> rs.m[c].Valid()
  }

  /** The schema class recorded for (code, path), if any. */
  function Binding(rs: ResponseMap, code: int, path: seq<JsonKey>): Option<string> {
    if code in rs.m && path in rs.m[code].m then Some(rs.m[code].m[path]) else None
  }

  /** `addSchemaToResponseJson(code, path, ref)` on the map's value. */
  function AddSchemaEntry(rs: ResponseMap, code: int, path: seq<JsonKey>, schemaRef: string): (r: ResponseMap)
    requires ResponseMapValid(rs)
    ensures ResponseMapValid(r)
    ensures Binding(r, code, path) == Some(schemaRef)
    ensures forall c, p :: (c != code || p != path) ==> Binding(r, c, p) == Binding(rs, c, p)
  {
    var inner := if code in rs.m then rs.m[code] else Empty();
    rs.Put(code, inner.Put(path, schemaRef))
  }

  /** Recording a sequence of entries, in order. */
  function AddEntries(rs: ResponseMap, es: seq<Entry>): (r: ResponseMap)
    requires ResponseMapValid(rs)
    ensures ResponseMapValid(r)
    decreases |es|
  {
    if es == [] then rs
    else AddEntries(AddSchemaEntry(rs, es[0].code, es[0].keyPath, es[0].schemaRef), es[1..])
  }

  /** Recording `a` then `b` is recording `a + b`. */
  lemma {:induction false} AddEntriesAppend(rs: ResponseMap, a: seq<Entry>, b: seq<Entry>)
    requires ResponseMapValid(rs)
    ensures AddEntries(AddEntries(rs, a), b) == AddEntries(rs, a + b)
    decreases |a|
  {
    if a != [] {
      var rs1 := AddSchemaEntry(rs, a[0].code, a[0].keyPath, a[0].schemaRef);
      assert (a + b)[0] == a[0];
      assert (a + b)[1..] == a[1..] + b;
      assert AddEntries(rs, a + b) == AddEntries(rs1, a[1..] + b);
      AddEntriesAppend(rs1, a[1..], b);
    } else {
      assert a + b == b;
    }
  }

  /** After recording entries, a (code, path) holds the schema of the last entry for it, or its old binding. */
  lemma {:induction false} AddEntriesBinding(rs: ResponseMap, es: seq<Entry>, code: int, path: seq<JsonKey>)
    requires ResponseMapValid(rs)
    ensures Binding(AddEntries(rs, es), code, path) == LastFor(es, code, path, Binding(rs, code, path))
    decreases |es|
  {
    if es != [] {
      var rs1 := AddSchemaEntry(rs, es[0].code, es[0].keyPath, es[0].schemaRef);
      AddEntriesBinding(rs1, es[1..], code, path);
      LastForShift(es, code, path, Binding(rs, code, path));
    }
  }

  /** The schema of the last entry of `es` for (code, path), or `dflt` when there is none. */
  function LastFor(es: seq<Entry>, code: int, path: seq<JsonKey>, dflt: Option<string>): Option<string>
    decreases |es|
  {
    if es == [] then dflt
    else if es[|es| - 1].code == code && es[|es| - 1].keyPath == path then Some(es[|es| - 1].schemaRef)
    else LastFor(es[..|es| - 1], code, path, dflt)
  }

  /** LastFor read from the front: the first entry only acts as the default of the rest. */
  lemma {:induction false} LastForShift(es: seq<Entry>, code: int, path: seq<JsonKey>, dflt: Option<string>)
    requires es != []
    ensures LastFor(es, code, path, dflt) ==
      LastFor(es[1..], code, path, if es[0].code == code && es[0].keyPath == path then Some(es[0].schemaRef) else dflt)
    decreases |es|
  {
    if |es| > 1 {
      var last := es[|es| - 1];
      if !(last.code == code && last.keyPath == path) {
        LastForShift(es[..|es| - 1], code, path, dflt);
        assert es[..|es| - 1][1..] == es[1..][..|es[1..]| - 1];
      }
    }
  }

  /** The entries of one status code, in insertion order. */
  function CodeEntries(code: int, inner: Dict<seq<JsonKey>, string>): (r: seq<Entry>)
    requires inner.Valid()
    ensures |r| == |inner.keys|
    ensures forall j :: 0 <= j < |r| ==> r[j] == Entry(code, inner.keys[j], inner.m[inner.keys[j]])
    ensures forall e :: e in r <==> e.code == code && e.keyPath in inner.m && inner.m[e.keyPath] == e.schemaRef
  {
    var r := seq(|inner.keys|, j requires 0 <= j < |inner.keys| => Entry(code, inner.keys[j], inner.m[inner.keys[j]]));
    assert forall e: Entry :: e.code == code && e.keyPath in inner.m && inner.m[e.keyPath] == e.schemaRef ==> e in r by {
      forall e: Entry | e.code == code && e.keyPath in inner.m && inner.m[e.keyPath] == e.schemaRef
        ensures e in r
      {
        var j :| 0 <= j < |inner.keys| && inner.keys[j] == e.keyPath;
        assert r[j] == e;
      }
    }
    r
  }

  /** The entries of the status codes `rs.keys[i..]`, in insertion order. */
  function EntriesFrom(rs: ResponseMap, i: nat): (r: seq<Entry>)
    requires ResponseMapValid(rs) && i <= |rs.keys|
    ensures forall e :: e in r <==> e.code in rs.keys[i..] && Binding(rs, e.code, e.keyPath) == Some(e.schemaRef)
    decreases |rs.keys| - i
  {
    if i == |rs.keys| then []
    else
      var code := rs.keys[i];
      assert rs.keys[i..] == [code] + rs.keys[i + 1..];
      CodeEntries(code, rs.m[code]) + EntriesFrom(rs, i + 1)
  }

  /** The position of `x` in `s`: its first occurrence. */
  function IndexOf<T(==)>(s: seq<T>, x: T): (k: nat)
    requires x in s
    ensures k < |s| && s[k] == x
    ensures forall m :: 0 <= m < k ==> s[m] != x
    decreases |s|
  {
    if s[0] == x then 0 else 1 + IndexOf(s[1..], x)
  }

  /** In a sequence without repeats, the element at `j` is found at `j`. */
  lemma IndexOfDistinct<T>(s: seq<T>, j: nat)
    requires forall a, b :: 0 <= a < b < |s| ==> s[a] != s[b]
    requires j < |s|
    ensures IndexOf(s, s[j]) == j
  {
  }

  /**
    `e1` is yielded before `e2` by the nested loops of `allSchemaInResponseJson`:
    its status code was added first, or the codes agree and its key path was
    added first.
  */
  ghost predicate Precedes(rs: ResponseMap, e1: Entry, e2: Entry) {
    && e1.code in rs.keys && e1.code in rs.m && e1.keyPath in rs.m[e1.code].keys
    && e2.code in rs.keys && e2.code in rs.m && e2.keyPath in rs.m[e2.code].keys
    && (|| IndexOf(rs.keys, e1.code) < IndexOf(rs.keys, e2.code)
        || (e1.code == e2.code && IndexOf(rs.m[e1.code].keys, e1.keyPath) < IndexOf(rs.m[e1.code].keys, e2.keyPath)))
  }

  /** Two entries of one status code come in the order their key paths were added. */
  lemma WithinCode(rs: ResponseMap, i: nat, j: nat, l: nat)
    requires ResponseMapValid(rs) && i < |rs.keys|
    requires j < l < |rs.m[rs.keys[i]].keys|
    ensures Precedes(rs, CodeEntries(rs.keys[i], rs.m[rs.keys[i]])[j], CodeEntries(rs.keys[i], rs.m[rs.keys[i]])[l])
  {
    var code := rs.keys[i];
    assert code in rs.m;
    var inner := rs.m[code];
    assert inner.Valid();
    IndexOfDistinct(inner.keys, j);
    IndexOfDistinct(inner.keys, l);
  }

  /** An entry of status code `i` comes before every entry of a later status code. */
  lemma AcrossCodes(rs: ResponseMap, i: nat, e1: Entry, e2: Entry)
    requires ResponseMapValid(rs) && i < |rs.keys|
    requires e1 in CodeEntries(rs.keys[i], rs.m[rs.keys[i]])
    requires e2.code in rs.keys[i + 1..] && Binding(rs, e2.code, e2.keyPath) == Some(e2.schemaRef)
    ensures Precedes(rs, e1, e2)
  {
    IndexOfDistinct(rs.keys, i);
    var m :| i + 1 <= m < |rs.keys| && rs.keys[m] == e2.code;
    IndexOfDistinct(rs.keys, m);
  }

  /** Two runs each in loop order, the first wholly before the second, make one run in loop order. */
  lemma ConcatOrdered(rs: ResponseMap, a: seq<Entry>, b: seq<Entry>)
    requires forall j, l :: 0 <= j < l < |a| ==> Precedes(rs, a[j], a[l])
    requires forall j, l :: 0 <= j < l < |b| ==> Precedes(rs, b[j], b[l])
    requires forall x, y :: x in a && y in b ==> Precedes(rs, x, y)
    ensures forall j, l :: 0 <= j < l < |a + b| ==> Precedes(rs, (a + b)[j], (a + b)[l])
  {
    forall j, l | 0 <= j < l < |a + b|
      ensures Precedes(rs, (a + b)[j], (a + b)[l])
    {
      if l < |a| {
        assert (a + b)[j] == a[j] && (a + b)[l] == a[l];
      } else if j < |a| {
        assert (a + b)[j] == a[j] && a[j] in a;
        assert (a + b)[l] == b[l - |a|] && b[l - |a|] in b;
      } else {
        assert (a + b)[j] == b[j - |a|] && (a + b)[l] == b[l - |a|];
      }
    }
  }

  /** The entries from status code `i` on come in the order of the two loops, so none is yielded twice. */
  lemma {:induction false} EntriesFromOrdered(rs: ResponseMap, i: nat)
    requires ResponseMapValid(rs) && i <= |rs.keys|
    ensures forall j, l :: 0 <= j < l < |EntriesFrom(rs, i)| ==> Precedes(rs, EntriesFrom(rs, i)[j], EntriesFrom(rs, i)[l])
    decreases |rs.keys| - i
  {
    if i < |rs.keys| {
      EntriesFromOrdered(rs, i + 1);
      var a := CodeEntries(rs.keys[i], rs.m[rs.keys[i]]);
      var b := EntriesFrom(rs, i + 1);
      assert EntriesFrom(rs, i) == a + b;
      forall j, l | 0 <= j < l < |a|
        ensures Precedes(rs, a[j], a[l])
      {
        WithinCode(rs, i, j, l);
      }
      forall x, y | x in a && y in b
        ensures Precedes(rs, x, y)
      {
        AcrossCodes(rs, i, x, y);
      }
      ConcatOrdered(rs, a, b);
    }
  }

  /**
    `allSchemaInResponseJson()`: every (code, path, schema) triple recorded, each
    exactly once, status codes in insertion order and the paths of one code in
    insertion order.
  */
  function AllEntries(rs: ResponseMap): (r: seq<Entry>)
    requires ResponseMapValid(rs)
    ensures forall e :: e in r <==> Binding(rs, e.code, e.keyPath) == Some(e.schemaRef)
    ensures forall j, l :: 0 <= j < l < |r| ==> Precedes(rs, r[j], r[l])
  {
    EntriesFromOrdered(rs, 0);
    EntriesFrom(rs, 0)
  }

  /** What `parse` learns about one verb: its record's name, description and response schemas. */
  datatype MethodData = MethodData(name: string, desc: string, responseSchema: ResponseMap)

  /** `Parser.Method`: a verb with its description and the response-schema map that scanning fills in. */
  class Method {
    const name: string
    const desc: string
    var responseSchema: ResponseMap

    ghost predicate Valid()
      reads this
    {
      ResponseMapValid(responseSchema)
    }

    ghost function Data(): MethodData
      reads this
    {
      MethodData(name, desc, responseSchema)
    }

    constructor (name: string, desc: string)
      ensures this.name == name && this.desc == desc
      ensures responseSchema == Empty() && Valid()
    {
      this.name := name;
      this.desc := desc;
      responseSchema := Empty();
    }

    /** `addSchemaToResponseJson(responseCode, jsonPathTuple, schemaClassRefStr)` */
    method AddSchemaToResponseJson(code: int, path: seq<JsonKey>, schemaRef: string)
      requires Valid()
      modifies this
      ensures Valid()
      ensures responseSchema == AddSchemaEntry(old(responseSchema), code, path, schemaRef)
    {
      if code !in responseSchema.m {
        responseSchema := responseSchema.Put(code, Empty());
      }
      var inner := responseSchema.m[code];
      responseSchema := responseSchema.Put(code, inner.Put(path, schemaRef));
    }

    /** `allSchemaInResponseJson()` */
    function AllSchemaInResponseJson(): (r: seq<Entry>)
      requires Valid()
      reads this
      ensures forall e :: e in r <==> Binding(responseSchema, e.code, e.keyPath) == Some(e.schemaRef)
      ensures forall j, l :: 0 <= j < l < |r| ==> Precedes(responseSchema, r[j], r[l])
    {
      AllEntries(responseSchema)
    }
  }

  /** An entry recorded with `addSchemaToResponseJson` is listed by `allSchemaInResponseJson`. */
  lemma RecordedEntryListed(rs: ResponseMap, code: int, path: seq<JsonKey>, schemaRef: string)
    requires ResponseMapValid(rs)
    ensures Entry(code, path, schemaRef) in AllEntries(AddSchemaEntry(rs, code, path, schemaRef))
    ensures forall e :: e in AllEntries(AddSchemaEntry(rs, code, path, schemaRef)) ==>
      e == Entry(code, path, schemaRef) || (e in AllEntries(rs) && (e.code, e.keyPath) != (code, path))
  {
  }

  // ---------------------------------------------------------------- Schema

  /** `Parser.Schema` as a value: name, first-seen description, properties by name. */
  datatype SchemaData = SchemaData(name: string, desc: string, props: Dict<string, SchemaProperty>)

  /** The parser's schema dict as values. */
  type Registry = Dict<string, SchemaData>

  ghost predicate PropsValid(props: Dict<string, SchemaProperty>) {
    props.Valid() && forall p :: p in props.m ==> props.m[p].name == p
  }

  ghost predicate RegistryValid(reg: Registry) {
    && reg.Valid()
    && forall k :: k in reg.m ==> reg.m[k].name == k && PropsValid(reg.m[k].props)
  }

  /**
    `_recordSchemaProperty(schemaName, schemaDesc, prop)` on the registry's value:
    the schema is created on first sight with `schemaDesc`, and `prop` is stored
    under its name.
  */
  function RecordProp(reg: Registry, schemaName: string, schemaDesc: string, prop: SchemaProperty): (r: Registry)
    requires RegistryValid(reg)
    ensures RegistryValid(r)
    ensures schemaName in r.m
    ensures r.m[schemaName].desc == (if schemaName in reg.m then reg.m[schemaName].desc else schemaDesc)
    ensures r.m[schemaName].props.m == (if schemaName in reg.m then reg.m[schemaName].props.m else map[])[prop.name := prop]
    ensures forall k :: k != schemaName && k in reg.m ==> k in r.m && r.m[k] == reg.m[k]
    ensures forall k :: k in r.m ==> k == schemaName || k in reg.m
    ensures schemaName !in reg.m ==> r.keys == reg.keys + [schemaName]
    ensures schemaName in reg.m ==> r.keys == reg.keys
  {
    var s := if schemaName in reg.m then reg.m[schemaName] else SchemaData(schemaName, schemaDesc, Empty());
    reg.Put(schemaName, s.(props := s.props.Put(prop.name, prop)))
  }

  /** One property record of `parse`: schema name, schema description, property. */
  datatype PropRecord = PropRecord(schemaName: string, schemaDesc: string, prop: SchemaProperty)

  /** Recording property records in order. */
  function RecordProps(reg: Registry, recs: seq<PropRecord>): (r: Registry)
    requires RegistryValid(reg)
    ensures RegistryValid(r)
    decreases |recs|
  {
    if recs == [] then reg
    else RecordProps(RecordProp(reg, recs[0].schemaName, recs[0].schemaDesc, recs[0].prop), recs[1..])
  }

  /** Recording `a` then `b` is recording `a + b`. */
  lemma {:induction false} RecordPropsAppend(reg: Registry, a: seq<PropRecord>, b: seq<PropRecord>)
    requires RegistryValid(reg)
    ensures RecordProps(RecordProps(reg, a), b) == RecordProps(reg, a + b)
    decreases |a|
  {
    if a != [] {
      var reg1 := RecordProp(reg, a[0].schemaName, a[0].schemaDesc, a[0].prop);
      assert (a + b)[0] == a[0];
      assert (a + b)[1..] == a[1..] + b;
      assert RecordProps(reg, a + b) == RecordProps(reg1, a[1..] + b);
      RecordPropsAppend(reg1, a[1..], b);
    } else {
      assert a + b == b;
    }
  }

  /** Recording one more property after `recs`. */
  lemma RecordPropsSnoc(reg: Registry, recs: seq<PropRecord>, rec: PropRecord)
    requires RegistryValid(reg)
    ensures RecordProps(reg, recs + [rec]) == RecordProp(RecordProps(reg, recs), rec.schemaName, rec.schemaDesc, rec.prop)
  {
    RecordPropsAppend(reg, recs, [rec]);
    assert [rec][1..] == [];
  }

  /**
    Later records never change a schema's description: it is the one it had,
    or the one of the first record that named the schema.
  */
  lemma {:induction false} DescriptionIsFirstSeen(reg: Registry, recs: seq<PropRecord>, name: string)
    requires RegistryValid(reg)
    requires name in reg.m || FirstDesc(recs, name).Some?
    ensures name in RecordProps(reg, recs).m
    ensures RecordProps(reg, recs).m[name].desc ==
      if name in reg.m then reg.m[name].desc else FirstDesc(recs, name).value
    decreases |recs|
  {
    if recs != [] {
      var reg1 := RecordProp(reg, recs[0].schemaName, recs[0].schemaDesc, recs[0].prop);
      assert name in reg1.m ==> reg1.m[name].desc == if name in reg.m then reg.m[name].desc else recs[0].schemaDesc;
      DescriptionIsFirstSeen(reg1, recs[1..], name);
    }
  }

  /** The description of the first record naming `name`, if any. */
  function FirstDesc(recs: seq<PropRecord>, name: string): Option<string>
    decreases |recs|
  {
    if recs == [] then None
    else if recs[0].schemaName == name then Some(recs[0].schemaDesc)
    else FirstDesc(recs[1..], name)
  }

  /** The property `propName` of schema `name` after `recs`: the last one written, or the earlier one. */
  lemma {:induction false} LastPropWins(reg: Registry, recs: seq<PropRecord>, name: string, propName: string)
    requires RegistryValid(reg)
    ensures PropOf(RecordProps(reg, recs), name, propName) == LastProp(recs, name, propName, PropOf(reg, name, propName))
    decreases |recs|
  {
    if recs != [] {
      var reg1 := RecordProp(reg, recs[0].schemaName, recs[0].schemaDesc, recs[0].prop);
      RecordPropOf(reg, recs[0].schemaName, recs[0].schemaDesc, recs[0].prop, name, propName);
      LastPropWins(reg1, recs[1..], name, propName);
      LastPropShift(recs, name, propName, PropOf(reg, name, propName));
    }
  }

  /** One record changes only the property it names. */
  lemma RecordPropOf(reg: Registry, schemaName: string, schemaDesc: string, prop: SchemaProperty, name: string, propName: string)
    requires RegistryValid(reg)
    ensures PropOf(RecordProp(reg, schemaName, schemaDesc, prop), name, propName) ==
      if schemaName == name && prop.name == propName then Some(prop) else PropOf(reg, name, propName)
  {
    var r := RecordProp(reg, schemaName, schemaDesc, prop);
    if name != schemaName {
      assert name in r.m <==> name in reg.m;
    }
  }

  /** The property `propName` of schema `name` in a registry, if both exist. */
  function PropOf(reg: Registry, name: string, propName: string): Option<SchemaProperty> {
    if name in reg.m && propName in reg.m[name].props.m then Some(reg.m[name].props.m[propName]) else None
  }

  /** The last record of `recs` for (name, propName), or `dflt`. */
  function LastProp(recs: seq<PropRecord>, name: string, propName: string, dflt: Option<SchemaProperty>): Option<SchemaProperty>
    decreases |recs|
  {
    if recs == [] then dflt
    else
      var last := recs[|recs| - 1];
      if last.schemaName == name && last.prop.name == propName then Some(last.prop)
      else LastProp(recs[..|recs| - 1], name, propName, dflt)
  }

  lemma {:induction false} LastPropShift(recs: seq<PropRecord>, name: string, propName: string, dflt: Option<SchemaProperty>)
    requires recs != []
    ensures LastProp(recs, name, propName, dflt) ==
      LastProp(recs[1..], name, propName,
        if recs[0].schemaName == name && recs[0].prop.name == propName then Some(recs[0].prop) else dflt)
    decreases |recs|
  {
    if |recs| > 1 {
      var last := recs[|recs| - 1];
      if !(last.schemaName == name && last.prop.name == propName) {
        LastPropShift(recs[..|recs| - 1], name, propName, dflt);
        assert recs[..|recs| - 1][1..] == recs[1..][..|recs[1..]| - 1];
      }
    }
  }

  /** `Parser.Schema`: a named model whose property dict `addProp` updates in place. */
  class Schema {
    const name: string
    const desc: string
    var props: Dict<string, SchemaProperty>

    ghost predicate Valid()
      reads this
    {
      PropsValid(props)
    }

    ghost function Data(): SchemaData
      reads this
    {
      SchemaData(name, desc, props)
    }

    constructor (name: string, desc: string)
      ensures this.name == name && this.desc == desc
      ensures props == Empty() && Valid()
    {
      this.name := name;
      this.desc := desc;
      props := Empty();
    }

    /** `addProp(prop)`: the property is stored under its name, replacing one of the same name. */
    method AddProp(prop: SchemaProperty)
      requires Valid()
      modifies this
      ensures Valid()
      ensures props == old(props).Put(prop.name, prop)
    {
      props := props.Put(prop.name, prop);
    }

    /** `getPropFromName(propName)`: the property of that name; KeyError when there is none. */
    function GetPropFromName(propName: string): (r: Result<SchemaProperty>)
      requires Valid()
      reads this
      ensures r.Ok? <==> HasProp(propName)
      ensures r.Ok? ==> r.value == props.m[propName] && r.value.name == propName
      ensures r.Err? ==> r.error == KeyError
    {
      if propName in props.m then Ok(props.m[propName]) else Err(KeyError)
    }

    /** `hasProp(propName)` */
    predicate HasProp(propName: string)
      reads this
    {
      propName in props.m
    }

    /**
      `props`: the values of the property dict, one per name in the order the
      names were first added, each the property last stored under that name.
    */
    function Props(): (r: seq<SchemaProperty>)
      requires Valid()
      reads this
      ensures |r| == |props.keys|
      ensures forall i :: 0 <= i < |r| ==> r[i] == props.m[props.keys[i]] && r[i].name == props.keys[i]
      ensures forall n :: n in props.m ==> props.m[n] in r
    {
      ValuesListAll(props);
      props.Values()
    }
  }
}
