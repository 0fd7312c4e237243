/**
  The `Parser` object of pyblitz/generator/parser.py with the `parse` of
  `Parser_3_1_0`: its servers list, its endpoint dict (with every endpoint
  reachable from it) and its schema dict, updated in place by the `_record...`
  methods. The `Method` and `Schema` objects it holds are read through their
  values (`TreeView`, `SchemaView`), and each operation is proved to change
  those values as the functions of EndpointTree, Records and ParseSpec say.
*/
module OpenApiParser {
  import opened Wrappers
  import opened Dicts
  import opened Json
  import opened Records
  import opened Scanner
  import opened ParseSpec
  import ET = EndpointTree

  class Parser {
    /** `__servers` */
    var servers: seq<Server>
    /** `__endpointsDict`, together with every endpoint created under it. */
    var tree: ET.Tree<Method>
    /** `__schemaDict` */
    var schemas: Dict<string, Schema>
    /** Every method object ever recorded in the endpoint tree. */
    ghost var methodRepr: set<Method>
    /** Every schema object ever stored in the schema dict. */
    ghost var schemaRepr: set<Schema>

    ghost function MethodObjects(): set<Method>
      reads this`methodRepr
    {
      methodRepr
    }

    ghost function SchemaObjects(): set<Schema>
      reads this`schemaRepr
    {
      schemaRepr
    }

    /**
      The endpoint tree keeps its invariant and holds only recorded method
      objects, and each schema is stored under its own name.
    */
    ghost predicate Valid()
      reads this, MethodObjects(), SchemaObjects()
    {
      TreeValid() && SchemasValid()
    }

    ghost predicate TreeValid()
      reads this`tree, this`methodRepr, MethodObjects()
    {
      && ET.Valid(tree)
      && ET.MethodSet(tree) <= methodRepr
    }

    ghost predicate SchemasValid()
      reads this`schemas, this`schemaRepr, SchemaObjects()
    {
      Named(schemas, schemaRepr)
    }

    ghost function DataMap(): map<Method, MethodData>
      reads this`methodRepr, MethodObjects()
    {
      map o | o in methodRepr :: o.Data()
    }

    /** The endpoint tree with each method object replaced by its current value. */
    ghost function TreeView(): (r: ET.Tree<MethodData>)
      requires TreeValid()
      reads this`tree, this`methodRepr, MethodObjects()
      ensures ET.Valid(r)
    {
      assert ET.Covers(tree, DataMap()) by {
        forall i, v | 0 <= i < |tree.nodes| && v in tree.nodes[i].methods.m
          ensures tree.nodes[i].methods.m[v] in DataMap()
        {
          assert tree.nodes[i].methods.m[v] in ET.MethodSet(tree);
        }
      }
      ET.MapTree(tree, DataMap())
    }

    /** The schema dict with each schema object replaced by its current value. */
    ghost function SchemaView(): (r: Registry)
      reads this`schemas, this`schemaRepr, SchemaObjects()
      ensures SchemasValid() ==> RegistryValid(r)
    {
      ViewOf(schemas, schemaRepr)
    }

    /** `Parser.__init__`: no servers, no endpoints, no schemas. */
    constructor ()
      ensures Valid()
      ensures servers == [] && tree == ET.Tree(Empty(), []) && schemas == Empty()
    {
      servers := [];
      tree := ET.Tree(Empty(), []);
      schemas := Empty();
      methodRepr := {};
      schemaRepr := {};
    }

    /** `_recordServer(server)` */
    method RecordServer(server: Server)
      requires Valid()
      modifies this
      ensures Valid()
      ensures servers == old(servers) + [server]
      ensures tree == old(tree) && schemas == old(schemas)
      ensures methodRepr == old(methodRepr) && schemaRepr == old(schemaRepr)
    {
      servers := servers + [server];
    }

    /**
      `_recordMethod(pathUrl, method)`: the url's segments are walked from the
      endpoint dict, creating the endpoints that are missing, and the method is
      added to the last one under its name. An empty url leaves no endpoint to
      add to (`None.addMethod`, AttributeError).
    */
    method RecordMethod(url: string, m: Method) returns (r: Outcome)
      requires TreeValid()
      modifies this
      ensures TreeValid()
      ensures r.Pass? <==> url != ""
      ensures r.Fail? ==> r.error == AttributeError && tree == old(tree)
      ensures r.Pass? ==> tree == ET.RecordMethod(old(tree), url, m.name, m).value
      ensures MethodObjects() == if r.Pass? then old(MethodObjects()) + {m} else old(MethodObjects())
      ensures servers == old(servers) && schemas == old(schemas) && schemaRepr == old(schemaRepr)
    {
      var recorded := ET.RecordPath(tree, url, m.name, m);
      if recorded.Err? {
        return Fail(recorded.error);
      }
      tree, methodRepr := recorded.value, methodRepr + {m};
      return Pass;
    }

    /**
      `_recordSchemaProperty(schemaName, schemaDesc, prop)`: a schema seen for
      the first time is created with this description, and the property is
      added to it.
    */
    method RecordSchemaProperty(schemaName: string, schemaDesc: string, prop: SchemaProperty)
      requires Valid()
      modifies this, SchemaObjects()
      ensures Valid()
      ensures SchemaView() == RecordProp(old(SchemaView()), schemaName, schemaDesc, prop)
      ensures fresh(SchemaObjects() - old(SchemaObjects()))
      ensures servers == old(servers) && tree == old(tree) && methodRepr == old(methodRepr)
    {
      ghost var reg := SchemaView();
      if schemaName !in schemas.m {
        RegisterSchema(schemaName, schemaDesc);
      }
      ghost var mid := SchemaView();
      AddPropTo(schemaName, prop);
      PutTwice(reg, schemaName, schemaDesc, prop, mid);
    }

    /** One turn of the properties loop: property `i` is recorded on top of the records `done` made from `view0`. */
    method RecordPropAt(ghost view0: Registry, ghost done: seq<PropRecord>, schemaName: string, schemaData: Json, ps: seq<(string, Json)>, i: nat)
      returns (r: Outcome, ghost first: seq<PropRecord>)
      requires Valid() && RegistryValid(view0) && SchemaView() == RecordProps(view0, done) && i < |ps|
      modifies this, SchemaObjects()
      ensures Valid()
      ensures Prepend(done, PropRecordsFrom(schemaName, schemaData, ps, i)) ==
        if r.Fail? then Err(r.error) else Prepend(done + first, PropRecordsFrom(schemaName, schemaData, ps, i + 1))
      ensures r.Pass? ==> SchemaView() == RecordProps(view0, done + first)
      ensures fresh(SchemaObjects() - old(SchemaObjects()))
      ensures servers == old(servers) && tree == old(tree) && methodRepr == old(methodRepr)
    {
      var rec := NextPropRecord(schemaName, schemaData, ps, i);
      if rec.Err? {
        return Fail(rec.error), [];
      }
      first := [rec.value];
      PrependTwice(done, first, PropRecordsFrom(schemaName, schemaData, ps, i + 1));
      RecordSchemaProperty(rec.value.schemaName, rec.value.schemaDesc, rec.value.prop);
      RecordPropsSnoc(view0, done, rec.value);
      r := Pass;
    }

    /** The first-sight branch of `_recordSchemaProperty`: `__schemaDict[schemaName] = Parser.Schema(schemaName, schemaDesc)`. */
    method RegisterSchema(schemaName: string, schemaDesc: string)
      requires Valid() && schemaName !in schemas.m
      modifies this
      ensures Valid() && schemaName in schemas.m
      ensures fresh(schemas.m[schemaName]) && schemas.m == old(schemas.m)[schemaName := schemas.m[schemaName]]
      ensures SchemaView() == old(SchemaView()).Put(schemaName, SchemaData(schemaName, schemaDesc, Empty()))
      ensures SchemaObjects() == old(SchemaObjects()) + {schemas.m[schemaName]}
      ensures servers == old(servers) && tree == old(tree) && methodRepr == old(methodRepr)
    {
      var created := new Schema(schemaName, schemaDesc);
      ViewPut(schemas, schemaRepr, schemaName, created);
      NamedPut(schemas, schemaRepr, schemaName, created);
      schemas := schemas.Put(schemaName, created);
      schemaRepr := schemaRepr + {created};
    }

    /** `schema.addProp(prop)` on the schema stored under `schemaName`. */
    method AddPropTo(schemaName: string, prop: SchemaProperty)
      requires Valid() && schemaName in schemas.m
      modifies schemas.m[schemaName]
      ensures Valid()
      ensures var s := old(SchemaView()).m[schemaName];
        SchemaView() == old(SchemaView()).Put(schemaName, s.(props := s.props.Put(prop.name, prop)))
      ensures unchanged(this)
    {
      ghost var before := SchemaView();
      var schema := schemas.m[schemaName];
      schema.AddProp(prop);
      forall k | k in schemas.m && k != schemaName
        ensures before.m[k] == schemas.m[k].Data() && schemas.m[k].Valid()
      {
        assert schemas.m[k].name != schema.name;
      }
      ViewAfterChange(schemas, schemaRepr, schemaName, before);
    }

    /**
      `endpoint.getPath()`: the parent's path, `/`, the segment. The result is
      cached, and the cache is trusted while the parent has not changed.
    */
    method GetPath(i: nat) returns (p: string)
      requires TreeValid() && i < |tree.nodes|
      modifies this
      ensures TreeValid() && ET.CachesOnly(old(tree), tree)
      ensures p == ET.PathOf(old(tree).nodes, i)
      ensures servers == old(servers) && schemas == old(schemas)
      ensures methodRepr == old(methodRepr) && schemaRepr == old(schemaRepr)
      decreases i
    {
      var n := tree.nodes[i];
      assert ET.NodeOk(tree.nodes, i);
      if n.path.None? || n.lastParentOnPathCheck != n.parent {
        var parentPath := "";
        if n.parent.Some? {
          parentPath := GetPath(n.parent.value);
        }
        p := parentPath + "/" + n.pathName;
        ghost var mid := tree;
        ET.CachesOnlyKeeps(old(tree), mid);
        tree := ET.CachePath(tree, i, p);
      } else {
        p := n.path.value;
      }
      ET.CachesOnlyKeeps(old(tree), tree);
    }

    /**
      `endpoint.className`: the segment without its braces, camel-cased, cached
      once computed. An empty segment raises IndexError before anything is cached.
    */
    method ClassName(i: nat) returns (r: Result<string>)
      requires TreeValid() && i < |tree.nodes|
      modifies this
      ensures TreeValid() && ET.CachesOnly(old(tree), tree)
      ensures r == ET.ClassNameOf(old(tree).nodes[i].pathName)
      ensures servers == old(servers) && schemas == old(schemas)
      ensures methodRepr == old(methodRepr) && schemaRepr == old(schemaRepr)
    {
      var n := tree.nodes[i];
      assert ET.NodeOk(tree.nodes, i);
      if n.className.None? {
        r := ET.ClassNameOf(n.pathName);
        if r.Err? {
          return;
        }
        tree := ET.CacheClassName(tree, i, r.value);
      } else {
        r := Ok(n.className.value);
      }
      ET.CachesOnlyKeeps(old(tree), tree);
    }

    /**
      The servers loop of `parse`: each element of `jsonDict['servers']` becomes
      a recorded server, in order.
    */
    method ParseServers(doc: Json) returns (r: Outcome)
      requires Valid()
      modifies this
      ensures Valid()
      ensures Agrees(r, ServersOf(doc))
      ensures r.Pass? ==> servers == old(servers) + ServersOf(doc).value
      ensures tree == old(tree) && schemas == old(schemas)
      ensures methodRepr == old(methodRepr) && schemaRepr == old(schemaRepr)
      ensures unchanged(MethodObjects()) && unchanged(SchemaObjects())
    {
      var list := Subscript(doc, "servers");
      if list.Err? {
        return Fail(list.error);
      }
      var elems := ServerElems(list.value);
      if elems.Err? {
        return Fail(elems.error);
      }
      var es := elems.value;
      ghost var servers0 := servers;
      ghost var spec := ServersFrom(es, 0);
      ghost var done: seq<Server> := [];
      assert spec.Ok? ==> done + spec.value == spec.value;
      var i := 0;
      while i < |es|
        invariant 0 <= i <= |es|
        invariant Valid()
        invariant tree == old(tree) && schemas == old(schemas)
        invariant methodRepr == old(methodRepr) && schemaRepr == old(schemaRepr)
        invariant servers == servers0 + done
        invariant spec == Prepend(done, ServersFrom(es, i))
      {
        ServersStep(es, i);
        var server := ServerOf(es[i], i);
        if server.Err? {
          return Fail(server.error);
        }
        RecordServer(server.value);
        PrependTwice(done, [server.value], ServersFrom(es, i + 1));
        done := done + [server.value];
        i := i + 1;
      }
      Finished(spec, done);
      return Pass;
    }

    /** The inner schemas loop of `parse`: every property of one schema is recorded, in order. */
    method ParseSchema(schemaName: string, schemaData: Json) returns (r: Outcome)
      requires Valid()
      modifies this, SchemaObjects()
      ensures Valid()
      ensures Agrees(r, SchemaRecords(schemaName, schemaData))
      ensures r.Pass? ==> SchemaView() == RecordProps(old(SchemaView()), SchemaRecords(schemaName, schemaData).value)
      ensures fresh(SchemaObjects() - old(SchemaObjects()))
      ensures servers == old(servers) && tree == old(tree) && methodRepr == old(methodRepr)
    {
      var propsV := Subscript(schemaData, "properties");
      if propsV.Err? {
        return Fail(propsV.error);
      }
      var props := Items(propsV.value);
      if props.Err? {
        return Fail(props.error);
      }
      r := ParsePropList(schemaName, schemaData, props.value);
    }

    /** The body of the properties loop, over the `(propName, propData)` entries `ps`. */
    method ParsePropList(schemaName: string, schemaData: Json, ps: seq<(string, Json)>) returns (r: Outcome)
      requires Valid()
      modifies this, SchemaObjects()
      ensures Valid()
      ensures Agrees(r, PropRecordsFrom(schemaName, schemaData, ps, 0))
      ensures r.Pass? ==> SchemaView() == RecordProps(old(SchemaView()), PropRecordsFrom(schemaName, schemaData, ps, 0).value)
      ensures fresh(SchemaObjects() - old(SchemaObjects()))
      ensures servers == old(servers) && tree == old(tree) && methodRepr == old(methodRepr)
    {
      ghost var view0 := SchemaView();
      ghost var spec := PropRecordsFrom(schemaName, schemaData, ps, 0);
      ghost var done: seq<PropRecord> := [];
      assert spec.Ok? ==> done + spec.value == spec.value;
      var i := 0;
      while i < |ps|
        invariant 0 <= i <= |ps|
        invariant Valid()
        invariant servers == old(servers) && tree == old(tree) && methodRepr == old(methodRepr)
        invariant fresh(SchemaObjects() - old(SchemaObjects()))
        invariant SchemaView() == RecordProps(view0, done)
        invariant spec == Prepend(done, PropRecordsFrom(schemaName, schemaData, ps, i))
      {
        var o, first := RecordPropAt(view0, done, schemaName, schemaData, ps, i);
        if o.Fail? {
          return o;
        }
        done := done + first;
        i := i + 1;
      }
      Finished(spec, done);
      return Pass;
    }

    /** The schemas loop of `parse`, over `jsonDict['components']['schemas']`. */
    method ParseSchemas(doc: Json) returns (r: Outcome)
      requires Valid()
      modifies this, SchemaObjects()
      ensures Valid()
      ensures Agrees(r, SchemasOf(doc))
      ensures r.Pass? ==> SchemaView() == RecordProps(old(SchemaView()), SchemasOf(doc).value)
      ensures fresh(SchemaObjects() - old(SchemaObjects()))
      ensures servers == old(servers) && tree == old(tree) && methodRepr == old(methodRepr)
      ensures unchanged(MethodObjects())
    {
      var items := SchemaItems(doc);
      if items.Err? {
        return Fail(items.error);
      }
      r := ParseSchemaList(items.value);
    }

    /** The loop of `parse` over the schemas' `(schemaName, schemaData)` items. */
    method ParseSchemaList(its: seq<(string, Json)>) returns (r: Outcome)
      requires Valid()
      modifies this, SchemaObjects()
      ensures Valid()
      ensures Agrees(r, SchemasFrom(its, 0))
      ensures r.Pass? ==> SchemaView() == RecordProps(old(SchemaView()), SchemasFrom(its, 0).value)
      ensures fresh(SchemaObjects() - old(SchemaObjects()))
      ensures servers == old(servers) && tree == old(tree) && methodRepr == old(methodRepr)
    {
      ghost var view0 := SchemaView();
      ghost var spec := SchemasFrom(its, 0);
      ghost var done: seq<PropRecord> := [];
      assert spec.Ok? ==> done + spec.value == spec.value;
      var i := 0;
      while i < |its|
        invariant 0 <= i <= |its|
        invariant Valid()
        invariant servers == old(servers) && tree == old(tree) && methodRepr == old(methodRepr)
        invariant fresh(SchemaObjects() - old(SchemaObjects()))
        invariant SchemaView() == RecordProps(view0, done)
        invariant spec == Prepend(done, SchemasFrom(its, i))
      {
        var o, first := ParseSchemaAt(view0, done, its, i);
        if o.Fail? {
          return o;
        }
        done := done + first;
        i := i + 1;
      }
      Finished(spec, done);
      return Pass;
    }

    /** One turn of the schemas loop: schema `i` is parsed on top of the records `done` made from `view0`. */
    method ParseSchemaAt(ghost view0: Registry, ghost done: seq<PropRecord>, its: seq<(string, Json)>, i: nat)
      returns (r: Outcome, ghost first: seq<PropRecord>)
      requires Valid() && RegistryValid(view0) && SchemaView() == RecordProps(view0, done) && i < |its|
      modifies this, SchemaObjects()
      ensures Valid()
      ensures Prepend(done, SchemasFrom(its, i)) == if r.Fail? then Err(r.error) else Prepend(done + first, SchemasFrom(its, i + 1))
      ensures r.Pass? ==> SchemaView() == RecordProps(view0, done + first)
      ensures fresh(SchemaObjects() - old(SchemaObjects()))
      ensures servers == old(servers) && tree == old(tree) && methodRepr == old(methodRepr)
    {
      SchemasStep(its, i);
      PrependStep(done, SchemasFrom(its, i), SchemaRecords(its[i].0, its[i].1), SchemasFrom(its, i + 1));
      r := ParseSchema(its[i].0, its[i].1);
      if r.Fail? {
        return r, [];
      }
      first := SchemaRecords(its[i].0, its[i].1).value;
      RecordPropsAppend(view0, done, first);
    }

    /**
      One method of the paths loop of `parse`: `Parser.Method(method,
      _genEndpointDesc(methodData))`, `_recordMethod(pathUrl, method)`, then
      the scan of each response, which adds to the method already recorded.
    */
    method ParseMethod(doc: Json, url: string, verb: string, methodData: Json, fuel: nat) returns (r: Outcome)
      requires TreeValid()
      modifies this
      ensures TreeValid()
      ensures Agrees(r, MethodOf(doc, url, verb, methodData, fuel))
      ensures r.Pass? ==> ET.RecordMethod(old(TreeView()), url, verb, MethodOf(doc, url, verb, methodData, fuel).value.data) == Ok(TreeView())
      ensures servers == old(servers) && schemas == old(schemas) && schemaRepr == old(schemaRepr)
    {
      var desc := GenEndpointDesc(methodData);
      if desc.Err? {
        return Fail(desc.error);
      }
      r := RecordScanned(doc, url, verb, desc.value, methodData, fuel);
    }

    /** ParseMethod once the description is known: the method object is recorded, then its responses are scanned. */
    method RecordScanned(doc: Json, url: string, verb: string, desc: string, methodData: Json, fuel: nat) returns (r: Outcome)
      requires TreeValid()
      modifies this
      ensures TreeValid()
      ensures Agrees(r, MethodWith(doc, url, verb, desc, methodData, fuel))
      ensures r.Pass? ==> ET.RecordMethod(old(TreeView()), url, verb, MethodWith(doc, url, verb, desc, methodData, fuel).value.data) == Ok(TreeView())
      ensures servers == old(servers) && schemas == old(schemas) && schemaRepr == old(schemaRepr)
    {
      ghost var f0 := DataMap();
      ghost var t0 := tree;
      var m := new Method(verb, desc);
      r := RecordMethod(url, m);
      if r.Fail? {
        return;
      }
      ghost var f1 := DataMap();
      forall o | o in ET.MethodSet(t0)
        ensures o in f0 && o in f1 && o != m && f1[o] == f0[o]
      {
      }
      r := ScanFresh(t0, f0, doc, url, verb, desc, methodData, m, fuel);
    }

    /** The scan of the responses into `m`, just recorded with no responses into `t0`, the tree whose methods had the values `f0`. */
    method ScanFresh(ghost t0: ET.Tree<Method>, ghost f0: map<Method, MethodData>, doc: Json, url: string, verb: string, desc: string, methodData: Json, m: Method, fuel: nat)
      returns (r: Outcome)
      requires TreeValid() && m in MethodObjects() && m.Valid() && url != ""
      requires m.name == verb && m.desc == desc && m.responseSchema == Dicts.Empty()
      requires ET.Valid(t0) && ET.Covers(t0, f0) && m !in ET.MethodSet(t0)
      requires tree == ET.RecordMethod(t0, url, verb, m).value
      requires forall o :: o in ET.MethodSet(t0) ==> o in DataMap() && o != m && DataMap()[o] == f0[o]
      modifies this, m
      ensures TreeValid()
      ensures Agrees(r, MethodWith(doc, url, verb, desc, methodData, fuel))
      ensures r.Pass? ==> ET.RecordMethod(ET.MapTree(t0, f0), url, verb, MethodWith(doc, url, verb, desc, methodData, fuel).value.data) == Ok(TreeView())
      ensures servers == old(servers) && schemas == old(schemas) && schemaRepr == old(schemaRepr)
    {
      ghost var f1 := DataMap();
      r := ScanRecorded(doc, methodData, m, fuel);
      if r.Fail? {
        return;
      }
      ghost var f2 := DataMap();
      forall o | o in ET.MethodSet(t0)
        ensures o in f0 && (o in f2 ==> f2[o] == f0[o])
      {
        assert f2[o] == f1[o];
      }
      ET.MapRecordFresh(t0, f0, f2, url, verb, m);
    }

    /** The scan of the responses into `m`, a method object already in the tree. */
    method ScanRecorded(doc: Json, methodData: Json, m: Method, fuel: nat) returns (r: Outcome)
      requires TreeValid() && m in MethodObjects() && m.Valid()
      modifies m
      ensures TreeValid() && m.Valid()
      ensures ScannedAs(m, old(m.responseSchema), r, ResponsesOf(doc, methodData, fuel))
      ensures forall o :: o in MethodObjects() && o != m ==> o.Data() == old(o.Data())
    {
      r := ScanResponses(doc, methodData, m, fuel);
    }

    /** The loop over one path's `path.items()`, skipping `parameters`. */
    method ParsePath(doc: Json, url: string, path: Json, fuel: nat) returns (r: Outcome)
      requires TreeValid()
      modifies this
      ensures TreeValid()
      ensures Agrees(r, PathRecords(doc, url, path, fuel))
      ensures r.Pass? ==> RecordAll(old(TreeView()), PathRecords(doc, url, path, fuel).value) == Ok(TreeView())
      ensures servers == old(servers) && schemas == old(schemas) && schemaRepr == old(schemaRepr)
    {
      var verbs := Items(path);
      if verbs.Err? {
        return Fail(verbs.error);
      }
      var vs := verbs.value;
      ghost var view0 := TreeView();
      ghost var spec := VerbsFrom(doc, url, vs, 0, fuel);
      ghost var done: seq<MethodRec> := [];
      assert spec.Ok? ==> done + spec.value == spec.value;
      var i := 0;
      while i < |vs|
        invariant 0 <= i <= |vs|
        invariant TreeValid()
        invariant servers == old(servers) && schemas == old(schemas) && schemaRepr == old(schemaRepr)
        invariant spec == Prepend(done, VerbsFrom(doc, url, vs, i, fuel))
        invariant RecordAll(view0, done) == Ok(TreeView())
      {
        var o, first := ParseVerbAt(view0, done, doc, url, vs, i, fuel);
        if o.Fail? {
          return o;
        }
        done := done + first;
        i := i + 1;
      }
      Finished(spec, done);
      return Pass;
    }

    /** One turn of a path's loop: item `i` is skipped when it is `parameters`, else parsed as a method. */
    method ParseVerbAt(ghost view0: ET.Tree<MethodData>, ghost done: seq<MethodRec>, doc: Json, url: string, vs: seq<(string, Json)>, i: nat, fuel: nat)
      returns (r: Outcome, ghost first: seq<MethodRec>)
      requires TreeValid() && ET.Valid(view0) && RecordAll(view0, done) == Ok(TreeView()) && i < |vs|
      modifies this
      ensures TreeValid()
      ensures Prepend(done, VerbsFrom(doc, url, vs, i, fuel)) ==
        if r.Fail? then Err(r.error) else Prepend(done + first, VerbsFrom(doc, url, vs, i + 1, fuel))
      ensures r.Pass? ==> RecordAll(view0, done + first) == Ok(TreeView())
      ensures servers == old(servers) && schemas == old(schemas) && schemaRepr == old(schemaRepr)
    {
      VerbsStep(doc, url, vs, i, fuel);
      if vs[i].0 == ParametersItem {
        assert done + [] == done;
        return Pass, [];
      }
      ghost var before := TreeView();
      r := ParseMethod(doc, url, vs[i].0, vs[i].1, fuel);
      if r.Fail? {
        return r, [];
      }
      ghost var rec := MethodOf(doc, url, vs[i].0, vs[i].1, fuel).value;
      first := [rec];
      RecordAllSnoc(view0, done, rec, before);
      PrependTwice(done, first, VerbsFrom(doc, url, vs, i + 1, fuel));
    }

    /** One turn of the paths loop: path `i` is parsed on top of the methods `done` recorded from `view0`. */
    method ParsePathAt(ghost view0: ET.Tree<MethodData>, ghost done: seq<MethodRec>, doc: Json, ps: seq<(string, Json)>, i: nat, fuel: nat)
      returns (r: Outcome, ghost first: seq<MethodRec>)
      requires TreeValid() && ET.Valid(view0) && RecordAll(view0, done) == Ok(TreeView()) && i < |ps|
      modifies this
      ensures TreeValid()
      ensures Prepend(done, PathsFrom(doc, ps, i, fuel)) ==
        if r.Fail? then Err(r.error) else Prepend(done + first, PathsFrom(doc, ps, i + 1, fuel))
      ensures r.Pass? ==> RecordAll(view0, done + first) == Ok(TreeView())
      ensures servers == old(servers) && schemas == old(schemas) && schemaRepr == old(schemaRepr)
    {
      PathsStep(doc, ps, i, fuel);
      PrependStep(done, PathsFrom(doc, ps, i, fuel), PathRecords(doc, ps[i].0, ps[i].1, fuel), PathsFrom(doc, ps, i + 1, fuel));
      r := ParsePath(doc, ps[i].0, ps[i].1, fuel);
      if r.Fail? {
        return r, [];
      }
      first := PathRecords(doc, ps[i].0, ps[i].1, fuel).value;
      RecordAllAppend(view0, done, first);
    }

    /** The paths loop of `parse`, over `jsonDict['paths']`. */
    method ParsePaths(doc: Json, fuel: nat) returns (r: Outcome)
      requires TreeValid()
      modifies this
      ensures TreeValid()
      ensures Agrees(r, PathsOf(doc, fuel))
      ensures r.Pass? ==> RecordAll(old(TreeView()), PathsOf(doc, fuel).value) == Ok(TreeView())
      ensures servers == old(servers) && schemas == old(schemas) && schemaRepr == old(schemaRepr)
      ensures unchanged(SchemaObjects())
    {
      var pathsV := Subscript(doc, "paths");
      if pathsV.Err? {
        return Fail(pathsV.error);
      }
      var paths := Items(pathsV.value);
      if paths.Err? {
        return Fail(paths.error);
      }
      var ps := paths.value;
      ghost var view0 := TreeView();
      ghost var spec := PathsFrom(doc, ps, 0, fuel);
      ghost var done: seq<MethodRec> := [];
      assert spec.Ok? ==> done + spec.value == spec.value;
      var i := 0;
      while i < |ps|
        invariant 0 <= i <= |ps|
        invariant TreeValid()
        invariant servers == old(servers) && schemas == old(schemas) && schemaRepr == old(schemaRepr)
        invariant spec == Prepend(done, PathsFrom(doc, ps, i, fuel))
        invariant RecordAll(view0, done) == Ok(TreeView())
      {
        var o, first := ParsePathAt(view0, done, doc, ps, i, fuel);
        if o.Fail? {
          return o;
        }
        done := done + first;
        i := i + 1;
      }
      Finished(spec, done);
      return Pass;
    }

    /**
      `Parser_3_1_0.parse(jsonDict)`: the version check, then the servers, the
      schemas and the paths, each recorded as ParseDoc says. The first
      exception ends the parse with whatever was recorded before it.
    */
    method Parse(doc: Json, fuel: nat) returns (r: Outcome)
      requires Valid()
      modifies this, SchemaObjects()
      ensures Valid()
      ensures Agrees(r, ParseDoc(doc, fuel))
      ensures r.Pass? ==> var p := ParseDoc(doc, fuel).value;
        && servers == old(servers) + p.servers
        && SchemaView() == RecordProps(old(SchemaView()), p.props)
        && RecordAll(old(TreeView()), p.methods) == Ok(TreeView())
    {
      ghost var treeView := TreeView();
      r := CheckVersion(doc);
      if r.Fail? {
        return;
      }
      r := ParseServers(doc);
      if r.Fail? {
        return;
      }
      assert TreeView() == treeView && SchemaView() == old(SchemaView());
      r := ParseSchemas(doc);
      if r.Fail? {
        return;
      }
      assert TreeView() == treeView;
      ghost var schemaView := SchemaView();
      r := ParsePaths(doc, fuel);
      assert SchemaView() == schemaView;
    }

    /**
      `parser.endpoints`: the values of the endpoint dict, that is every root
      endpoint once, in the order its first segment was first recorded.
    */
    function Endpoints(): (r: seq<nat>)
      requires Valid()
      reads this, MethodObjects(), SchemaObjects()
      ensures |r| == |tree.roots.keys|
      ensures forall j :: 0 <= j < |r| ==> r[j] == tree.roots.m[tree.roots.keys[j]]
      ensures forall k :: k in tree.roots.m ==> tree.roots.m[k] in r
      ensures forall j, l :: 0 <= j < l < |r| ==> r[j] != r[l]
      ensures forall j :: 0 <= j < |r| ==> r[j] < |tree.nodes| && tree.nodes[r[j]].parent.None?
    {
      ET.Roots(tree)
    }

    /**
      `parser.schema`: the values of the schema dict, that is every registered
      Schema object once, in the order its name was first recorded.
    */
    function Schema(): (r: seq<Schema>)
      requires Valid()
      reads this, MethodObjects(), SchemaObjects()
      ensures |r| == |schemas.keys|
      ensures forall j :: 0 <= j < |r| ==> r[j] == schemas.m[schemas.keys[j]] && r[j].name == schemas.keys[j]
      ensures forall k :: k in schemas.m ==> schemas.m[k] in r
      ensures forall j, l :: 0 <= j < l < |r| ==> r[j] != r[l]
    {
      ValuesListAll(schemas);
      schemas.Values()
    }
  }

  /** The loop over `methodData['responses'].items()`: each response body is scanned into `m` with an empty key path. */
  method ScanResponses(doc: Json, methodData: Json, m: Method, fuel: nat) returns (r: Outcome)
    requires m.Valid()
    modifies m
    ensures m.Valid()
    ensures ScannedAs(m, old(m.responseSchema), r, ResponsesOf(doc, methodData, fuel))
  {
    var responsesV := Subscript(methodData, "responses");
    if responsesV.Err? {
      return Fail(responsesV.error);
    }
    var items := Items(responsesV.value);
    if items.Err? {
      return Fail(items.error);
    }
    r := ScanResponseList(doc, items.value, m, fuel);
  }

  /** The body of the responses loop, over the `(responseCode, responseData)` entries. */
  method ScanResponseList(doc: Json, responses: seq<(string, Json)>, m: Method, fuel: nat) returns (r: Outcome)
    requires m.Valid()
    modifies m
    ensures m.Valid()
    ensures ScannedAs(m, old(m.responseSchema), r, ResponsesFrom(doc, responses, 0, fuel))
  {
    ghost var schema0 := m.responseSchema;
    ghost var spec := ResponsesFrom(doc, responses, 0, fuel);
    ghost var done: seq<Entry> := [];
    assert spec.Ok? ==> done + spec.value == spec.value;
    var i := 0;
    while i < |responses|
      invariant 0 <= i <= |responses|
      invariant m.Valid() && ResponseMapValid(schema0)
      invariant spec == Prepend(done, ResponsesFrom(doc, responses, i, fuel))
      invariant m.responseSchema == AddEntries(schema0, done)
    {
      var o;
      o, done := ScanResponseAt(doc, responses, i, m, fuel, schema0, done, spec);
      if o.Fail? {
        return o;
      }
      i := i + 1;
    }
    ResponsesEnd(doc, responses, fuel);
    Finished(spec, done);
    return Pass;
  }

  /** One turn of the responses loop: the layer of response `i` is scanned, and its entries join the done ones. */
  method ScanResponseAt(doc: Json, responses: seq<(string, Json)>, i: nat, m: Method, fuel: nat,
                        ghost schema0: ResponseMap, ghost done: seq<Entry>, ghost spec: Result<seq<Entry>>)
      returns (o: Outcome, ghost done': seq<Entry>)
    requires i < |responses| && m.Valid() && ResponseMapValid(schema0)
    requires spec == Prepend(done, ResponsesFrom(doc, responses, i, fuel))
    requires m.responseSchema == AddEntries(schema0, done)
    modifies m
    ensures m.Valid()
    ensures o.Fail? ==> ScannedAs(m, schema0, o, spec)
    ensures o.Pass? ==> spec == Prepend(done', ResponsesFrom(doc, responses, i + 1, fuel))
    ensures o.Pass? ==> m.responseSchema == AddEntries(schema0, done')
  {
    ghost var first := LayerEntries(doc, responses[i].0, [], responses[i].1, fuel);
    ResponsesStep(doc, responses, i, fuel);
    Turn(spec, done, first, ResponsesFrom(doc, responses, i + 1, fuel), ResponsesFrom(doc, responses, i, fuel));
    o := ScanOpenApiObjectLayer(doc, responses[i].0, [], responses[i].1, m, fuel);
    done' := done;
    if o.Pass? {
      AddEntriesAppend(schema0, done, first.value);
      done' := done + first.value;
    }
  }

  /**
    The record one turn of the properties loop makes: property `i` and the
    schema's description, or the exception that ends the loop there.
  */
  method NextPropRecord(schemaName: string, schemaData: Json, ps: seq<(string, Json)>, i: nat) returns (rec: Result<PropRecord>)
    requires i < |ps|
    ensures PropRecordsFrom(schemaName, schemaData, ps, i) ==
      if rec.Err? then Err(rec.error) else Prepend([rec.value], PropRecordsFrom(schemaName, schemaData, ps, i + 1))
  {
    PropRecordsStep(schemaName, schemaData, ps, i);
    rec := PropRecordOf(schemaName, schemaData, ps[i].0, ps[i].1);
  }

  /** A schema dict with each schema object replaced by its current value. */
  ghost function ViewOf(d: Dict<string, Schema>, repr: set<Schema>): (r: Registry)
    reads repr
    ensures Named(d, repr) ==> RegistryValid(r)
  {
    Dict(d.keys, map k | k in d.m && d.m[k] in repr :: d.m[k].Data())
  }

  /** Each schema of the dict is one of `repr`, valid, and stored under its own name. */
  ghost predicate Named(d: Dict<string, Schema>, repr: set<Schema>)
    reads repr
  {
    && d.Valid()
    && forall k :: k in d.m ==> d.m[k] in repr && d.m[k].name == k && d.m[k].Valid()
  }

  /** Storing a valid schema under its own name keeps the dict named. */
  lemma NamedPut(d: Dict<string, Schema>, repr: set<Schema>, k: string, s: Schema)
    requires Named(d, repr) && s.name == k && s.Valid()
    ensures Named(d.Put(k, s), repr + {s})
  {
    var d2 := d.Put(k, s);
    forall j | j in d2.m
      ensures d2.m[j] in repr + {s} && d2.m[j].name == j && d2.m[j].Valid()
    {
      if j != k {
        assert j in d.m && d2.m[j] == d.m[j];
      }
    }
  }

  /**
    When every schema but the one under `k` still has its value in `before`,
    the view differs from `before` at `k` alone.
  */
  lemma ViewAfterChange(d: Dict<string, Schema>, repr: set<Schema>, k: string, before: Registry)
    requires d.Valid() && k in d.m && before.keys == d.keys && before.m.Keys == d.m.Keys
    requires forall j :: j in d.m ==> d.m[j] in repr && d.m[j].name == j
    requires forall j :: j in d.m && j != k ==> before.m[j] == d.m[j].Data() && d.m[j].Valid()
    requires d.m[k].Valid()
    ensures Named(d, repr)
    ensures ViewOf(d, repr) == before.Put(k, d.m[k].Data())
  {
    var view := ViewOf(d, repr).m;
    var expected := before.m[k := d.m[k].Data()];
    assert view.Keys == expected.Keys;
    forall j | j in view
      ensures view[j] == expected[j]
    {
    }
    assert view == expected;
  }

  /** Storing a schema object under a key stores its value in the view. */
  lemma ViewPut(d: Dict<string, Schema>, repr: set<Schema>, k: string, s: Schema)
    requires Named(d, repr)
    ensures ViewOf(d, repr).Valid()
    ensures ViewOf(d.Put(k, s), repr + {s}) == ViewOf(d, repr).Put(k, s.Data())
  {
    var view := ViewOf(d.Put(k, s), repr + {s}).m;
    var expected := ViewOf(d, repr).m[k := s.Data()];
    assert view.Keys == expected.Keys;
    forall j | j in view
      ensures view[j] == expected[j]
    {
    }
    assert view == expected;
  }

  /** Registering a schema and then adding to it is what `RecordProp` does in one step. */
  lemma PutTwice(reg: Registry, schemaName: string, schemaDesc: string, prop: SchemaProperty, mid: Registry)
    requires RegistryValid(reg) && mid.Valid()
    requires mid == if schemaName in reg.m then reg else reg.Put(schemaName, SchemaData(schemaName, schemaDesc, Empty()))
    ensures schemaName in mid.m
    ensures var s := mid.m[schemaName];
      mid.Put(schemaName, s.(props := s.props.Put(prop.name, prop))) == RecordProp(reg, schemaName, schemaDesc, prop)
  {
  }
}
