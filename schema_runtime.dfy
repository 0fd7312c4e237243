/**
  What a schema class emitted by pyblitz/generator/generate.py does at run time
  (`_schemaGlobals` and `_schemaTemplate`): a fresh object holds
  `Schema.NoProp` in every property, `_loadJsonDict` copies a decoded body's
  entries into the properties, `serialize` gives back the properties that were
  set, and `fromResponse` builds an object from a response body. The object's
  `__dict__` restricted to the property names is the field `values`.
*/
module SchemaRuntime {
  import opened Wrappers
  import opened Json

  /** A property of an emitted schema object: the `Schema.NoProp` sentinel, or a value from a decoded body. */
  datatype PropValue = NoProp | Val(v: Json)

  /** The properties of a fresh object: `__init__` sets each one to `Schema.NoProp`. */
  function AllNoProp(propNames: set<string>): (r: map<string, PropValue>)
    ensures r.Keys == propNames
    ensures forall n :: n in r ==> r[n] == NoProp
  {
    map n | n in propNames :: NoProp
  }

  /**
    `serialize()` on properties `values`: a dict of the named properties whose
    value is not `Schema.NoProp` (so a property set to None is kept).
  */
  function SerialDict(propNames: set<string>, values: map<string, PropValue>): (r: map<string, Json>)
    requires propNames <= values.Keys
    ensures forall n :: n in r <==> n in propNames && values[n] != NoProp
    ensures forall n :: n in r ==> values[n] == Val(r[n])
  {
    map n | n in propNames && values[n].Val? :: values[n].v
  }

  /** The properties after `self.__dict__[k] = v` for each entry of `items`, in order. */
  function Assign(values: map<string, PropValue>, items: seq<(string, Json)>): (r: map<string, PropValue>)
    decreases |items|
  {
    if items == [] then values else Assign(values[items[0].0 := Val(items[0].1)], items[1..])
  }

  /** The position of the first entry whose key is not a property name, or `|items|` when there is none. */
  function FirstUnknown(propNames: set<string>, items: seq<(string, Json)>): (r: nat)
    ensures r <= |items|
    ensures forall k :: 0 <= k < r ==> items[k].0 in propNames
    ensures r < |items| ==> items[r].0 !in propNames
    decreases |items|
  {
    if items == [] || items[0].0 !in propNames then 0 else 1 + FirstUnknown(propNames, items[1..])
  }

  /** Assigning one more entry is one more map update. */
  lemma {:induction false} AssignSnoc(values: map<string, PropValue>, items: seq<(string, Json)>, x: (string, Json))
    ensures Assign(values, items + [x]) == Assign(values, items)[x.0 := Val(x.1)]
    decreases |items|
  {
    if items == [] {
      assert items + [x] == [x];
    } else {
      assert (items + [x])[0] == items[0];
      assert (items + [x])[1..] == items[1..] + [x];
      AssignSnoc(values[items[0].0 := Val(items[0].1)], items[1..], x);
    }
  }

  /** Assigning entries whose keys are property names keeps the set of properties. */
  lemma {:induction false} AssignKeys(values: map<string, PropValue>, items: seq<(string, Json)>)
    requires forall k :: 0 <= k < |items| ==> items[k].0 in values
    ensures Assign(values, items).Keys == values.Keys
    decreases |items|
  {
    if items != [] {
      AssignKeys(values[items[0].0 := Val(items[0].1)], items[1..]);
    }
  }

  /** The keys of a decoded dict are distinct. */
  ghost predicate DistinctKeys(items: seq<(string, Json)>) {
    forall i, j :: 0 <= i < j < |items| ==> items[i].0 != items[j].0
  }

  /**
    With distinct keys, a key of `items` ends up holding its entry's value, and
    every other property keeps its value.
  */
  lemma {:induction false} AssignLookup(values: map<string, PropValue>, items: seq<(string, Json)>, n: string)
    requires DistinctKeys(items)
    ensures n in Assign(values, items) <==> n in values || Lookup(items, n).Some?
    ensures Lookup(items, n).Some? ==> Assign(values, items)[n] == Val(Lookup(items, n).value)
    ensures Lookup(items, n).None? && n in values ==> Assign(values, items)[n] == values[n]
    decreases |items|
  {
    if items != [] {
      var rest := items[1..];
      assert DistinctKeys(rest) by {
        forall i, j | 0 <= i < j < |rest| ensures rest[i].0 != rest[j].0 {
          assert rest[i] == items[i + 1] && rest[j] == items[j + 1];
        }
      }
      AssignLookup(values[items[0].0 := Val(items[0].1)], rest, n);
      if items[0].0 == n {
        assert forall k :: 0 <= k < |rest| ==> rest[k].0 != n by {
          forall k | 0 <= k < |rest| ensures rest[k].0 != n {
            assert rest[k] == items[k + 1];
          }
        }
      }
    }
  }

  /**
    `_loadJsonDict(jsonDict)` on properties `values` as a value: AttributeError
    when the body is not a dict (it has no `items`), AssertionError at the first
    key that is not a property name, else the properties with every entry
    assigned. Entries before a failing key stay assigned (see `LoadedPart`).
  */
  function LoadSpec(propNames: set<string>, values: map<string, PropValue>, jsonDict: Json): Result<map<string, PropValue>> {
    match Items(jsonDict)
    case Err(e) => Err(e)
    case Ok(items) =>
      if FirstUnknown(propNames, items) < |items| then Err(AssertionError) else Ok(Assign(values, items))
  }

  /** The properties `_loadJsonDict` leaves behind, also when it fails. */
  function LoadedPart(propNames: set<string>, values: map<string, PropValue>, jsonDict: Json): map<string, PropValue> {
    if jsonDict.JObj? then Assign(values, jsonDict.fields[..FirstUnknown(propNames, jsonDict.fields)]) else values
  }

  /**
    `fromResponse` on a decoded body: `body.keys()` (AttributeError unless a
    dict); a dict whose only key is 'data' is replaced by its value; then a
    fresh object is loaded from it. The result is the new object's properties.
  */
  function FromResponseSpec(propNames: set<string>, body: Json): Result<map<string, PropValue>> {
    if !body.JObj? then Err(AttributeError)
    else
      var jsonDict := if |body.fields| == 1 && body.fields[0].0 == "data" then body.fields[0].1 else body;
      LoadSpec(propNames, AllNoProp(propNames), jsonDict)
  }

  /** An object of an emitted schema class: its `_propNames` and its properties. */
  class SchemaObject {
    const propNames: set<string>
    var values: map<string, PropValue>

    /** Every property name has a value, and the object holds nothing else. */
    ghost predicate Valid()
      reads this
    {
      values.Keys == propNames
    }

    /** `cls()`: `__init__` sets every property to `Schema.NoProp`. */
    constructor (names: set<string>)
      ensures propNames == names && values == AllNoProp(names)
      ensures Valid()
    {
      propNames := names;
      values := AllNoProp(names);
    }

    /** `serialize()`. */
    function Serialize(): map<string, Json>
      reads this
      requires Valid()
    {
      SerialDict(propNames, values)
    }

    /**
      `_loadJsonDict(jsonDict)`: each entry in order is checked against
      `_propNames` and assigned; the first unknown key raises AssertionError
      with the earlier entries already assigned.
    */
    method LoadJsonDict(jsonDict: Json) returns (o: Outcome)
      requires Valid()
      modifies this
      ensures Valid()
      ensures values == LoadedPart(propNames, old(values), jsonDict)
      ensures Agrees(o, LoadSpec(propNames, old(values), jsonDict))
      ensures o.Pass? ==> values == LoadSpec(propNames, old(values), jsonDict).value
    {
      if !jsonDict.JObj? {
        return Fail(AttributeError);
      }
      var items := jsonDict.fields;
      ghost var j := FirstUnknown(propNames, items);
      for i := 0 to |items|
        invariant i <= j
        invariant values == Assign(old(values), items[..i])
        invariant Valid()
      {
        var (propName, propVal) := items[i];
        if propName !in propNames {
          return Fail(AssertionError);
        }
        AssignSnoc(old(values), items[..i], items[i]);
        assert items[..i + 1] == items[..i] + [items[i]];
        values := values[propName := Val(propVal)];
      }
      assert items[..|items|] == items;
      return Pass;
    }

    /** `Schema.fromResponse(response)` on the decoded body. */
    static method FromResponse(names: set<string>, body: Json) returns (r: Result<SchemaObject>)
      ensures r.Ok? <==> FromResponseSpec(names, body).Ok?
      ensures r.Err? ==> r.error == FromResponseSpec(names, body).error
      ensures r.Ok? ==> fresh(r.value) && r.value.Valid() && r.value.propNames == names
      ensures r.Ok? ==> r.value.values == FromResponseSpec(names, body).value
    {
      if !body.JObj? {
        return Err(AttributeError);
      }
      var jsonDict := body;
      if |body.fields| == 1 && body.fields[0].0 == "data" {
        jsonDict := body.fields[0].1;
      }
      var self := new SchemaObject(names);
      var o := self.LoadJsonDict(jsonDict);
      if o.Fail? {
        return Err(o.error);
      }
      return Ok(self);
    }
  }

  /** A fresh object serializes to the empty dict. */
  lemma FreshSerializesEmpty(propNames: set<string>)
    ensures SerialDict(propNames, AllNoProp(propNames)) == map[]
  {
    var r := SerialDict(propNames, AllNoProp(propNames));
    assert forall n :: n !in r;
  }

  /** A property loaded as None (`null`) is still serialized: only `Schema.NoProp` is left out. */
  lemma NullIsSerialized(propNames: set<string>, values: map<string, PropValue>, n: string)
    requires propNames <= values.Keys && n in propNames && values[n] == Val(JNull)
    ensures n in SerialDict(propNames, values) && SerialDict(propNames, values)[n] == JNull
  {
  }

  /**
    Loading a dict with distinct keys into a fresh object succeeds exactly when
    every key is a property name, and then `serialize` gives back the dict.
  */
  lemma LoadSerializeRoundTrip(propNames: set<string>, items: seq<(string, Json)>)
    requires DistinctKeys(items)
    ensures LoadSpec(propNames, AllNoProp(propNames), JObj(items)).Ok? <==> forall k :: 0 <= k < |items| ==> items[k].0 in propNames
    ensures LoadSpec(propNames, AllNoProp(propNames), JObj(items)).Ok? ==>
      var values := LoadSpec(propNames, AllNoProp(propNames), JObj(items)).value;
      && values.Keys == propNames
      && (forall n :: n in SerialDict(propNames, values) <==> Lookup(items, n).Some?)
      && (forall n :: n in SerialDict(propNames, values) ==> SerialDict(propNames, values)[n] == Lookup(items, n).value)
  {
    var start := AllNoProp(propNames);
    var j := FirstUnknown(propNames, items);
    if j == |items| {
      var values := Assign(start, items);
      AssignKeys(start, items);
      forall n | n in propNames
        ensures values[n] != NoProp <==> Lookup(items, n).Some?
        ensures Lookup(items, n).Some? ==> values[n] == Val(Lookup(items, n).value)
      {
        AssignLookup(start, items, n);
      }
      forall n | Lookup(items, n).Some?
        ensures n in propNames
      {
        var i :| 0 <= i < |items| && items[i] == (n, Lookup(items, n).value);
      }
    }
  }

  /**
    `fromResponse` unwraps a body whose only key is 'data' and loads any other
    dict as it is; a body that is not a dict raises AttributeError, as does a
    'data' wrapper around a value that is not a dict.
  */
  lemma FromResponseCases(propNames: set<string>, body: Json, inner: Json)
    ensures FromResponseSpec(propNames, JObj([("data", inner)])) == LoadSpec(propNames, AllNoProp(propNames), inner)
    ensures body.JObj? && !(|body.fields| == 1 && body.fields[0].0 == "data") ==>
      FromResponseSpec(propNames, body) == LoadSpec(propNames, AllNoProp(propNames), body)
    ensures !body.JObj? ==> FromResponseSpec(propNames, body) == Err(AttributeError)
    ensures !inner.JObj? ==> FromResponseSpec(propNames, JObj([("data", inner)])) == Err(AttributeError)
  {
  }

  /** A key that is not a property name raises AssertionError. */
  lemma UnknownKeyFails(propNames: set<string>, values: map<string, PropValue>, items: seq<(string, Json)>, k: nat)
    requires k < |items| && items[k].0 !in propNames
    ensures LoadSpec(propNames, values, JObj(items)) == Err(AssertionError)
  {
  }
}
