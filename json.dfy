/**
  The values `json.loads` produces (numbers restricted to integers), plus the
  objects `schemaClass.fromSerialized(raw)` returns, which the response replay
  stores back into the decoded tree.
*/
module Json {
  import opened Wrappers
  import opened Strs

  datatype Json =
    | JNull
    | JBool(b: bool)
    | JNum(n: int)
    | JStr(s: string)
    | JArr(elems: seq<Json>)
      /** A dict in iteration order; lookups and updates act on the first entry with the key. */
    | JObj(fields: seq<(string, Json)>)
      /** The instance `schemaClass.fromSerialized(raw)` returned. */
    | Inflated(schemaClass: string, raw: Json)

  /** A key of a walked spec value: a dict key, or a list position from `enumerate`. */
  datatype JsonKey = KStr(s: string) | KIdx(i: nat)

  /** `d.get(k)` on a dict's entries. */
  function Lookup(fields: seq<(string, Json)>, k: string): (r: Option<Json>)
    ensures r.Some? ==> exists i :: 0 <= i < |fields| && fields[i] == (k, r.value)
    ensures r.None? <==> forall i :: 0 <= i < |fields| ==> fields[i].0 != k
    decreases |fields|
  {
    if fields == [] then None
    else if fields[0].0 == k then Some(fields[0].1)
    else
      var r := Lookup(fields[1..], k);
      assert r.Some? ==> exists i :: 0 <= i < |fields| && fields[i] == (k, r.value) by {
        if r.Some? {
          var i :| 0 <= i < |fields[1..]| && fields[1..][i] == (k, r.value);
          assert fields[i + 1] == (k, r.value);
        }
      }
      r
  }

  /** `d[k] = v`: replaces the value of an existing key in place, or appends a new key. */
  function Update(fields: seq<(string, Json)>, k: string, v: Json): (r: seq<(string, Json)>)
    ensures Lookup(r, k) == Some(v)
    ensures forall k' :: k' != k ==> Lookup(r, k') == Lookup(fields, k')
    ensures Lookup(fields, k).Some? ==> |r| == |fields|
    ensures Lookup(fields, k).Some? ==> forall i :: 0 <= i < |fields| ==> r[i].0 == fields[i].0
    decreases |fields|
  {
    if fields == [] then [(k, v)]
    else if fields[0].0 == k then [(k, v)] + fields[1..]
    else [fields[0]] + Update(fields[1..], k, v)
  }

  /**
    No key is listed twice. A dict that `json.loads` returns has this property,
    and item assignment (`Update`) keeps it, so for the bodies the model builds
    the first entry with a key is the only one.
  */
  predicate DistinctKeys(fields: seq<(string, Json)>) {
    forall i, j :: 0 <= i < j < |fields| ==> fields[i].0 != fields[j].0
  }

  /** With distinct keys, looking up the key of entry `i` finds entry `i`. */
  lemma {:induction false} LookupDistinct(fields: seq<(string, Json)>, i: nat)
    requires DistinctKeys(fields) && i < |fields|
    ensures Lookup(fields, fields[i].0) == Some(fields[i].1)
    decreases i
  {
    if i > 0 {
      assert fields[0].0 != fields[i].0;
      LookupDistinct(fields[1..], i - 1);
    }
  }

  /** Assigning a key that is not there appends it. */
  lemma {:induction false} UpdateAppends(fields: seq<(string, Json)>, k: string, v: Json)
    requires Lookup(fields, k).None?
    ensures Update(fields, k, v) == fields + [(k, v)]
    decreases |fields|
  {
    if fields != [] {
      UpdateAppends(fields[1..], k, v);
      assert [fields[0]] + (fields[1..] + [(k, v)]) == fields + [(k, v)];
    }
  }

  /** Item assignment keeps a dict's keys distinct. */
  lemma UpdateDistinct(fields: seq<(string, Json)>, k: string, v: Json)
    requires DistinctKeys(fields)
    ensures DistinctKeys(Update(fields, k, v))
  {
    if Lookup(fields, k).None? {
      UpdateAppends(fields, k, v);
    }
  }

  /** The keys of a dict in iteration order. */
  function Keys(fields: seq<(string, Json)>): (r: seq<string>)
    ensures |r| == |fields|
    ensures forall i :: 0 <= i < |fields| ==> r[i] == fields[i].0
  {
    seq(|fields|, i requires 0 <= i < |fields| => fields[i].0)
  }

  /** Python truthiness of a decoded value. */
  predicate Truthy(v: Json) {
    match v
    case JNull => false
    case JBool(b) => b
    case JNum(n) => n != 0
    case JStr(s) => s != ""
    case JArr(es) => es != []
    case JObj(fs) => fs != []
    case Inflated(_, _) => true
  }

  /**
    Python's reading of index `i` into a sequence of length `n`: negative
    indices count from the end; anything outside `-n <= i < n` is an IndexError.
  */
  function PyIndex(i: int, n: nat): (r: Option<nat>)
    ensures r.Some? ==> r.value < n && (r.value == i || r.value == i + n)
    ensures r.None? <==> (i < -(n as int) || i >= n)
  {
    if 0 <= i < n then Some(i) else if -(n as int) <= i < 0 then Some(i + n) else None
  }

  /** `v[k]` with a string key: a dict's value, KeyError when absent; any other value raises TypeError. */
  function Subscript(v: Json, k: string): (r: Result<Json>)
    ensures r.Ok? <==> v.JObj? && Lookup(v.fields, k).Some?
    ensures r.Ok? ==> r.value == Lookup(v.fields, k).value
    ensures r.Err? ==> r.error == (if v.JObj? then KeyError else TypeError)
  {
    match v
    case JObj(fs) => (match Lookup(fs, k) case Some(x) => Ok(x) case None => Err(KeyError))
    case _ => Err(TypeError)
  }

  /** `v.get(k)`: a dict's value or None; any other value has no `get` (AttributeError). */
  function Get(v: Json, k: string): (r: Result<Option<Json>>)
    ensures r.Ok? <==> v.JObj?
    ensures r.Ok? ==> r.value == Lookup(v.fields, k)
    ensures r.Err? ==> r.error == AttributeError
  {
    match v
    case JObj(fs) => Ok(Lookup(fs, k))
    case _ => Err(AttributeError)
  }

  /** `v.get(k, default)` */
  function GetOr(v: Json, k: string, default: Json): (r: Result<Json>)
    ensures r.Ok? <==> v.JObj?
    ensures r.Ok? ==> r.value == Lookup(v.fields, k).GetOr(default)
    ensures r.Err? ==> r.error == AttributeError
  {
    var x :- Get(v, k);
    Ok(x.GetOr(default))
  }

  /** `v.items()`: a dict's entries in order; any other value raises AttributeError. */
  function Items(v: Json): (r: Result<seq<(string, Json)>>)
    ensures r.Ok? <==> v.JObj?
    ensures r.Ok? ==> r.value == v.fields
    ensures r.Err? ==> r.error == AttributeError
  {
    if v.JObj? then Ok(v.fields) else Err(AttributeError)
  }

  /** What the scanner iterates: `d.items()` of a dict, `enumerate(l)` of a list, nothing otherwise. */
  function Children(v: Json): (r: seq<(JsonKey, Json)>)
    ensures v.JObj? ==> |r| == |v.fields| && forall i :: 0 <= i < |r| ==> r[i] == (KStr(v.fields[i].0), v.fields[i].1)
    ensures v.JArr? ==> |r| == |v.elems| && forall i :: 0 <= i < |r| ==> r[i] == (KIdx(i), v.elems[i])
    ensures !v.JObj? && !v.JArr? ==> r == []
  {
    match v
    case JObj(fs) => seq(|fs|, i requires 0 <= i < |fs| => (KStr(fs[i].0), fs[i].1))
    case JArr(es) => seq(|es|, i requires 0 <= i < |es| => (KIdx(i), es[i]))
    case _ => []
  }

  /** A decimal integer as Python's `str(n)` writes it. */
  function IntToString(n: int): (r: string)
    ensures r != []
    ensures n >= 0 ==> r == NatToString(n)
    ensures n < 0 ==> r == "-" + NatToString(-n)
  {
    if n >= 0 then NatToString(n) else "-" + NatToString(-n)
  }

  /** `str(v)` inside an f-string, for scalars; containers are not modelled. */
  function PyStr(v: Json): (r: Result<string>)
    ensures v.JStr? ==> r == Ok(v.s)
    ensures r.Err? <==> !(v.JNull? || v.JBool? || v.JNum? || v.JStr?)
  {
    match v
    case JNull => Ok("None")
    case JBool(b) => Ok(if b then "True" else "False")
    case JNum(n) => Ok(IntToString(n))
    case JStr(s) => Ok(s)
    case _ => Err(NotModelled)
  }

  /** `int(str(n)) == n` for every integer. */
  lemma ParseIntOfIntToString(n: int)
    ensures ParseInt(IntToString(n)) == Ok(n)
  {
    DigitsValueOfNatToString(if n >= 0 then n else -n);
    if n < 0 {
      var s := IntToString(n);
      assert s[1..] == NatToString(-n);
    } else {
      var d := NatToString(n);
      assert d[0] != '-' && d[0] != '+';
    }
  }
}
