/**
  A decoded HTTP response whose JSON body has some of its parts replaced by
  schema instances. Each replacement is described by a list of path
  descriptors — `('object', key)` descends into a value, `('array', key)`
  applies the rest of the list to every item of a value — and the last
  descriptor names the slot (or, for a slice, the slots) to inflate.

  `Replay` specifies `_transformSchema`. Its flag `asWritten` selects the code
  as written (a `null` list item starts the rest of the path over at the
  root, and an unknown last descriptor reports the loop variable); without
  it, the corrected code (a `null` item is subscripted like any other value).
*/
module Responses {
  import opened Wrappers
  import opened Json
  import opened JsonPaths

  /** A Python subscript key: a str, an int, or a `slice(start, stop, step)`. */
  datatype Key = Name(s: string) | Index(i: int) | Slice(start: Option<int>, stop: Option<int>, step: Option<int>)

  /** A path descriptor `(itemType, itemKey)`. */
  datatype Step = Step(kind: string, key: Key)

  /** One entry of a status code's list: where the schema data sits, and the schema class to inflate it with. */
  datatype SchemaPath = SchemaPath(path: seq<Step>, schemaClass: string)

  /**
    What `currJsonItem` refers to: an object inside the transformed tree at a
    path, or a value that is not part of the tree (a character of a string,
    a dict key), whose changes nobody sees.
  */
  datatype Cursor = At(loc: seq<Hop>) | Detached(v: Json)

  /** Where `v[key]` lives: a dict entry, a list element, the listed elements of a list slice, or a new value. */
  datatype Slot = Field(k: string) | Elem(i: nat) | Picked(idxs: seq<nat>) | Fresh

  datatype Place = Place(slot: Slot, value: Json)

  /** Python's `range(start, stop, step)`, for a step that is not zero. */
  function Range(start: int, stop: int, step: int): (r: seq<int>)
    requires step != 0
    ensures step > 0 ==> forall j :: 0 <= j < |r| ==> start <= r[j] < stop
    ensures step < 0 ==> forall j :: 0 <= j < |r| ==> stop < r[j] <= start
    ensures forall j :: 0 < j < |r| ==> r[j] == r[j - 1] + step
    ensures |r| > 0 ==> r[0] == start
    ensures |r| == 0 <==> (if step > 0 then stop <= start else start <= stop)
    decreases if step > 0 then stop - start else start - stop
  {
    if (step > 0 && start < stop) || (step < 0 && start > stop)
    then [start] + Range(start + step, stop, step)
    else []
  }

  /** A range never repeats a number: it strictly rises or strictly falls. */
  lemma {:induction false} RangeStrict(start: int, stop: int, step: int)
    requires step != 0
    ensures step > 0 ==> forall a, b :: 0 <= a < b < |Range(start, stop, step)| ==> Range(start, stop, step)[a] < Range(start, stop, step)[b]
    ensures step < 0 ==> forall a, b :: 0 <= a < b < |Range(start, stop, step)| ==> Range(start, stop, step)[a] > Range(start, stop, step)[b]
    decreases if step > 0 then stop - start else start - stop
  {
    if (step > 0 && start < stop) || (step < 0 && start > stop) {
      RangeStrict(start + step, stop, step);
      var r := Range(start, stop, step);
      var t := Range(start + step, stop, step);
      assert r == [start] + t;
      forall a, b | 0 <= a < b < |r|
        ensures step > 0 ==> r[a] < r[b]
        ensures step < 0 ==> r[a] > r[b]
      {
        if a > 0 {
          assert r[a] == t[a - 1] && r[b] == t[b - 1];
        } else {
          assert r[b] == t[b - 1];
        }
      }
    }
  }

  /** A slice bound as `slice.indices(n)` adjusts it: negative counts from the end, then clamped. */
  function Clamp(b: int, n: nat, step: int): int {
    if b < 0 then (if b + n < 0 then (if step < 0 then -1 else 0) else b + n)
    else if b >= n then (if step < 0 then n - 1 else n)
    else b
  }

  /** The positions `seq[start:stop:step]` takes from a sequence of length `n`. */
  function SliceIndices(start: Option<int>, stop: Option<int>, step: Option<int>, n: nat): (r: Result<seq<nat>>)
    ensures r.Err? <==> step == Some(0)
    ensures r.Err? ==> r.error == ValueError("slice step cannot be zero")
    ensures r.Ok? ==> forall j :: 0 <= j < |r.value| ==> r.value[j] < n
  {
    var st := step.GetOr(1);
    if st == 0 then Err(ValueError("slice step cannot be zero"))
    else
      var a := if start.None? then (if st < 0 then n - 1 else 0) else Clamp(start.value, n, st);
      var b := if stop.None? then (if st < 0 then -1 else n) else Clamp(stop.value, n, st);
      assert st > 0 ==> 0 <= a <= n && 0 <= b <= n;
      assert st < 0 ==> -1 <= a < n && -1 <= b < n;
      var ix := Range(a, b, st);
      assert forall j :: 0 <= j < |ix| ==> 0 <= ix[j] < n;
      Ok(seq(|ix|, j requires 0 <= j < |ix| => ix[j] as nat))
  }

  /** `seq[:]` takes every position, in order. */
  lemma FullSlice(n: nat)
    ensures SliceIndices(None, None, None, n) == Ok(seq(n, j => j))
  {
    FullRange(0, n);
    var ix := Range(0, n, 1);
    assert seq(|ix|, j requires 0 <= j < |ix| => ix[j] as nat) == seq(n, j => j);
  }

  lemma {:induction false} FullRange(a: nat, n: nat)
    requires a <= n
    ensures Range(a, n, 1) == seq(n - a, j => a + j)
    decreases n - a
  {
    if a < n {
      FullRange(a + 1, n);
    }
  }

  /** The place `v[key]` reads, as Python subscription finds it for dicts, lists and strings. */
  function SlotOf(v: Json, key: Key): (r: Result<Place>)
    ensures r.Ok? && r.value.slot.Field? ==> v.JObj? && Lookup(v.fields, r.value.slot.k) == Some(r.value.value)
    ensures r.Ok? && r.value.slot.Elem? ==> v.JArr? && r.value.slot.i < |v.elems| && v.elems[r.value.slot.i] == r.value.value
    ensures r.Ok? && r.value.slot.Picked? ==>
      && v.JArr? && r.value.value.JArr? && |r.value.value.elems| == |r.value.slot.idxs|
      && forall j :: 0 <= j < |r.value.slot.idxs| ==>
        r.value.slot.idxs[j] < |v.elems| && r.value.value.elems[j] == v.elems[r.value.slot.idxs[j]]
    ensures r.Ok? && r.value.slot.Fresh? ==> v.JStr? && r.value.value.JStr?
  {
    match v
    case JObj(fs) =>
      (match key
       case Name(k) => (match Lookup(fs, k) case Some(x) => Ok(Place(Field(k), x)) case None => Err(KeyError))
       case Index(_) => Err(KeyError)
         // up to Python 3.11 a slice is not hashable, so it cannot be looked up in a dict
       case Slice(_, _, _) => Err(TypeError))
    case JArr(es) =>
      (match key
       case Index(i) => (match PyIndex(i, |es|) case Some(p) => Ok(Place(Elem(p), es[p])) case None => Err(IndexError))
       case Slice(a, b, c) =>
         var ix :- SliceIndices(a, b, c, |es|);
         Ok(Place(Picked(ix), JArr(seq(|ix|, j requires 0 <= j < |ix| => es[ix[j]]))))
       case Name(_) => Err(TypeError))
    case JStr(s) =>
      (match key
       case Index(i) => (match PyIndex(i, |s|) case Some(p) => Ok(Place(Fresh, JStr([s[p]]))) case None => Err(IndexError))
       case Slice(a, b, c) =>
         var ix :- SliceIndices(a, b, c, |s|);
         Ok(Place(Fresh, JStr(seq(|ix|, j requires 0 <= j < |ix| => s[ix[j]]))))
       case Name(_) => Err(TypeError))
    case _ => Err(TypeError)
  }

  /** `v[key]`: the value Python subscription yields, or the exception it raises. */
  function PyGet(v: Json, key: Key): (r: Result<Json>)
    ensures key.Name? ==> r == Subscript(v, key.s)
    ensures key.Index? && v.JArr? ==>
      r == (if PyIndex(key.i, |v.elems|).Some? then Ok(v.elems[PyIndex(key.i, |v.elems|).value]) else Err(IndexError))
    ensures v.JArr? && key.Slice? && key.step != Some(0) ==> r.Ok? && r.value.JArr?
    ensures v.JNull? || v.JBool? || v.JNum? || v.Inflated? ==> r == Err(TypeError)
  {
    var p :- SlotOf(v, key);
    Ok(p.value)
  }

  /** `len(v)` */
  function PyLen(v: Json): (r: Result<int>)
    ensures r.Ok? <==> v.JArr? || v.JObj? || v.JStr?
    ensures r.Ok? ==> r.value >= 0
    ensures r.Err? ==> r.error == TypeError
  {
    match v
    case JArr(es) => Ok(|es|)
    case JObj(fs) => Ok(|fs|)
    case JStr(s) => Ok(|s|)
    case _ => Err(TypeError)
  }

  /** What a cursor refers to in the tree `root`. */
  function ValueAt(root: Json, c: Cursor): Result<Json> {
    match c
    case At(loc) => (match GetAt(root, loc) case Some(x) => Ok(x) case None => Err(NotModelled))
    case Detached(v) => Ok(v)
  }

  /** The cursor for the part `h` of what `c` refers to, whose value is `x`. */
  function Into(c: Cursor, h: Hop, x: Json): Cursor {
    if c.At? then At(c.loc + [h]) else Detached(x)
  }

  /** The cursor for the place `p` inside what `c` refers to. */
  function Enter(c: Cursor, p: Place): Cursor {
    match p.slot
    case Field(k) => Into(c, LField(k), p.value)
    case Elem(i) => Into(c, LElem(i), p.value)
    case _ => Detached(p.value)
  }

  /** `currJsonItem = currJsonItem[itemKey]` */
  function ReadStep(root: Json, c: Cursor, key: Key): Result<Cursor> {
    var v :- ValueAt(root, c);
    var p :- SlotOf(v, key);
    // a list slice is a copy that shares the list's elements; a cursor cannot follow that
    if p.slot.Picked? then Err(NotModelled) else Ok(Enter(c, p))
  }

  /** The items `for nextJsonItem in x` visits: list elements, dict keys or characters, each with its value. */
  function Iterate(d: Cursor, x: Json): Result<seq<(Cursor, Json)>> {
    match x
    case JArr(es) => Ok(seq(|es|, j requires 0 <= j < |es| => (Into(d, LElem(j), es[j]), es[j])))
    case JObj(fs) => Ok(seq(|fs|, j requires 0 <= j < |fs| => (Detached(JStr(fs[j].0)), JStr(fs[j].0))))
    case JStr(s) => Ok(seq(|s|, j requires 0 <= j < |s| => (Detached(JStr([s[j]])), JStr([s[j]]))))
    case _ => Err(TypeError)
  }

  /** `for nextJsonItem in currJsonItem[itemKey]`: what the loop visits. */
  function FanItems(root: Json, c: Cursor, key: Key): Result<seq<(Cursor, Json)>> {
    var v :- ValueAt(root, c);
    var p :- SlotOf(v, key);
    match p.slot
    case Picked(ix) =>
      Ok(seq(|ix|, j requires 0 <= j < |ix| => (Into(c, LElem(ix[j]), p.value.elems[j]), p.value.elems[j])))
    case _ => Iterate(Enter(c, p), p.value)
  }

  /** Writes `x` at the part `h` of what `c` refers to; a detached value is changed where no one sees it. */
  function Store(root: Json, c: Cursor, h: Hop, x: Json): Json {
    if c.At? then SetAt(root, c.loc + [h], x) else root
  }

  /** `cur[key] = schemaClass.fromSerialized(cur[key])` */
  function WriteAt(root: Json, c: Cursor, key: Key, schemaClass: string): Result<Json> {
    var v :- ValueAt(root, c);
    var p :- SlotOf(v, key);
    match p.slot
    case Field(k) => Ok(Store(root, c, LField(k), Inflated(schemaClass, p.value)))
    case Elem(i) => Ok(Store(root, c, LElem(i), Inflated(schemaClass, p.value)))
      // a string has no item assignment; a list slice cannot be assigned a schema instance
    case _ => Err(TypeError)
  }

  /** The loop `for schemaIdx in idxs: cur[schemaIdx] = fromSerialized(cur[schemaIdx])`, from turn `j` on. */
  function WriteEach(root: Json, c: Cursor, idxs: seq<int>, schemaClass: string, j: nat): Result<Json>
    requires j <= |idxs|
    decreases |idxs| - j
  {
    if j == |idxs| then Ok(root)
    else
      var next :- WriteAt(root, c, Index(idxs[j]), schemaClass);
      WriteEach(next, c, idxs, schemaClass, j + 1)
  }

  /** A last `('array', slice)` descriptor: every index of `range(start or 0, stop or len(cur), step or 1)`. */
  function WriteSlice(root: Json, c: Cursor, start: Option<int>, stop: Option<int>, step: Option<int>, schemaClass: string): Result<Json> {
    var lo := start.GetOr(0);
    var hi :- if stop.Some? then Ok(stop.value) else (var v :- ValueAt(root, c); PyLen(v));
    var stride := step.GetOr(1);
    if stride == 0 then Err(ValueError("range() arg 3 must not be zero"))
    else WriteEach(root, c, Range(lo, hi, stride), schemaClass, 0)
  }

  /** The last descriptor of `path`, applied at `c`. */
  function Final(asWritten: bool, root: Json, path: seq<Step>, schemaClass: string, c: Cursor): Result<Json>
    requires |path| > 0
  {
    var last := path[|path| - 1];
    if last.kind == "object" then WriteAt(root, c, last.key, schemaClass)
    else if last.kind == "array" then
      match last.key
      case Index(_) => WriteAt(root, c, last.key, schemaClass)
      case Slice(a, b, s) => WriteSlice(root, c, a, b, s, schemaClass)
      case Name(_) => Err(KeyError)
    else if !asWritten then Err(ValueError(last.kind))
      // the message reads the loop variable, unbound when the loop did not run
    else if |path| == 1 then Err(UnboundLocalError)
    else Err(ValueError(path[|path| - 2].kind))
  }

  /** `_transformSchema(path, schemaClass, start)` on the tree `root`: the new tree, or the exception. */
  function Replay(asWritten: bool, root: Json, path: seq<Step>, schemaClass: string, start: Cursor): Result<Json>
    decreases |path|, 1, 0
  {
    if |path| == 0 then Err(IndexError) else Walk(asWritten, root, path, schemaClass, start, 0)
  }

  /** The descriptor loop of `_transformSchema` from descriptor `i` on, with `currJsonItem` at `c`. */
  function Walk(asWritten: bool, root: Json, path: seq<Step>, schemaClass: string, c: Cursor, i: nat): Result<Json>
    requires i < |path|
    decreases |path|, 0, |path| - i
  {
    if i == |path| - 1 then Final(asWritten, root, path, schemaClass, c)
    else if path[i].kind == "object" then
      var next :- ReadStep(root, c, path[i].key);
      Walk(asWritten, root, path, schemaClass, next, i + 1)
    else if path[i].kind == "array" then
      var items :- FanItems(root, c, path[i].key);
      FanOut(asWritten, root, path[i + 1..], schemaClass, items, 0)
    else Err(ValueError(path[i].kind))
  }

  /**
    The recursive calls for the items of an `('array', key)` descriptor, from
    item `j` on. As written, an item that is `None` starts over at the root;
    an item that an earlier call changed is not modelled.
  */
  function FanOut(asWritten: bool, root: Json, rest: seq<Step>, schemaClass: string, items: seq<(Cursor, Json)>, j: nat): Result<Json>
    requires j <= |items|
    decreases |rest|, 2, |items| - j
  {
    if j == |items| then Ok(root)
    else
      var (c, x) := items[j];
      if asWritten && ValueAt(root, c) != Ok(x) then Err(NotModelled)
      else
        var next :- Replay(asWritten, root, rest, schemaClass, if asWritten && x == JNull then At([]) else c);
        FanOut(asWritten, next, rest, schemaClass, items, j + 1)
  }

  /** The constructor's loop over the descriptor lists, from entry `j` on. */
  function ApplyAll(root: Json, list: seq<SchemaPath>, j: nat): Result<Json>
    requires j <= |list|
    decreases |list| - j
  {
    if j == |list| then Ok(root)
    else
      var next :- Replay(false, root, list[j].path, list[j].schemaClass, At([]));
      ApplyAll(next, list, j + 1)
  }

  /** The transformed body of a response with status `status`: only that code's descriptor lists apply. */
  function Transformed(status: int, body: Json, pathsFromCodes: map<int, seq<SchemaPath>>): Result<Json> {
    ApplyAll(body, if status in pathsFromCodes then pathsFromCodes[status] else [], 0)
  }

  class Response {
    /** `status_code` of the HTTP response. */
    const status: int
    /** `_jsonDict`, the decoded body as received. */
    const body: Json
    /** `_transformedJsonDict`, a second decoding of the body that the replay changes. */
    var transformed: Json

    constructor (status: int, body: Json)
      ensures this.status == status && this.body == body && transformed == body
    {
      this.status := status;
      this.body := body;
      transformed := body;
    }

    /** `self[key]`: subscription of the transformed body. */
    function GetItem(key: Key): (r: Result<Json>)
      reads this
      ensures key.Name? ==> r == Subscript(transformed, key.s)
      ensures r == PyGet(transformed, key)
    {
      PyGet(transformed, key)
    }

    /** `transform(fn)`: `fn` applied to the body as received, not to the transformed copy. */
    function Transform<T>(fn: Json -> T): (r: T)
      ensures r == fn(body)
    {
      fn(body)
    }

    /** `_transformSchema(path, schemaClass, start)`: changes `transformed` as `Replay` says. */
    method TransformSchema(path: seq<Step>, schemaClass: string, start: Cursor) returns (r: Outcome)
      modifies this
      decreases |path|
      ensures Agrees(r, Replay(false, old(transformed), path, schemaClass, start))
      ensures r.Pass? ==> transformed == Replay(false, old(transformed), path, schemaClass, start).value
    {
      if |path| == 0 {
        return Fail(IndexError);
      }
      ghost var spec := Replay(false, transformed, path, schemaClass, start);
      var cur := start;
      var i := 0;
      while i < |path| - 1
        invariant i < |path|
        invariant transformed == old(transformed)
        invariant Walk(false, transformed, path, schemaClass, cur, i) == spec
      {
        var step := path[i];
        if step.kind == "object" {
          var next := ReadStep(transformed, cur, step.key);
          if next.Err? {
            return Fail(next.error);
          }
          cur := next.value;
        } else if step.kind == "array" {
          var items := FanItems(transformed, cur, step.key);
          if items.Err? {
            return Fail(items.error);
          }
          var rest := path[i + 1..];
          var j := 0;
          while j < |items.value|
            invariant j <= |items.value|
            invariant FanOut(false, transformed, rest, schemaClass, items.value, j) == spec
          {
            r := TransformSchema(rest, schemaClass, items.value[j].0);
            if r.Fail? {
              return;
            }
            j := j + 1;
          }
          return Pass;
        } else {
          return Fail(ValueError(step.kind));
        }
        i := i + 1;
      }
      r := TransformLast(path, schemaClass, cur);
    }

    /** The last descriptor of `_transformSchema`, with `currJsonItem` at `cur`. */
    method TransformLast(path: seq<Step>, schemaClass: string, cur: Cursor) returns (r: Outcome)
      requires |path| > 0
      modifies this
      ensures Agrees(r, Final(false, old(transformed), path, schemaClass, cur))
      ensures r.Pass? ==> transformed == Final(false, old(transformed), path, schemaClass, cur).value
    {
      var last := path[|path| - 1];
      if last.kind == "object" || (last.kind == "array" && last.key.Index?) {
        var next := WriteAt(transformed, cur, last.key, schemaClass);
        if next.Err? {
          return Fail(next.error);
        }
        transformed := next.value;
        return Pass;
      } else if last.kind == "array" && last.key.Slice? {
        var lo := last.key.start.GetOr(0);
        var hi;
        if last.key.stop.Some? {
          hi := last.key.stop.value;
        } else {
          var v := ValueAt(transformed, cur);
          if v.Err? {
            return Fail(v.error);
          }
          var n := PyLen(v.value);
          if n.Err? {
            return Fail(n.error);
          }
          hi := n.value;
        }
        var stride := last.key.step.GetOr(1);
        if stride == 0 {
          return Fail(ValueError("range() arg 3 must not be zero"));
        }
        var idxs := Range(lo, hi, stride);
        ghost var spec := WriteEach(transformed, cur, idxs, schemaClass, 0);
        for j := 0 to |idxs|
          invariant WriteEach(transformed, cur, idxs, schemaClass, j) == spec
        {
          var next := WriteAt(transformed, cur, Index(idxs[j]), schemaClass);
          if next.Err? {
            return Fail(next.error);
          }
          transformed := next.value;
        }
        return Pass;
      } else if last.kind == "array" {
        return Fail(KeyError);
      } else {
        return Fail(ValueError(last.kind));
      }
    }
  }

  /**
    `Response(response, jsonSchemaPathsFromCodes)`: decodes the body twice and
    replays, on the second copy, every descriptor list registered for the
    response's status code. Returns the exception instead of raising it.
  */
  method NewResponse(status: int, body: Json, pathsFromCodes: map<int, seq<SchemaPath>>) returns (r: Result<Response>)
    ensures r.Ok? <==> Transformed(status, body, pathsFromCodes).Ok?
    ensures r.Err? ==> r.error == Transformed(status, body, pathsFromCodes).error
    ensures r.Ok? ==> && fresh(r.value)
                      && r.value.status == status
                      && r.value.body == body
                      && r.value.transformed == Transformed(status, body, pathsFromCodes).value
  {
    var resp := new Response(status, body);
    var list := if status in pathsFromCodes then pathsFromCodes[status] else [];
    ghost var spec := Transformed(status, body, pathsFromCodes);
    for j := 0 to |list|
      invariant ApplyAll(resp.transformed, list, j) == spec
    {
      var o := resp.TransformSchema(list[j].path, list[j].schemaClass, At([]));
      if o.Fail? {
        return Err(o.error);
      }
    }
    return Ok(resp);
  }
}
