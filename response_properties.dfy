/**
  What `_transformSchema` does to a response body, stated on `Replay`: each
  descriptor kind's effect, locality of the corrected replay (it only ever
  changes the part of the tree it was started on), and the error cases.
*/
module ResponseProperties {
  import opened Wrappers
  import opened Json
  import opened JsonPaths
  import opened Responses

  /** A cursor into a subtree, seen from the tree that holds the subtree at `L`. */
  function Shift(L: seq<Hop>, c: Cursor): Cursor {
    match c
    case At(loc) => At(L + loc)
    case Detached(v) => Detached(v)
  }

  function ShiftItems(L: seq<Hop>, items: seq<(Cursor, Json)>): (r: seq<(Cursor, Json)>)
    ensures |r| == |items|
  {
    seq(|items|, j requires 0 <= j < |items| => (Shift(L, items[j].0), items[j].1))
  }

  /** A result about a subtree, seen from the tree that holds the subtree at `L`. */
  function Lift(root: Json, L: seq<Hop>, r: Result<Json>): Result<Json> {
    if r.Ok? then Ok(SetAt(root, L, r.value)) else r
  }

  lemma ValueAtShift(root: Json, L: seq<Hop>, sub: Json, c: Cursor)
    requires GetAt(root, L) == Some(sub)
    ensures ValueAt(root, Shift(L, c)) == ValueAt(sub, c)
  {
    if c.At? {
      GetAtAppend(root, L, c.loc);
    }
  }

  lemma IntoShift(L: seq<Hop>, c: Cursor, h: Hop, x: Json)
    ensures Into(Shift(L, c), h, x) == Shift(L, Into(c, h, x))
  {
    if c.At? {
      assert (L + c.loc) + [h] == L + (c.loc + [h]);
    }
  }

  lemma EnterShift(L: seq<Hop>, c: Cursor, p: Place)
    ensures Enter(Shift(L, c), p) == Shift(L, Enter(c, p))
  {
    match p.slot
    case Field(k) => IntoShift(L, c, LField(k), p.value);
    case Elem(i) => IntoShift(L, c, LElem(i), p.value);
    case _ =>
  }

  lemma StoreShift(root: Json, L: seq<Hop>, sub: Json, c: Cursor, h: Hop, x: Json)
    requires GetAt(root, L) == Some(sub)
    ensures Store(root, Shift(L, c), h, x) == SetAt(root, L, Store(sub, c, h, x))
  {
    if c.At? {
      assert (L + c.loc) + [h] == L + (c.loc + [h]);
      SetAtAppend(root, L, c.loc + [h], x);
    } else {
      SetGetSame(root, L);
    }
  }

  lemma ReadStepShift(root: Json, L: seq<Hop>, sub: Json, c: Cursor, key: Key)
    requires GetAt(root, L) == Some(sub)
    ensures ReadStep(root, Shift(L, c), key) ==
      (var r := ReadStep(sub, c, key); if r.Ok? then Ok(Shift(L, r.value)) else Err(r.error))
  {
    ValueAtShift(root, L, sub, c);
    var v := ValueAt(sub, c);
    if v.Ok? {
      var p := SlotOf(v.value, key);
      if p.Ok? {
        EnterShift(L, c, p.value);
      }
    }
  }

  lemma IterateShift(L: seq<Hop>, d: Cursor, x: Json)
    ensures Iterate(Shift(L, d), x) ==
      (var r := Iterate(d, x); if r.Ok? then Ok(ShiftItems(L, r.value)) else Err(r.error))
  {
    match x
    case JArr(es) =>
      var a := Iterate(Shift(L, d), x).value;
      var b := ShiftItems(L, Iterate(d, x).value);
      forall j | 0 <= j < |es|
        ensures a[j] == b[j]
      {
        IntoShift(L, d, LElem(j), es[j]);
      }
      assert a == b;
    case JObj(fs) =>
      assert Iterate(Shift(L, d), x).value == ShiftItems(L, Iterate(d, x).value);
    case JStr(s) =>
      assert Iterate(Shift(L, d), x).value == ShiftItems(L, Iterate(d, x).value);
    case _ =>
  }

  lemma FanItemsShift(root: Json, L: seq<Hop>, sub: Json, c: Cursor, key: Key)
    requires GetAt(root, L) == Some(sub)
    ensures FanItems(root, Shift(L, c), key) ==
      (var r := FanItems(sub, c, key); if r.Ok? then Ok(ShiftItems(L, r.value)) else Err(r.error))
  {
    ValueAtShift(root, L, sub, c);
    var v := ValueAt(sub, c);
    if v.Ok? {
      var p := SlotOf(v.value, key);
      if p.Ok? {
        match p.value.slot
        case Picked(ix) =>
          var es := p.value.value.elems;
          var a := FanItems(root, Shift(L, c), key).value;
          var b := ShiftItems(L, FanItems(sub, c, key).value);
          forall j | 0 <= j < |ix|
            ensures a[j] == b[j]
          {
            IntoShift(L, c, LElem(ix[j]), es[j]);
          }
          assert a == b;
        case _ =>
          EnterShift(L, c, p.value);
          IterateShift(L, Enter(c, p.value), p.value.value);
      }
    }
  }

  lemma WriteAtShift(root: Json, L: seq<Hop>, sub: Json, c: Cursor, key: Key, schemaClass: string)
    requires GetAt(root, L) == Some(sub)
    ensures WriteAt(root, Shift(L, c), key, schemaClass) == Lift(root, L, WriteAt(sub, c, key, schemaClass))
  {
    ValueAtShift(root, L, sub, c);
    var v := ValueAt(sub, c);
    if v.Ok? {
      var p := SlotOf(v.value, key);
      if p.Ok? {
        match p.value.slot
        case Field(k) => StoreShift(root, L, sub, c, LField(k), Inflated(schemaClass, p.value.value));
        case Elem(i) => StoreShift(root, L, sub, c, LElem(i), Inflated(schemaClass, p.value.value));
        case _ =>
      }
    }
  }

  lemma {:induction false} WriteEachShift(root: Json, L: seq<Hop>, sub: Json, c: Cursor, idxs: seq<int>, schemaClass: string, j: nat)
    requires GetAt(root, L) == Some(sub)
    requires j <= |idxs|
    ensures WriteEach(root, Shift(L, c), idxs, schemaClass, j) == Lift(root, L, WriteEach(sub, c, idxs, schemaClass, j))
    decreases |idxs| - j
  {
    if j < |idxs| {
      WriteAtShift(root, L, sub, c, Index(idxs[j]), schemaClass);
      var w := WriteAt(sub, c, Index(idxs[j]), schemaClass);
      if w.Ok? {
        GetSetSame(root, L, w.value);
        WriteEachShift(SetAt(root, L, w.value), L, w.value, c, idxs, schemaClass, j + 1);
        var f := WriteEach(w.value, c, idxs, schemaClass, j + 1);
        if f.Ok? {
          SetSetSame(root, L, w.value, f.value);
        }
      }
    } else {
      SetGetSame(root, L);
    }
  }

  lemma FinalShift(root: Json, L: seq<Hop>, sub: Json, path: seq<Step>, schemaClass: string, c: Cursor)
    requires GetAt(root, L) == Some(sub)
    requires |path| > 0
    ensures Final(false, root, path, schemaClass, Shift(L, c)) == Lift(root, L, Final(false, sub, path, schemaClass, c))
  {
    var last := path[|path| - 1];
    if last.kind == "object" || (last.kind == "array" && last.key.Index?) {
      WriteAtShift(root, L, sub, c, last.key, schemaClass);
    } else if last.kind == "array" && last.key.Slice? {
      ValueAtShift(root, L, sub, c);
      var lo := last.key.start.GetOr(0);
      var stride := last.key.step.GetOr(1);
      var hi := if last.key.stop.Some? then Ok(last.key.stop.value) else (var v :- ValueAt(sub, c); PyLen(v));
      if hi.Ok? && stride != 0 {
        WriteEachShift(root, L, sub, c, Range(lo, hi.value, stride), schemaClass, 0);
      }
    }
  }

  /**
    Locality: the corrected replay started on a part of the tree only changes
    that part, exactly as a replay of the part on its own would.
  */
  lemma {:induction false} ReplayShift(root: Json, L: seq<Hop>, sub: Json, path: seq<Step>, schemaClass: string, c: Cursor)
    requires GetAt(root, L) == Some(sub)
    ensures Replay(false, root, path, schemaClass, Shift(L, c)) == Lift(root, L, Replay(false, sub, path, schemaClass, c))
    decreases |path|, 1, 0
  {
    if |path| > 0 {
      WalkShift(root, L, sub, path, schemaClass, c, 0);
    }
  }

  lemma {:induction false} WalkShift(root: Json, L: seq<Hop>, sub: Json, path: seq<Step>, schemaClass: string, c: Cursor, i: nat)
    requires GetAt(root, L) == Some(sub)
    requires i < |path|
    ensures Walk(false, root, path, schemaClass, Shift(L, c), i) == Lift(root, L, Walk(false, sub, path, schemaClass, c, i))
    decreases |path|, 0, |path| - i
  {
    if i == |path| - 1 {
      FinalShift(root, L, sub, path, schemaClass, c);
    } else if path[i].kind == "object" {
      ReadStepShift(root, L, sub, c, path[i].key);
      var next := ReadStep(sub, c, path[i].key);
      if next.Ok? {
        WalkShift(root, L, sub, path, schemaClass, next.value, i + 1);
      }
    } else if path[i].kind == "array" {
      FanItemsShift(root, L, sub, c, path[i].key);
      var items := FanItems(sub, c, path[i].key);
      if items.Ok? {
        FanOutShift(root, L, sub, path[i + 1..], schemaClass, items.value, 0);
      }
    }
  }

  lemma {:induction false} FanOutShift(root: Json, L: seq<Hop>, sub: Json, rest: seq<Step>, schemaClass: string, items: seq<(Cursor, Json)>, j: nat)
    requires GetAt(root, L) == Some(sub)
    requires j <= |items|
    ensures FanOut(false, root, rest, schemaClass, ShiftItems(L, items), j) == Lift(root, L, FanOut(false, sub, rest, schemaClass, items, j))
    decreases |rest|, 2, |items| - j
  {
    if j < |items| {
      var c := items[j].0;
      assert ShiftItems(L, items)[j].0 == Shift(L, c);
      ReplayShift(root, L, sub, rest, schemaClass, c);
      var r := Replay(false, sub, rest, schemaClass, c);
      if r.Ok? {
        GetSetSame(root, L, r.value);
        FanOutShift(SetAt(root, L, r.value), L, r.value, rest, schemaClass, items, j + 1);
        var f := FanOut(false, r.value, rest, schemaClass, items, j + 1);
        if f.Ok? {
          SetSetSame(root, L, r.value, f.value);
        }
      }
    } else {
      SetGetSame(root, L);
    }
  }

  /** The list items of the array at `L`, as `for item in array` visits them. */
  function ElemItems(L: seq<Hop>, es: seq<Json>): (r: seq<(Cursor, Json)>)
    ensures |r| == |es|
  {
    seq(|es|, j requires 0 <= j < |es| => (At(L + [LElem(j)]), es[j]))
  }

  /** The rest of a path replayed on each element of `es[j..]` on its own, as if each were a whole response. */
  function EachElem(es: seq<Json>, rest: seq<Step>, schemaClass: string, j: nat): (r: Result<seq<Json>>)
    requires j <= |es|
    ensures r.Ok? <==> forall i :: j <= i < |es| ==> Replay(false, es[i], rest, schemaClass, At([])).Ok?
    ensures r.Ok? ==> |r.value| == |es| - j
    ensures r.Ok? ==> forall i :: j <= i < |es| ==> r.value[i - j] == Replay(false, es[i], rest, schemaClass, At([])).value
    decreases |es| - j
  {
    if j == |es| then Ok([])
    else
      var y :- Replay(false, es[j], rest, schemaClass, At([]));
      var ys :- EachElem(es, rest, schemaClass, j + 1);
      Ok([y] + ys)
  }

  /** The rest of the path replayed at element `k` of the list at `L` only changes that element. */
  lemma ElemReplay(root: Json, L: seq<Hop>, cur: seq<Json>, rest: seq<Step>, schemaClass: string, k: nat)
    requires GetAt(root, L) == Some(JArr(cur))
    requires k < |cur|
    ensures Replay(false, root, rest, schemaClass, At(L + [LElem(k)])) ==
      (var y := Replay(false, cur[k], rest, schemaClass, At([])); if y.Ok? then Ok(SetAt(root, L, JArr(cur[k := y.value]))) else Err(y.error))
  {
    var L' := L + [LElem(k)];
    GetAtAppend(root, L, [LElem(k)]);
    assert Shift(L', At([])) == At(L') by {
      assert L' + [] == L';
    }
    ReplayShift(root, L', cur[k], rest, schemaClass, At([]));
    var y := Replay(false, cur[k], rest, schemaClass, At([]));
    if y.Ok? {
      SetAtElem(root, L, cur, k, y.value);
    }
  }

  lemma {:induction false} FanOutElemsFrom(root: Json, L: seq<Hop>, es: seq<Json>, cur: seq<Json>, rest: seq<Step>, schemaClass: string, k: nat)
    requires GetAt(root, L) == Some(JArr(cur))
    requires k <= |es| == |cur|
    requires cur[k..] == es[k..]
    ensures FanOut(false, root, rest, schemaClass, ElemItems(L, es), k) ==
      (var r := EachElem(es, rest, schemaClass, k); if r.Ok? then Ok(SetAt(root, L, JArr(cur[..k] + r.value))) else Err(r.error))
    decreases |es| - k
  {
    if k == |es| {
      assert cur[..k] + [] == cur;
      SetGetSame(root, L);
    } else {
      assert cur[k] == es[k] by {
        assert cur[k..][0] == es[k..][0];
      }
      ElemReplay(root, L, cur, rest, schemaClass, k);
      FanOutElemStep(root, L, es, rest, schemaClass, k);
      EachElemStep(es, rest, schemaClass, k);
      var y := Replay(false, es[k], rest, schemaClass, At([]));
      if y.Ok? {
        var cur' := cur[k := y.value];
        var root' := SetAt(root, L, JArr(cur'));
        GetSetSame(root, L, JArr(cur'));
        assert cur'[k + 1..] == es[k + 1..] by {
          assert cur'[k + 1..] == cur[k + 1..];
          assert cur[k + 1..] == cur[k..][1..];
        }
        FanOutElemsFrom(root', L, es, cur', rest, schemaClass, k + 1);
        var ys := EachElem(es, rest, schemaClass, k + 1);
        if ys.Ok? {
          ElemsRejoin(root, L, cur, k, y.value, ys.value);
        }
      }
    }
  }

  /** One turn of the loop over the list at `L`. */
  lemma FanOutElemStep(root: Json, L: seq<Hop>, es: seq<Json>, rest: seq<Step>, schemaClass: string, k: nat)
    requires k < |es|
    ensures FanOut(false, root, rest, schemaClass, ElemItems(L, es), k) ==
      (var y := Replay(false, root, rest, schemaClass, At(L + [LElem(k)]));
       if y.Err? then Err(y.error) else FanOut(false, y.value, rest, schemaClass, ElemItems(L, es), k + 1))
  {
    assert ElemItems(L, es)[k] == (At(L + [LElem(k)]), es[k]);
  }

  /** One element of `EachElem`. */
  lemma EachElemStep(es: seq<Json>, rest: seq<Step>, schemaClass: string, k: nat)
    requires k < |es|
    ensures EachElem(es, rest, schemaClass, k) ==
      (var y := Replay(false, es[k], rest, schemaClass, At([]));
       if y.Err? then Err(y.error)
       else var ys := EachElem(es, rest, schemaClass, k + 1); if ys.Err? then Err(ys.error) else Ok([y.value] + ys.value))
  {
  }

  /** Writing element `k` and then the list from `k + 1` on is writing the whole list once. */
  lemma ElemsRejoin(root: Json, L: seq<Hop>, cur: seq<Json>, k: nat, y: Json, ys: seq<Json>)
    requires GetAt(root, L) == Some(JArr(cur)) && k < |cur|
    ensures SetAt(SetAt(root, L, JArr(cur[k := y])), L, JArr(cur[k := y][..k + 1] + ys)) == SetAt(root, L, JArr(cur[..k] + ([y] + ys)))
  {
    SetSetSame(root, L, JArr(cur[k := y]), JArr(cur[k := y][..k + 1] + ys));
    UpdatePrefix(cur, k, y, ys);
  }

  /** The first `k + 1` elements after replacing element `k`, followed by `ys`. */
  lemma UpdatePrefix(cur: seq<Json>, k: nat, y: Json, ys: seq<Json>)
    requires k < |cur|
    ensures cur[k := y][..k + 1] + ys == cur[..k] + ([y] + ys)
  {
    assert cur[k := y][..k + 1] == cur[..k] + [y];
  }

  /**
    A list at `L` that an `('array', key)` descriptor iterates: the rest of
    the path is applied to each element on its own; the list keeps its length
    and order, and the first element that fails decides the exception.
  */
  lemma FanOutElems(root: Json, L: seq<Hop>, es: seq<Json>, rest: seq<Step>, schemaClass: string)
    requires GetAt(root, L) == Some(JArr(es))
    ensures FanOut(false, root, rest, schemaClass, ElemItems(L, es), 0) ==
      (var r := EachElem(es, rest, schemaClass, 0); if r.Ok? then Ok(SetAt(root, L, JArr(r.value))) else Err(r.error))
  {
    FanOutElemsFrom(root, L, es, es, rest, schemaClass, 0);
    var r := EachElem(es, rest, schemaClass, 0);
    if r.Ok? {
      assert es[..0] + r.value == r.value;
    }
  }

  /**
    The descriptor `('array', key)` at position `i` of a longer path, where
    `cur[key]` is a dict value or list element holding a list (or `key` is
    `slice(None)` and `cur` is the list): the list's elements each get the
    rest of the path on their own.
  */
  lemma ArrayStep(root: Json, path: seq<Step>, schemaClass: string, loc: seq<Hop>, i: nat, arr: seq<Hop>, es: seq<Json>)
    requires i < |path| - 1 && path[i].kind == "array"
    requires GetAt(root, arr) == Some(JArr(es))
    requires GetAt(root, loc).Some?
    requires var v := GetAt(root, loc).value;
      || (path[i].key.Name? && v.JObj? && arr == loc + [LField(path[i].key.s)])
      || (path[i].key.Index? && v.JArr? && PyIndex(path[i].key.i, |v.elems|).Some? && arr == loc + [LElem(PyIndex(path[i].key.i, |v.elems|).value)])
      || (path[i].key == Slice(None, None, None) && arr == loc)
    ensures Walk(false, root, path, schemaClass, At(loc), i) ==
      (var r := EachElem(es, path[i + 1..], schemaClass, 0); if r.Ok? then Ok(SetAt(root, arr, JArr(r.value))) else Err(r.error))
  {
    var v := GetAt(root, loc).value;
    var key := path[i].key;
    var items := FanItems(root, At(loc), key);
    if key == Slice(None, None, None) && arr == loc {
      FullSlice(|es|);
      assert v == JArr(es);
      var p := SlotOf(v, key).value;
      assert p.slot == Picked(seq(|es|, j => j)) && p.value.elems == es;
      assert items.value == ElemItems(arr, es);
    } else if key.Name? && v.JObj? && arr == loc + [LField(key.s)] {
      GetAtAppend(root, loc, [LField(key.s)]);
      assert SlotOf(v, key) == Ok(Place(Field(key.s), JArr(es)));
      assert items.value == ElemItems(arr, es);
    } else {
      var n := PyIndex(key.i, |v.elems|).value;
      GetAtAppend(root, loc, [LElem(n)]);
      assert SlotOf(v, key) == Ok(Place(Elem(n), JArr(es)));
      assert items.value == ElemItems(arr, es);
    }
    FanOutElems(root, arr, es, path[i + 1..], schemaClass);
  }

  /**
    A last `('object', k)` descriptor on a dict at `loc`: `cur[k]` becomes the
    schema instance made from it and every other key keeps its value; a
    missing key raises KeyError.
  */
  lemma FinalObjectStep(asWritten: bool, root: Json, path: seq<Step>, schemaClass: string, loc: seq<Hop>, fs: seq<(string, Json)>, k: string)
    requires |path| > 0 && path[|path| - 1] == Step("object", Name(k))
    requires GetAt(root, loc) == Some(JObj(fs))
    ensures Lookup(fs, k).None? ==> Final(asWritten, root, path, schemaClass, At(loc)) == Err(KeyError)
    ensures Lookup(fs, k).Some? ==>
      Final(asWritten, root, path, schemaClass, At(loc)) == Ok(SetAt(root, loc, JObj(Update(fs, k, Inflated(schemaClass, Lookup(fs, k).value)))))
  {
    assert Final(asWritten, root, path, schemaClass, At(loc)) == WriteAt(root, At(loc), Name(k), schemaClass);
    WriteField(root, loc, fs, k, schemaClass);
  }

  /** `cur[k] = fromSerialized(cur[k])` on a dict at `loc`. */
  lemma WriteField(root: Json, loc: seq<Hop>, fs: seq<(string, Json)>, k: string, schemaClass: string)
    requires GetAt(root, loc) == Some(JObj(fs))
    ensures Lookup(fs, k).None? ==> WriteAt(root, At(loc), Name(k), schemaClass) == Err(KeyError)
    ensures Lookup(fs, k).Some? ==>
      WriteAt(root, At(loc), Name(k), schemaClass) == Ok(SetAt(root, loc, JObj(Update(fs, k, Inflated(schemaClass, Lookup(fs, k).value)))))
  {
    if Lookup(fs, k).Some? {
      var x := Inflated(schemaClass, Lookup(fs, k).value);
      assert SlotOf(JObj(fs), Name(k)) == Ok(Place(Field(k), Lookup(fs, k).value));
      SetAtField(root, loc, fs, k, x);
    }
  }

  /**
    A last `('array', i)` descriptor with an int `i` on a list at `loc`: only
    element `i` (counted from the end when negative) is replaced; an index
    outside the list raises IndexError.
  */
  lemma FinalIndexStep(asWritten: bool, root: Json, path: seq<Step>, schemaClass: string, loc: seq<Hop>, es: seq<Json>, i: int)
    requires |path| > 0 && path[|path| - 1] == Step("array", Index(i))
    requires GetAt(root, loc) == Some(JArr(es))
    ensures PyIndex(i, |es|).None? ==> Final(asWritten, root, path, schemaClass, At(loc)) == Err(IndexError)
    ensures PyIndex(i, |es|).Some? ==>
      var n := PyIndex(i, |es|).value;
      Final(asWritten, root, path, schemaClass, At(loc)) == Ok(SetAt(root, loc, JArr(es[n := Inflated(schemaClass, es[n])])))
  {
    assert Final(asWritten, root, path, schemaClass, At(loc)) == WriteAt(root, At(loc), Index(i), schemaClass);
    WriteIndex(root, loc, es, i, schemaClass);
  }

  /** `es` with the elements at the positions in `idxs` replaced by schema instances made from them. */
  function InflateAt(es: seq<Json>, idxs: seq<int>, schemaClass: string): (r: seq<Json>)
    ensures |r| == |es|
  {
    seq(|es|, m requires 0 <= m < |es| => if m in idxs then Inflated(schemaClass, es[m]) else es[m])
  }

  /** One turn of the slice loop on a list: it stays a list of the same length. */
  lemma WriteIndex(root: Json, loc: seq<Hop>, cur: seq<Json>, x: int, schemaClass: string)
    requires GetAt(root, loc) == Some(JArr(cur))
    ensures PyIndex(x, |cur|).None? ==> WriteAt(root, At(loc), Index(x), schemaClass) == Err(IndexError)
    ensures PyIndex(x, |cur|).Some? ==>
      var n := PyIndex(x, |cur|).value;
      && WriteAt(root, At(loc), Index(x), schemaClass) == Ok(SetAt(root, loc, JArr(cur[n := Inflated(schemaClass, cur[n])])))
      && GetAt(SetAt(root, loc, JArr(cur[n := Inflated(schemaClass, cur[n])])), loc) == Some(JArr(cur[n := Inflated(schemaClass, cur[n])]))
  {
    if PyIndex(x, |cur|).Some? {
      var n := PyIndex(x, |cur|).value;
      var cur' := cur[n := Inflated(schemaClass, cur[n])];
      assert SlotOf(JArr(cur), Index(x)) == Ok(Place(Elem(n), cur[n]));
      SetAtElem(root, loc, cur, n, Inflated(schemaClass, cur[n]));
      GetSetSame(root, loc, JArr(cur'));
    }
  }

  lemma {:induction false} WriteEachListOk(root: Json, loc: seq<Hop>, cur: seq<Json>, idxs: seq<int>, schemaClass: string, j: nat)
    requires GetAt(root, loc) == Some(JArr(cur))
    requires j <= |idxs|
    ensures WriteEach(root, At(loc), idxs, schemaClass, j).Ok? <==>
      forall m :: j <= m < |idxs| ==> -|cur| <= idxs[m] < |cur|
    decreases |idxs| - j
  {
    if j < |idxs| {
      var x := idxs[j];
      WriteIndex(root, loc, cur, x, schemaClass);
      if PyIndex(x, |cur|).Some? {
        var n := PyIndex(x, |cur|).value;
        var cur' := cur[n := Inflated(schemaClass, cur[n])];
        var root' := SetAt(root, loc, JArr(cur'));
        assert WriteEach(root, At(loc), idxs, schemaClass, j) == WriteEach(root', At(loc), idxs, schemaClass, j + 1);
        WriteEachListOk(root', loc, cur', idxs, schemaClass, j + 1);
        InRangeFrom(idxs, |cur|, j);
      } else {
        assert WriteEach(root, At(loc), idxs, schemaClass, j).Err?;
      }
    }
  }

  /** Every index from `j` on is in range exactly when index `j` is and every index after it is. */
  lemma InRangeFrom(idxs: seq<int>, n: int, j: nat)
    requires j < |idxs| && -n <= idxs[j] < n
    ensures (forall m :: j <= m < |idxs| ==> -n <= idxs[m] < n) <==> (forall m :: j + 1 <= m < |idxs| ==> -n <= idxs[m] < n)
  {
  }

  /** Inflating one more position in front of the rest. */
  lemma InflateAtCons(cur: seq<Json>, x: nat, idxs: seq<int>, schemaClass: string)
    requires x < |cur| && x !in idxs
    ensures InflateAt(cur[x := Inflated(schemaClass, cur[x])], idxs, schemaClass) == InflateAt(cur, [x] + idxs, schemaClass)
  {
    var a := InflateAt(cur[x := Inflated(schemaClass, cur[x])], idxs, schemaClass);
    var b := InflateAt(cur, [x] + idxs, schemaClass);
    forall m | 0 <= m < |cur|
      ensures a[m] == b[m]
    {
      assert (m in [x] + idxs) <==> (m == x || m in idxs);
    }
  }

  lemma {:induction false} WriteEachListInflates(root: Json, loc: seq<Hop>, cur: seq<Json>, idxs: seq<int>, schemaClass: string, j: nat)
    requires GetAt(root, loc) == Some(JArr(cur))
    requires j <= |idxs|
    requires forall m :: j <= m < |idxs| ==> 0 <= idxs[m] < |cur|
    requires forall a, b :: j <= a < b < |idxs| ==> idxs[a] != idxs[b]
    ensures WriteEach(root, At(loc), idxs, schemaClass, j) == Ok(SetAt(root, loc, JArr(InflateAt(cur, idxs[j..], schemaClass))))
    decreases |idxs| - j
  {
    if j == |idxs| {
      SetGetSame(root, loc);
      assert InflateAt(cur, idxs[j..], schemaClass) == cur;
    } else {
      var x := idxs[j];
      WriteIndex(root, loc, cur, x, schemaClass);
      var cur' := cur[x := Inflated(schemaClass, cur[x])];
      var root' := SetAt(root, loc, JArr(cur'));
      assert WriteEach(root, At(loc), idxs, schemaClass, j) == WriteEach(root', At(loc), idxs, schemaClass, j + 1);
      WriteEachListInflates(root', loc, cur', idxs, schemaClass, j + 1);
      SetSetSame(root, loc, JArr(cur'), JArr(InflateAt(cur', idxs[j + 1..], schemaClass)));
      InflateAtFrom(cur, idxs, schemaClass, j);
    }
  }

  /** Inflating position `idxs[j]` first and then the positions after it is inflating them all. */
  lemma InflateAtFrom(cur: seq<Json>, idxs: seq<int>, schemaClass: string, j: nat)
    requires j < |idxs| && 0 <= idxs[j] < |cur|
    requires forall a, b :: j <= a < b < |idxs| ==> idxs[a] != idxs[b]
    ensures InflateAt(cur[idxs[j] := Inflated(schemaClass, cur[idxs[j]])], idxs[j + 1..], schemaClass) == InflateAt(cur, idxs[j..], schemaClass)
  {
    var x := idxs[j];
    var rest := idxs[j + 1..];
    assert idxs[j..] == [x] + rest;
    assert x !in rest by {
      forall m | 0 <= m < |rest|
        ensures rest[m] != x
      {
        assert rest[m] == idxs[j + 1 + m];
      }
    }
    InflateAtCons(cur, x, rest, schemaClass);
  }

  /** `range(start or 0, stop or n, step or 1)`, the indices a last slice descriptor visits on a list of length `n`. */
  function SliceRange(start: Option<int>, stop: Option<int>, step: Option<int>, n: nat): seq<int>
    requires step != Some(0)
  {
    Range(start.GetOr(0), stop.GetOr(n), step.GetOr(1))
  }

  lemma FinalSliceLoop(asWritten: bool, root: Json, path: seq<Step>, schemaClass: string, loc: seq<Hop>, es: seq<Json>,
                       start: Option<int>, stop: Option<int>, step: Option<int>)
    requires |path| > 0 && path[|path| - 1] == Step("array", Slice(start, stop, step))
    requires GetAt(root, loc) == Some(JArr(es))
    ensures step == Some(0) ==> Final(asWritten, root, path, schemaClass, At(loc)) == Err(ValueError("range() arg 3 must not be zero"))
    ensures step != Some(0) ==>
      Final(asWritten, root, path, schemaClass, At(loc)) == WriteEach(root, At(loc), SliceRange(start, stop, step, |es|), schemaClass, 0)
  {
  }

  /**
    A last `('array', slice(start, stop, step))` descriptor on a list at
    `loc`: the loop runs over `range(start or 0, stop or len(cur), step or 1)`;
    it fails exactly when the step is zero or an index falls outside the list,
    and for indices within the list it replaces exactly those elements.
  */
  lemma FinalSliceStep(asWritten: bool, root: Json, path: seq<Step>, schemaClass: string, loc: seq<Hop>, es: seq<Json>,
                       start: Option<int>, stop: Option<int>, step: Option<int>)
    requires |path| > 0 && path[|path| - 1] == Step("array", Slice(start, stop, step))
    requires GetAt(root, loc) == Some(JArr(es))
    ensures step == Some(0) ==> Final(asWritten, root, path, schemaClass, At(loc)) == Err(ValueError("range() arg 3 must not be zero"))
    ensures step != Some(0) ==>
      var idxs := SliceRange(start, stop, step, |es|);
      && (Final(asWritten, root, path, schemaClass, At(loc)).Ok? <==> forall m :: 0 <= m < |idxs| ==> -|es| <= idxs[m] < |es|)
      && ((forall m :: 0 <= m < |idxs| ==> 0 <= idxs[m] < |es|) ==>
            Final(asWritten, root, path, schemaClass, At(loc)) == Ok(SetAt(root, loc, JArr(InflateAt(es, idxs, schemaClass)))))
  {
    FinalSliceLoop(asWritten, root, path, schemaClass, loc, es, start, stop, step);
    if step != Some(0) {
      var idxs := SliceRange(start, stop, step, |es|);
      WriteEachListOk(root, loc, es, idxs, schemaClass, 0);
      if forall m :: 0 <= m < |idxs| ==> 0 <= idxs[m] < |es| {
        RangeStrict(start.GetOr(0), stop.GetOr(|es|), step.GetOr(1));
        WriteEachListInflates(root, loc, es, idxs, schemaClass, 0);
        assert idxs[0..] == idxs;
      }
    }
  }

  /** Paths made only of `('object', name)` descriptors. */
  predicate ObjectPath(path: seq<Step>) {
    forall i :: 0 <= i < |path| ==> path[i].kind == "object" && path[i].key.Name?
  }

  /** The dict keys such a path names, as a place in the tree. */
  function Fields(path: seq<Step>): (r: seq<Hop>)
    requires ObjectPath(path)
    ensures |r| == |path|
  {
    seq(|path|, i requires 0 <= i < |path| => LField(path[i].key.s))
  }

  lemma {:induction false} WalkObjects(asWritten: bool, root: Json, path: seq<Step>, schemaClass: string, loc: seq<Hop>, i: nat)
    requires ObjectPath(path) && i < |path|
    requires GetAt(root, loc).Some?
    ensures Walk(asWritten, root, path, schemaClass, At(loc), i).Ok? <==> GetAt(root, loc + Fields(path)[i..]).Some?
    ensures Walk(asWritten, root, path, schemaClass, At(loc), i).Ok? ==>
      Walk(asWritten, root, path, schemaClass, At(loc), i) ==
        Ok(SetAt(root, loc + Fields(path)[i..], Inflated(schemaClass, GetAt(root, loc + Fields(path)[i..]).value)))
    decreases |path| - i
  {
    var k := path[i].key.s;
    var v := GetAt(root, loc).value;
    if i == |path| - 1 {
      WalkObjectsLast(asWritten, root, path, schemaClass, loc);
    } else {
      GetAtAppend(root, loc, [LField(k)]);
      assert Fields(path)[i..] == [LField(k)] + Fields(path)[i + 1..];
      assert loc + Fields(path)[i..] == (loc + [LField(k)]) + Fields(path)[i + 1..];
      GetAtAppend(root, loc + [LField(k)], Fields(path)[i + 1..]);
      WalkObjectStep(asWritten, root, path, schemaClass, loc, i);
      if v.JObj? && Lookup(v.fields, k).Some? {
        WalkObjects(asWritten, root, path, schemaClass, loc + [LField(k)], i + 1);
      }
    }
  }

  /** `WalkObjects` at the last descriptor of the path. */
  lemma WalkObjectsLast(asWritten: bool, root: Json, path: seq<Step>, schemaClass: string, loc: seq<Hop>)
    requires ObjectPath(path) && |path| > 0
    requires GetAt(root, loc).Some?
    ensures var i := |path| - 1;
      && (Walk(asWritten, root, path, schemaClass, At(loc), i).Ok? <==> GetAt(root, loc + Fields(path)[i..]).Some?)
      && (Walk(asWritten, root, path, schemaClass, At(loc), i).Ok? ==>
        Walk(asWritten, root, path, schemaClass, At(loc), i) ==
          Ok(SetAt(root, loc + Fields(path)[i..], Inflated(schemaClass, GetAt(root, loc + Fields(path)[i..]).value))))
  {
    var i := |path| - 1;
    var k := path[i].key.s;
    var v := GetAt(root, loc).value;
    GetAtAppend(root, loc, [LField(k)]);
    assert Fields(path)[i..] == [LField(k)];
    assert path[i] == Step("object", Name(k));
    if v.JObj? {
      FinalObjectStep(asWritten, root, path, schemaClass, loc, v.fields, k);
      if Lookup(v.fields, k).Some? {
        SetAtField(root, loc, v.fields, k, Inflated(schemaClass, Lookup(v.fields, k).value));
      }
    } else {
      assert Walk(asWritten, root, path, schemaClass, At(loc), i) == WriteAt(root, At(loc), Name(k), schemaClass);
    }
  }

  /** An `('object', k)` descriptor before the last moves the cursor to `cur[k]`, or fails. */
  lemma WalkObjectStep(asWritten: bool, root: Json, path: seq<Step>, schemaClass: string, loc: seq<Hop>, i: nat)
    requires ObjectPath(path) && i < |path| - 1
    requires GetAt(root, loc).Some?
    ensures var k := path[i].key.s; var v := GetAt(root, loc).value;
      if v.JObj? && Lookup(v.fields, k).Some?
      then Walk(asWritten, root, path, schemaClass, At(loc), i) == Walk(asWritten, root, path, schemaClass, At(loc + [LField(k)]), i + 1)
      else Walk(asWritten, root, path, schemaClass, At(loc), i).Err?
  {
    var k := path[i].key.s;
    var v := GetAt(root, loc).value;
    assert path[i].kind == "object" && path[i].key == Name(k);
    if v.JObj? && Lookup(v.fields, k).Some? {
      assert ReadStep(root, At(loc), path[i].key) == Ok(At(loc + [LField(k)]));
    }
  }

  /**
    A path of `('object', name)` descriptors only: it succeeds exactly when
    every key exists along the way, and then only the value at its end is
    replaced — every part of the tree apart from that place is unchanged.
  */
  lemma ObjectPathReplay(asWritten: bool, root: Json, path: seq<Step>, schemaClass: string)
    requires ObjectPath(path) && |path| > 0
    ensures Replay(asWritten, root, path, schemaClass, At([])).Ok? <==> GetAt(root, Fields(path)).Some?
    ensures GetAt(root, Fields(path)).Some? ==>
      var r := Replay(asWritten, root, path, schemaClass, At([])).value;
      && r == SetAt(root, Fields(path), Inflated(schemaClass, GetAt(root, Fields(path)).value))
      && GetAt(r, Fields(path)) == Some(Inflated(schemaClass, GetAt(root, Fields(path)).value))
      && forall b :: Apart(Fields(path), b) ==> GetAt(r, b) == GetAt(root, b)
  {
    WalkObjects(asWritten, root, path, schemaClass, [], 0);
    assert [] + Fields(path)[0..] == Fields(path);
    if GetAt(root, Fields(path)).Some? {
      var x := Inflated(schemaClass, GetAt(root, Fields(path)).value);
      GetSetSame(root, Fields(path), x);
      forall b | Apart(Fields(path), b)
        ensures GetAt(SetAt(root, Fields(path), x), b) == GetAt(root, b)
      {
        GetSetApart(root, Fields(path), x, b);
      }
    }
  }

  /**
    Error cases: an empty path fails at `path[-1]`; an unknown descriptor kind
    before the last raises ValueError; a last `('array', name)` raises KeyError.
  */
  lemma ReplayErrors(asWritten: bool, root: Json, path: seq<Step>, schemaClass: string, start: Cursor)
    ensures path == [] ==> Replay(asWritten, root, path, schemaClass, start) == Err(IndexError)
    ensures |path| > 1 && path[0].kind != "object" && path[0].kind != "array" ==>
      Replay(asWritten, root, path, schemaClass, start) == Err(ValueError(path[0].kind))
    ensures |path| > 0 && path[|path| - 1].kind == "array" && path[|path| - 1].key.Name? ==>
      Final(asWritten, root, path, schemaClass, start) == Err(KeyError)
  {
  }

  /** A last descriptor of unknown kind: ValueError naming that kind, once corrected. */
  lemma FinalUnknownKind(root: Json, path: seq<Step>, schemaClass: string, c: Cursor)
    requires |path| > 0 && path[|path| - 1].kind != "object" && path[|path| - 1].kind != "array"
    ensures Final(false, root, path, schemaClass, c) == Err(ValueError(path[|path| - 1].kind))
  {
  }

  /**
    As written, the message of that ValueError reads the loop variable of the
    descriptor loop: it names the kind of the next-to-last descriptor, and a
    one-descriptor path, where the loop never ran, raises UnboundLocalError.
  */
  lemma FinalUnknownKindAsWritten(root: Json, path: seq<Step>, schemaClass: string, c: Cursor)
    requires |path| > 0 && path[|path| - 1].kind != "object" && path[|path| - 1].kind != "array"
    ensures Final(true, root, path, schemaClass, c) ==
      if |path| == 1 then Err(UnboundLocalError) else Err(ValueError(path[|path| - 2].kind))
  {
  }

  /**
    Only the lists registered for the response's own status code are
    replayed: an unregistered code leaves the body as received, and what is
    registered for other codes makes no difference.
  */
  lemma OwnCodeOnly(status: int, body: Json, p: map<int, seq<SchemaPath>>, q: map<int, seq<SchemaPath>>)
    requires status in p <==> status in q
    requires status in p ==> p[status] == q[status]
    ensures Transformed(status, body, p) == Transformed(status, body, q)
    ensures status !in p ==> Transformed(status, body, p) == Ok(body)
  {
  }

  /** The items `('array', 'xs')` visits in the example of the `null` item. */
  lemma NullItemFanItems()
    ensures FanItems(JObj([("xs", JArr([JNull])), ("v", JNum(1))]), At([]), Name("xs")) == Ok([(At([LField("xs"), LElem(0)]), JNull)])
  {
    var root := JObj([("xs", JArr([JNull])), ("v", JNum(1))]);
    var p := Place(Field("xs"), JArr([JNull]));
    assert SlotOf(root, Name("xs")) == Ok(p);
    var d := At([LField("xs")]);
    assert Enter(At([]), p) == d by {
      assert [] + [LField("xs")] == [LField("xs")];
    }
    var it := Iterate(d, JArr([JNull])).value;
    assert |it| == 1;
    assert it[0] == (At([LField("xs")] + [LElem(0)]), JNull);
    assert [LField("xs")] + [LElem(0)] == [LField("xs"), LElem(0)];
    assert it == [(At([LField("xs"), LElem(0)]), JNull)];
  }

  /** The `null` item of the example, where the loop finds it. */
  lemma NullItemAt()
    ensures GetAt(JObj([("xs", JArr([JNull])), ("v", JNum(1))]), [LField("xs"), LElem(0)]) == Some(JNull)
  {
    var fs := [("xs", JArr([JNull])), ("v", JNum(1))];
    var loc := [LField("xs"), LElem(0)];
    assert Lookup(fs, "xs") == Some(JArr([JNull]));
    assert loc[1..] == [LElem(0)];
    assert GetAt(JArr([JNull]), [LElem(0)]) == Some(JNull);
  }

  /** As written: a `null` list item sends the rest of the path back to the root of the response. */
  lemma NullItemAsWritten()
    ensures var root := JObj([("xs", JArr([JNull])), ("v", JNum(1))]);
      Replay(true, root, [Step("array", Name("xs")), Step("object", Name("v"))], "C", At([]))
        == Ok(JObj([("xs", JArr([JNull])), ("v", Inflated("C", JNum(1)))]))
  {
    var fs := [("xs", JArr([JNull])), ("v", JNum(1))];
    var root := JObj(fs);
    var path := [Step("array", Name("xs")), Step("object", Name("v"))];
    var rest := [Step("object", Name("v"))];
    var items := [(At([LField("xs"), LElem(0)]), JNull)];
    var root' := JObj([("xs", JArr([JNull])), ("v", Inflated("C", JNum(1)))]);
    NullItemFanItems();
    assert path[1..] == rest;
    assert Replay(true, root, path, "C", At([])) == FanOut(true, root, rest, "C", items, 0);
    NullItemRest(fs, root');
    NullItemAt();
    assert FanOut(true, root, rest, "C", items, 0) == FanOut(true, root', rest, "C", items, 1);
  }

  /** The rest of the path in the example of the `null` item, replayed from the root. */
  lemma NullItemRest(fs: seq<(string, Json)>, root': Json)
    requires fs == [("xs", JArr([JNull])), ("v", JNum(1))]
    requires root' == JObj([("xs", JArr([JNull])), ("v", Inflated("C", JNum(1)))])
    ensures Replay(true, JObj(fs), [Step("object", Name("v"))], "C", At([])) == Ok(root')
  {
    var x := Inflated("C", JNum(1));
    assert Lookup(fs, "v") == Some(JNum(1));
    assert Update(fs, "v", x) == [("xs", JArr([JNull])), ("v", x)] by {
      assert fs[1..] == [("v", JNum(1))];
      assert Update(fs[1..], "v", x) == [("v", x)] + fs[2..];
      assert fs[2..] == [];
    }
    FinalObjectStep(true, JObj(fs), [Step("object", Name("v"))], "C", [], fs, "v");
  }

  /** Corrected: the `null` item is subscripted like any other value, which raises TypeError. */
  lemma NullItemCorrected()
    ensures var root := JObj([("xs", JArr([JNull])), ("v", JNum(1))]);
      Replay(false, root, [Step("array", Name("xs")), Step("object", Name("v"))], "C", At([])) == Err(TypeError)
  {
    var root := JObj([("xs", JArr([JNull])), ("v", JNum(1))]);
    var path := [Step("array", Name("xs")), Step("object", Name("v"))];
    NullItemFanItems();
    NullItemAt();
    assert path[1..] == [Step("object", Name("v"))];
  }
}
