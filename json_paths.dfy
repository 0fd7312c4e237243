/**
  Places inside a decoded JSON tree. A Python reference to a nested dict or
  list is modelled by the path of keys and indices that reaches it from the
  root; writing through the reference is `SetAt` on that path.
*/
module JsonPaths {
  import opened Wrappers
  import opened Json

  /** One hop down: the value of a dict key, or a list element. */
  datatype Hop = LField(k: string) | LElem(i: nat)

  /** The value at `loc`, or None when some hop does not exist. */
  function GetAt(v: Json, loc: seq<Hop>): Option<Json>
    decreases |loc|
  {
    if loc == [] then Some(v)
    else match loc[0]
      case LField(k) =>
        if v.JObj? && Lookup(v.fields, k).Some? then GetAt(Lookup(v.fields, k).value, loc[1..]) else None
      case LElem(i) =>
        if v.JArr? && i < |v.elems| then GetAt(v.elems[i], loc[1..]) else None
  }

  /** `v` with the value at `loc` replaced by `x`; a path that does not exist changes nothing. */
  function SetAt(v: Json, loc: seq<Hop>, x: Json): Json
    decreases |loc|
  {
    if loc == [] then x
    else match loc[0]
      case LField(k) =>
        if v.JObj? && Lookup(v.fields, k).Some?
        then JObj(Update(v.fields, k, SetAt(Lookup(v.fields, k).value, loc[1..], x)))
        else v
      case LElem(i) =>
        if v.JArr? && i < |v.elems| then JArr(v.elems[i := SetAt(v.elems[i], loc[1..], x)]) else v
  }

  /** Neither path is a prefix of the other: they lead to disjoint parts of a tree. */
  predicate Apart(a: seq<Hop>, b: seq<Hop>)
    decreases |a|
  {
    a != [] && b != [] && (a[0] != b[0] || Apart(a[1..], b[1..]))
  }

  /** Replacing a dict value by the value it already has gives back the same entries. */
  lemma {:induction false} UpdateSame(fs: seq<(string, Json)>, k: string)
    requires Lookup(fs, k).Some?
    ensures Update(fs, k, Lookup(fs, k).value) == fs
    decreases |fs|
  {
    if fs[0].0 != k {
      UpdateSame(fs[1..], k);
      assert [fs[0]] + fs[1..] == fs;
    } else {
      assert [(k, fs[0].1)] + fs[1..] == fs;
    }
  }

  /** Following `a` and then `b` is following `a + b`. */
  lemma {:induction false} GetAtAppend(v: Json, a: seq<Hop>, b: seq<Hop>)
    ensures GetAt(v, a + b) == if GetAt(v, a).Some? then GetAt(GetAt(v, a).value, b) else None
    decreases |a|
  {
    if a != [] {
      assert (a + b)[0] == a[0];
      assert (a + b)[1..] == a[1..] + b;
      match a[0]
      case LField(k) =>
        if v.JObj? && Lookup(v.fields, k).Some? {
          GetAtAppend(Lookup(v.fields, k).value, a[1..], b);
        }
      case LElem(i) =>
        if v.JArr? && i < |v.elems| {
          GetAtAppend(v.elems[i], a[1..], b);
        }
    } else {
      assert a + b == b;
    }
  }

  /** Writing at `a + b` is writing the subtree at `a` with its own value written at `b`. */
  lemma {:induction false} SetAtAppend(v: Json, a: seq<Hop>, b: seq<Hop>, x: Json)
    requires GetAt(v, a).Some?
    ensures SetAt(v, a + b, x) == SetAt(v, a, SetAt(GetAt(v, a).value, b, x))
    decreases |a|
  {
    if a != [] {
      assert (a + b)[0] == a[0];
      assert (a + b)[1..] == a[1..] + b;
      match a[0]
      case LField(k) =>
        SetAtAppend(Lookup(v.fields, k).value, a[1..], b, x);
      case LElem(i) =>
        SetAtAppend(v.elems[i], a[1..], b, x);
    } else {
      assert a + b == b;
    }
  }

  /** Writing at a dict key below `loc` is writing the dict at `loc` with that key updated. */
  lemma SetAtField(v: Json, loc: seq<Hop>, fs: seq<(string, Json)>, k: string, x: Json)
    requires GetAt(v, loc) == Some(JObj(fs)) && Lookup(fs, k).Some?
    ensures SetAt(v, loc + [LField(k)], x) == SetAt(v, loc, JObj(Update(fs, k, x)))
  {
    SetAtAppend(v, loc, [LField(k)], x);
    var h := [LField(k)];
    assert h[0] == LField(k) && h[1..] == [];
    assert SetAt(Lookup(fs, k).value, h[1..], x) == x;
  }

  /** Writing at a list position below `loc` is writing the list at `loc` with that element replaced. */
  lemma SetAtElem(v: Json, loc: seq<Hop>, es: seq<Json>, n: nat, x: Json)
    requires GetAt(v, loc) == Some(JArr(es)) && n < |es|
    ensures SetAt(v, loc + [LElem(n)], x) == SetAt(v, loc, JArr(es[n := x]))
  {
    SetAtAppend(v, loc, [LElem(n)], x);
    var h := [LElem(n)];
    assert h[0] == LElem(n) && h[1..] == [];
    assert SetAt(es[n], h[1..], x) == x;
  }

  /** A write is read back at its own path. */
  lemma {:induction false} GetSetSame(v: Json, a: seq<Hop>, x: Json)
    requires GetAt(v, a).Some?
    ensures GetAt(SetAt(v, a, x), a) == Some(x)
    decreases |a|
  {
    if a != [] {
      match a[0]
      case LField(k) =>
        GetSetSame(Lookup(v.fields, k).value, a[1..], x);
      case LElem(i) =>
        GetSetSame(v.elems[i], a[1..], x);
    }
  }

  /** A write leaves every part of the tree apart from its path as it was. */
  lemma {:induction false} GetSetApart(v: Json, a: seq<Hop>, x: Json, b: seq<Hop>)
    requires GetAt(v, a).Some?
    requires Apart(a, b)
    ensures GetAt(SetAt(v, a, x), b) == GetAt(v, b)
    decreases |a|
  {
    match a[0]
    case LField(k) =>
      var w := SetAt(Lookup(v.fields, k).value, a[1..], x);
      if b[0] == a[0] {
        GetSetApart(Lookup(v.fields, k).value, a[1..], x, b[1..]);
      } else if b[0].LField? {
        assert Lookup(Update(v.fields, k, w), b[0].k) == Lookup(v.fields, b[0].k);
      }
    case LElem(i) =>
      if b[0] == a[0] {
        GetSetApart(v.elems[i], a[1..], x, b[1..]);
      }
  }

  /** The second of two writes at the same path wins. */
  lemma {:induction false} SetSetSame(v: Json, a: seq<Hop>, x: Json, y: Json)
    requires GetAt(v, a).Some?
    ensures SetAt(SetAt(v, a, x), a, y) == SetAt(v, a, y)
    decreases |a|
  {
    if a != [] {
      match a[0]
      case LField(k) =>
        SetSetSame(Lookup(v.fields, k).value, a[1..], x, y);
        SetSetField(v, a, x, y);
      case LElem(i) =>
        SetSetSame(v.elems[i], a[1..], x, y);
    }
  }

  /** The step of `SetSetSame` through a dict key, given the property for the value under the key. */
  lemma SetSetField(v: Json, a: seq<Hop>, x: Json, y: Json)
    requires a != [] && a[0].LField? && GetAt(v, a).Some?
    requires var w := Lookup(v.fields, a[0].k).value; SetAt(SetAt(w, a[1..], x), a[1..], y) == SetAt(w, a[1..], y)
    ensures SetAt(SetAt(v, a, x), a, y) == SetAt(v, a, y)
  {
    var k := a[0].k;
    var w := Lookup(v.fields, k).value;
    var w1 := SetAt(w, a[1..], x);
    assert SetAt(v, a, x) == JObj(Update(v.fields, k, w1));
    assert Lookup(Update(v.fields, k, w1), k) == Some(w1);
    UpdateTwice(v.fields, k, w1, SetAt(w, a[1..], y));
  }

  /** Writing back the value that is already there changes nothing. */
  lemma {:induction false} SetGetSame(v: Json, a: seq<Hop>)
    requires GetAt(v, a).Some?
    ensures SetAt(v, a, GetAt(v, a).value) == v
    decreases |a|
  {
    if a != [] {
      match a[0]
      case LField(k) =>
        SetGetSame(Lookup(v.fields, k).value, a[1..]);
        UpdateSame(v.fields, k);
      case LElem(i) =>
        SetGetSame(v.elems[i], a[1..]);
        assert v.elems[i := v.elems[i]] == v.elems;
    }
  }

  /** Two updates of the same dict key: the second wins. */
  lemma {:induction false} UpdateTwice(fs: seq<(string, Json)>, k: string, x: Json, y: Json)
    requires Lookup(fs, k).Some?
    ensures Update(Update(fs, k, x), k, y) == Update(fs, k, y)
    decreases |fs|
  {
    if fs[0].0 != k {
      UpdateTwice(fs[1..], k, x, y);
      assert ([fs[0]] + Update(fs[1..], k, x))[1..] == Update(fs[1..], k, x);
    } else {
      assert ([(k, x)] + fs[1..])[1..] == fs[1..];
    }
  }
}
