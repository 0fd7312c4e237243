/**
  The text generator of pyblitz/generator/generate.py (`_EndpointWriter`): the
  code it emits for the servers, the endpoint tree and the schema models. The
  writer's file is left out; each `_gen...` helper is a function returning the
  text it would write, or the Python error it would raise. The endpoint helpers
  read the parser's endpoint tree as a value, and use the uncached
  `ClassNameOf` and `PathOf`, which the parser's `className` and `getPath`
  are proved to return.
*/
module Generate {
  import opened Wrappers
  import opened Strs
  import opened Reprs
  import opened Dicts
  import opened Records
  import ET = EndpointTree

  /** `_methodSep`, `_classSep` and `_unindentClassSep`. */
  const MethodSep := "\n\n"
  const ClassSep := "\n\n\n"
  const UnindentClassSep := "\n\n"

  // ---------------------------------------------------------------- _indent

  /** `_indentStr * n`: four spaces per level. */
  function Spaces(n: nat): (r: string)
    ensures |r| == 4 * n
    ensures forall k :: 0 <= k < |r| ==> r[k] == ' '
  {
    seq(4 * n, _ => ' ')
  }

  /** `_indent(code, n)`: every newline is followed by `n` levels of indentation. */
  function Indent(code: string, n: nat): string
    decreases |code|
  {
    if code == [] then ""
    else (if code[0] == '\n' then "\n" + Spaces(n) else [code[0]]) + Indent(code[1..], n)
  }

  /** Indenting a concatenation indents each part. */
  lemma {:induction false} IndentAppend(a: string, b: string, n: nat)
    ensures Indent(a + b, n) == Indent(a, n) + Indent(b, n)
    decreases |a|
  {
    if a == [] {
      assert a + b == b;
    } else {
      assert (a + b)[0] == a[0];
      assert (a + b)[1..] == a[1..] + b;
      IndentAppend(a[1..], b, n);
    }
  }

  /** A string without a newline is returned unchanged. */
  lemma {:induction false} IndentNoNewline(code: string, n: nat)
    requires '\n' !in code
    ensures Indent(code, n) == code
    decreases |code|
  {
    if code != [] {
      assert code[0] in code;
      assert forall k :: 0 <= k < |code[1..]| ==> code[1..][k] == code[k + 1];
      IndentNoNewline(code[1..], n);
      assert [code[0]] + code[1..] == code;
    }
  }

  /** Exactly `4 * n` characters are inserted per newline. */
  lemma {:induction false} IndentLength(code: string, n: nat)
    ensures |Indent(code, n)| == |code| + 4 * n * Count(code, '\n')
    decreases |code|
  {
    if code != [] {
      IndentLength(code[1..], n);
    }
  }

  /** `_indent` is `str.replace("\n", "\n" + "    " * n)`: the pieces between newlines rejoined with the longer separator. */
  lemma {:induction false} IndentIsReplace(code: string, n: nat)
    ensures Indent(code, n) == Join(Split(code, '\n'), "\n" + Spaces(n))
    decreases |code|
  {
    var sep := "\n" + Spaces(n);
    if code != [] {
      IndentIsReplace(code[1..], n);
      var rest := Split(code[1..], '\n');
      if code[0] == '\n' {
        assert Split(code, '\n') == [""] + rest;
        assert Join([""] + rest, sep) == "" + sep + Join(rest, sep);
      } else if |rest| > 1 {
        assert Split(code, '\n') == [[code[0]] + rest[0]] + rest[1..];
        assert Join(rest, sep) == rest[0] + sep + Join(rest[1..], sep);
        assert Join(Split(code, '\n'), sep) == [code[0]] + rest[0] + sep + Join(rest[1..], sep);
      } else {
        assert Split(code, '\n') == [[code[0]] + rest[0]];
      }
    }
  }

  /** Removing `n` levels of indentation after each newline (the inverse of `Indent`). */
  function Dedent(s: string, n: nat): string
    decreases |s|
  {
    if s == [] then ""
    else if s[0] == '\n' && |s| > 4 * n && s[1..1 + 4 * n] == Spaces(n) then "\n" + Dedent(s[1 + 4 * n..], n)
    else [s[0]] + Dedent(s[1..], n)
  }

  /** Indentation changes nothing but the inserted spaces: removing them gives back the code. */
  lemma {:induction false} DedentIndent(code: string, n: nat)
    ensures Dedent(Indent(code, n), n) == code
    decreases |code|
  {
    if code != [] {
      var s := Indent(code, n);
      DedentIndent(code[1..], n);
      if code[0] == '\n' {
        assert s == "\n" + Spaces(n) + Indent(code[1..], n);
        assert s[1..1 + 4 * n] == Spaces(n);
        assert s[1 + 4 * n..] == Indent(code[1..], n);
      } else {
        assert s == [code[0]] + Indent(code[1..], n);
        assert s[1..] == Indent(code[1..], n);
      }
      assert [code[0]] + code[1..] == code;
    }
  }

  /** Indenting twice indents by the sum of the levels, as the hardened class inside a variable endpoint is. */
  lemma {:induction false} IndentTwice(code: string, a: nat, b: nat)
    ensures Indent(Indent(code, a), b) == Indent(code, a + b)
    decreases |code|
  {
    if code != [] {
      IndentTwice(code[1..], a, b);
      var head := if code[0] == '\n' then "\n" + Spaces(a) else [code[0]];
      IndentAppend(head, Indent(code[1..], a), b);
      if code[0] == '\n' {
        IndentAppend("\n", Spaces(a), b);
        assert '\n' !in Spaces(a);
        IndentNoNewline(Spaces(a), b);
        assert Indent("\n", b) == "\n" + Spaces(b) + Indent("", b);
        assert Spaces(b) + Spaces(a) == Spaces(a + b);
      } else {
        assert Indent(head, b) == [code[0]] + Indent("", b);
      }
    }
  }

  /** Indenting newline-joined lines indents each line and the separators. */
  lemma {:induction false} IndentJoin(lines: seq<string>, n: nat)
    ensures Indent(Join(lines, "\n"), n) == Join(seq(|lines|, k requires 0 <= k < |lines| => Indent(lines[k], n)), "\n" + Spaces(n))
    decreases |lines|
  {
    var ind := seq(|lines|, k requires 0 <= k < |lines| => Indent(lines[k], n));
    if |lines| > 1 {
      IndentJoin(lines[1..], n);
      assert ind[1..] == seq(|lines[1..]|, k requires 0 <= k < |lines[1..]| => Indent(lines[1..][k], n));
      IndentAppend(lines[0] + "\n", Join(lines[1..], "\n"), n);
      IndentAppend(lines[0], "\n", n);
      assert Indent("\n", n) == "\n" + Spaces(n) + Indent("", n);
    }
  }

  // ---------------------------------------------------------------- _absoluteParentRefStr

  /** The ancestors of endpoint `i`, from its root down to its direct parent. */
  function Ancestors<M>(t: ET.Tree<M>, i: nat): (r: seq<nat>)
    requires ET.ParentsBelow(t.nodes) && i < |t.nodes|
    ensures forall k :: 0 <= k < |r| ==> r[k] < i
    ensures r == [] <==> t.nodes[i].parent.None?
    ensures r != [] ==> t.nodes[i].parent == Some(r[|r| - 1]) && t.nodes[r[0]].parent.None?
    ensures forall k :: 0 < k < |r| ==> t.nodes[r[k]].parent == Some(r[k - 1])
    decreases i
  {
    match t.nodes[i].parent
    case None => []
    case Some(p) => Ancestors(t, p) + [p]
  }

  /**
    The class names of some endpoints, or the error of the last one whose
    `className` fails (the walk up from an endpoint meets its parent first).
  */
  function ClassNames<M>(t: ET.Tree<M>, es: seq<nat>): (r: Result<seq<string>>)
    requires forall k :: 0 <= k < |es| ==> es[k] < |t.nodes|
    decreases |es|
  {
    if es == [] then Ok([])
    else
      var last :- ET.ClassNameOf(t.nodes[es[|es| - 1]].pathName);
      var rest :- ClassNames(t, es[..|es| - 1]);
      Ok(rest + [last])
  }

  /** The names are there exactly when every endpoint's `className` succeeds, one per endpoint in order. */
  lemma {:induction false} ClassNamesSpec<M>(t: ET.Tree<M>, es: seq<nat>)
    requires forall k :: 0 <= k < |es| ==> es[k] < |t.nodes|
    ensures ClassNames(t, es).Ok? <==> forall k :: 0 <= k < |es| ==> ET.ClassNameOf(t.nodes[es[k]].pathName).Ok?
    ensures ClassNames(t, es).Ok? ==> (|ClassNames(t, es).value| == |es| &&
      forall k :: 0 <= k < |es| ==> ET.ClassNameOf(t.nodes[es[k]].pathName) == Ok(ClassNames(t, es).value[k]))
    decreases |es|
  {
    if es != [] {
      var es' := es[..|es| - 1];
      ClassNamesSpec(t, es');
      assert forall k :: 0 <= k < |es'| ==> es'[k] == es[k];
    }
  }

  /** One more endpoint at the end is looked at first. */
  lemma ClassNamesSnoc<M>(t: ET.Tree<M>, es: seq<nat>, x: nat)
    requires forall k :: 0 <= k < |es| ==> es[k] < |t.nodes|
    requires x < |t.nodes|
    ensures ClassNames(t, es + [x]) ==
      var n := ET.ClassNameOf(t.nodes[x].pathName);
      if n.Err? then Err(n.error)
      else if ClassNames(t, es).Err? then ClassNames(t, es)
      else Ok(ClassNames(t, es).value + [n.value])
  {
    assert (es + [x])[..|es|] == es;
  }

  /** The names of `a + b` fail with `b`'s error first, then with `a`'s. */
  lemma {:induction false} ClassNamesAppend<M>(t: ET.Tree<M>, a: seq<nat>, b: seq<nat>)
    requires forall k :: 0 <= k < |a| ==> a[k] < |t.nodes|
    requires forall k :: 0 <= k < |b| ==> b[k] < |t.nodes|
    ensures ClassNames(t, a + b) ==
      if ClassNames(t, b).Err? then ClassNames(t, b)
      else if ClassNames(t, a).Err? then ClassNames(t, a)
      else Ok(ClassNames(t, a).value + ClassNames(t, b).value)
    decreases |b|
  {
    if b == [] {
      assert a + b == a;
      if ClassNames(t, a).Ok? {
        assert ClassNames(t, a).value + [] == ClassNames(t, a).value;
      }
    } else {
      var b', x := b[..|b| - 1], b[|b| - 1];
      assert a + b == (a + b') + [x] && b == b' + [x];
      ClassNamesAppend(t, a, b');
      ClassNamesSnoc(t, a + b', x);
      ClassNamesSnoc(t, b', x);
      if ClassNames(t, b).Ok? && ClassNames(t, a).Ok? {
        var na, nb := ClassNames(t, a).value, ClassNames(t, b').value;
        assert (na + nb) + [ET.ClassNameOf(t.nodes[x].pathName).value] == na + (nb + [ET.ClassNameOf(t.nodes[x].pathName).value]);
      }
    }
  }

  /** One more endpoint in front is looked at last. */
  lemma ClassNamesCons<M>(t: ET.Tree<M>, x: nat, es: seq<nat>)
    requires forall k :: 0 <= k < |es| ==> es[k] < |t.nodes|
    requires x < |t.nodes|
    ensures ClassNames(t, [x] + es) ==
      var n := ET.ClassNameOf(t.nodes[x].pathName);
      if ClassNames(t, es).Err? then ClassNames(t, es)
      else if n.Err? then Err(n.error)
      else Ok([n.value] + ClassNames(t, es).value)
  {
    ClassNamesAppend(t, [x], es);
    ClassNamesSnoc(t, [], x);
    assert [] + [x] == [x];
    var n := ET.ClassNameOf(t.nodes[x].pathName);
    if n.Ok? {
      assert ClassNames(t, [x]) == Ok([n.value]) by {
        assert [] + [n.value] == [n.value];
      }
    }
  }

  /** The names left once the empty names at the end are dropped. */
  function TrimEmptyTail(names: seq<string>): (r: seq<string>)
    ensures r <= names
    ensures r == [] || r[|r| - 1] != ""
    ensures forall k :: |r| <= k < |names| ==> names[k] == ""
    decreases |names|
  {
    if names == [] || names[|names| - 1] != "" then names else TrimEmptyTail(names[..|names| - 1])
  }

  /** Names without an empty one are kept whole. */
  lemma TrimNoEmpty(names: seq<string>)
    requires forall k :: 0 <= k < |names| ==> names[k] != ""
    ensures TrimEmptyTail(names) == names
  {
  }

  /** How dropping the empty tail treats one more name in front. */
  lemma {:induction false} TrimCons(n: string, names: seq<string>)
    ensures TrimEmptyTail([n] + names) ==
      if TrimEmptyTail(names) == [] then (if n == "" then [] else [n]) else [n] + TrimEmptyTail(names)
    decreases |names|
  {
    var s := [n] + names;
    if names == [] {
      assert s == [n];
      if n == "" {
        assert TrimEmptyTail(s) == TrimEmptyTail(s[..0]);
      }
    } else if names[|names| - 1] == "" {
      assert s[|s| - 1] == "";
      assert s[..|s| - 1] == [n] + names[..|names| - 1];
      TrimCons(n, names[..|names| - 1]);
    }
  }

  /** A join ends with its last piece, so it is not empty when that piece is not. */
  lemma {:induction false} JoinEndsWithLast(pieces: seq<string>, sep: string)
    requires pieces != []
    ensures |Join(pieces, sep)| >= |pieces[|pieces| - 1]|
    decreases |pieces|
  {
    if |pieces| > 1 {
      JoinEndsWithLast(pieces[1..], sep);
    }
  }

  /** The text built so far: the dotted names, or "" while every name seen is empty. */
  function Dotted(names: seq<string>): (r: string)
    ensures r == "" <==> TrimEmptyTail(names) == []
  {
    var kept := TrimEmptyTail(names);
    if kept == [] then "" else JoinEndsWithLast(kept, "."); Join(kept, ".")
  }

  /** A name in front goes before a dot, or stands alone while the text is still empty. */
  lemma DottedCons(n: string, names: seq<string>)
    ensures Dotted([n] + names) == if Dotted(names) != "" then n + "." + Dotted(names) else n
  {
    TrimCons(n, names);
    var kept := TrimEmptyTail(names);
    if kept != [] {
      assert ([n] + kept)[1..] == kept;
    }
  }

  /** A parent reference from the ancestors' class names, root first: "None" when nothing names a class. */
  function DottedRef(names: seq<string>): string {
    var d := Dotted(names);
    if d == "" then "None" else d
  }

  /**
    What `_absoluteParentRefStr(endpoint)` returns: the dotted class names of
    the endpoint's ancestors, root first, once the nearest empty names are
    dropped; "None" for a root. The nearest failing `className` raises first.
  */
  function ParentRef<M>(t: ET.Tree<M>, i: nat): (r: Result<string>)
    requires ET.ParentsBelow(t.nodes) && i < |t.nodes|
  {
    var names :- ClassNames(t, Ancestors(t, i));
    Ok(DottedRef(names))
  }

  /** The endpoint the walk up from `e` stands at after `|Ancestors| - k` steps. */
  function Up<M>(t: ET.Tree<M>, e: nat, k: nat): nat
    requires ET.ParentsBelow(t.nodes) && e < |t.nodes| && k <= |Ancestors(t, e)|
  {
    if k == |Ancestors(t, e)| then e else Ancestors(t, e)[k]
  }

  /** One step up from there reaches the previous ancestor, or nothing from the root. */
  lemma UpParent<M>(t: ET.Tree<M>, e: nat, k: nat)
    requires ET.ParentsBelow(t.nodes) && e < |t.nodes| && k <= |Ancestors(t, e)|
    ensures Up(t, e, k) < |t.nodes|
    ensures t.nodes[Up(t, e, k)].parent == if k == 0 then None else Some(Ancestors(t, e)[k - 1])
  {
  }

  /** When the names after position `j` are there and the one at `j` fails, that failure is the result. */
  lemma ClassNamesFailsAt<M>(t: ET.Tree<M>, es: seq<nat>, j: nat, done: seq<string>)
    requires forall k :: 0 <= k < |es| ==> es[k] < |t.nodes|
    requires j < |es| && ClassNames(t, es[j + 1..]) == Ok(done)
    requires ET.ClassNameOf(t.nodes[es[j]].pathName).Err?
    ensures ClassNames(t, es) == Err(ET.ClassNameOf(t.nodes[es[j]].pathName).error)
  {
    assert es[j..] == [es[j]] + es[j + 1..];
    ClassNamesCons(t, es[j], es[j + 1..]);
    ClassNamesAppend(t, es[..j], es[j..]);
    assert es[..j] + es[j..] == es;
  }

  /** The walk meets a class name that fails: so does the reference. */
  lemma ParentRefFails<M>(t: ET.Tree<M>, e: nat, k: nat, done: seq<string>)
    requires ET.ParentsBelow(t.nodes) && e < |t.nodes| && 0 < k <= |Ancestors(t, e)|
    requires ClassNames(t, Ancestors(t, e)[k..]) == Ok(done)
    requires ET.ClassNameOf(t.nodes[Ancestors(t, e)[k - 1]].pathName).Err?
    ensures ParentRef(t, e) == Err(ET.ClassNameOf(t.nodes[Ancestors(t, e)[k - 1]].pathName).error)
  {
    ClassNamesFailsAt(t, Ancestors(t, e), k - 1, done);
  }

  /** The walk meets a class name that succeeds: it goes in front of the names seen so far. */
  lemma ParentRefGrows<M>(t: ET.Tree<M>, e: nat, k: nat, done: seq<string>)
    requires ET.ParentsBelow(t.nodes) && e < |t.nodes| && 0 < k <= |Ancestors(t, e)|
    requires ClassNames(t, Ancestors(t, e)[k..]) == Ok(done)
    requires ET.ClassNameOf(t.nodes[Ancestors(t, e)[k - 1]].pathName).Ok?
    ensures ClassNames(t, Ancestors(t, e)[k - 1..]) == Ok([ET.ClassNameOf(t.nodes[Ancestors(t, e)[k - 1]].pathName).value] + done)
  {
    ClassNamesGrow(t, Ancestors(t, e), k, done);
  }

  /** `ParentRefGrows` on any list of endpoints. */
  lemma ClassNamesGrow<M>(t: ET.Tree<M>, anc: seq<nat>, k: nat, done: seq<string>)
    requires forall j :: 0 <= j < |anc| ==> anc[j] < |t.nodes|
    requires 0 < k <= |anc|
    requires ClassNames(t, anc[k..]) == Ok(done)
    requires ET.ClassNameOf(t.nodes[anc[k - 1]].pathName).Ok?
    ensures ClassNames(t, anc[k - 1..]) == Ok([ET.ClassNameOf(t.nodes[anc[k - 1]].pathName).value] + done)
  {
    assert anc[k - 1..] == [anc[k - 1]] + anc[k..];
    ClassNamesCons(t, anc[k - 1], anc[k..]);
  }

  /**
    `_absoluteParentRefStr(endpoint)`: walks up from the endpoint, putting each
    parent's class name in front of the text built so far.
  */
  method AbsoluteParentRefStr<M>(t: ET.Tree<M>, endpoint: nat) returns (r: Result<string>)
    requires ET.ParentsBelow(t.nodes) && endpoint < |t.nodes|
    ensures r == ParentRef(t, endpoint)
  {
    ghost var k := |Ancestors(t, endpoint)|;
    ghost var done: seq<string> := [];
    var curr: Option<nat> := Some(endpoint);
    var parentRefStr := "";
    assert Ancestors(t, endpoint)[k..] == [];
    while curr.Some?
      invariant 0 <= k <= |Ancestors(t, endpoint)|
      invariant curr.Some? ==> curr == Some(Up(t, endpoint, k))
      invariant curr.None? ==> k == 0
      invariant ClassNames(t, Ancestors(t, endpoint)[k..]) == Ok(done)
      invariant curr.Some? ==> parentRefStr == Dotted(done)
      invariant curr.None? ==> parentRefStr == DottedRef(done)
      decreases k + (if curr.Some? then 1 else 0)
    {
      UpParent(t, endpoint, k);
      curr := t.nodes[curr.value].parent;
      if curr.Some? {
        var cn := ET.ClassNameOf(t.nodes[curr.value].pathName);
        if cn.Err? {
          ParentRefFails(t, endpoint, k, done);
          return Err(cn.error);
        }
        ParentRefGrows(t, endpoint, k, done);
        DottedCons(cn.value, done);
        if parentRefStr != "" {
          parentRefStr := cn.value + "." + parentRefStr;
        } else {
          parentRefStr := cn.value;
        }
        done := [cn.value] + done;
        k := k - 1;
      } else {
        if parentRefStr == "" {
          parentRefStr := "None";
        }
      }
    }
    assert Ancestors(t, endpoint)[0..] == Ancestors(t, endpoint);
    return Ok(parentRefStr);
  }

  /**
    The parent reference of a root is "None"; below a root, when every ancestor
    has a non-empty class name, it is those names joined by dots, root first.
  */
  lemma ParentRefNames<M>(t: ET.Tree<M>, i: nat)
    requires ET.ParentsBelow(t.nodes) && i < |t.nodes|
    ensures t.nodes[i].parent.None? ==> ParentRef(t, i) == Ok("None")
    ensures var names := ClassNames(t, Ancestors(t, i));
      names.Ok? && t.nodes[i].parent.Some? && (forall k :: 0 <= k < |names.value| ==> names.value[k] != "") ==>
        ParentRef(t, i) == Ok(Join(names.value, "."))
    ensures var names := ClassNames(t, Ancestors(t, i));
      names.Ok? ==> (|names.value| == |Ancestors(t, i)| &&
        forall k :: 0 <= k < |names.value| ==> ET.ClassNameOf(t.nodes[Ancestors(t, i)[k]].pathName) == Ok(names.value[k]))
  {
    var names := ClassNames(t, Ancestors(t, i));
    ClassNamesSpec(t, Ancestors(t, i));
    if names.Ok? && forall k :: 0 <= k < |names.value| ==> names.value[k] != "" {
      TrimNoEmpty(names.value);
    }
  }

  /** A string is a prefix of itself followed by anything. */
  lemma PrefixOfAppend(a: string, b: string)
    ensures a <= a + b
  {
    assert (a + b)[..|a|] == a;
  }

  // ---------------------------------------------------------------- endpoint methods

  /** Verbs that take no request body use the optional-data template. */
  predicate TakesNoData(verb: string) {
    verb == "get" || verb == "delete"
  }

  /** How the two method templates start. */
  const NoDataDef := "def "
  const FullDef := "@classmethod\ndef "

  /** `_endpointMethodTemplate_noData` filled in. */
  function NoDataMethod(name: string, desc: string): string {
    NoDataDef + name + ("(cls, *args, headers=dict(), data=None, **params):\n    \"\"\"" + desc
    + "\"\"\"\n    return " + name + "(cls, *args, headers=headers, data=data, **params)")
  }

  /** `_endpointMethodTemplate_full` filled in. */
  function FullMethod(name: string, desc: string): string {
    FullDef + name + ("(cls, data, *args, headers=dict(), **params):\n    \"\"\"" + desc
    + "\"\"\"\n    return " + name + "(cls, data, *args, headers=headers, **params)")
  }

  /** The code of one method of an endpoint: the template its verb selects, named by the upper-cased verb. */
  function MethodCode(m: MethodData): string {
    if TakesNoData(m.name) then NoDataMethod(Upper(m.name), m.desc) else FullMethod(Upper(m.name), m.desc)
  }

  /**
    Only `get` and `delete` produce a plain `def` (data optional); every other
    verb produces a class method (`@classmethod` first) that takes `data`.
    Either way the function defined is named by the upper-cased verb.
  */
  lemma MethodCodeShape(m: MethodData)
    ensures TakesNoData(m.name) <==> MethodCode(m)[0] == 'd'
    ensures TakesNoData(m.name) ==> NoDataDef + Upper(m.name) <= MethodCode(m)
    ensures !TakesNoData(m.name) ==> FullDef + Upper(m.name) <= MethodCode(m)
  {
    var u := Upper(m.name);
    if TakesNoData(m.name) {
      var rest := "(cls, *args, headers=dict(), data=None, **params):\n    \"\"\"" + m.desc
        + "\"\"\"\n    return " + u + "(cls, *args, headers=headers, data=data, **params)";
      PrefixOfAppend(NoDataDef + u, rest);
      assert MethodCode(m)[0] == (NoDataDef + u)[0] == 'd';
    } else {
      var rest := "(cls, data, *args, headers=dict(), **params):\n    \"\"\"" + m.desc
        + "\"\"\"\n    return " + u + "(cls, data, *args, headers=headers, **params)";
      PrefixOfAppend(FullDef + u, rest);
      assert MethodCode(m)[0] == (FullDef + u)[0] == '@';
    }
  }

  /** The methods of an endpoint in order, each after a `_methodSep`. */
  function MethodsCode(ms: seq<MethodData>): string
    decreases |ms|
  {
    if ms == [] then "" else MethodSep + MethodCode(ms[0]) + MethodsCode(ms[1..])
  }

  /** The methods' code is the in-order concatenation of `_methodSep` + each method's code. */
  lemma {:induction false} MethodsCodeConcat(ms: seq<MethodData>, pieces: seq<string>)
    requires |pieces| == |ms|
    requires forall k :: 0 <= k < |ms| ==> pieces[k] == MethodSep + MethodCode(ms[k])
    ensures MethodsCode(ms) == Concat(pieces)
    decreases |ms|
  {
    if ms != [] {
      MethodsCodeConcat(ms[1..], pieces[1..]);
    }
  }

  // ---------------------------------------------------------------- endpoint classes

  /** The fixed pieces of the endpoint templates. */
  const ClassKw := "class "
  const FixedBase := "(FixedEndpoint):"
  const VariableBase := "(VariableEndpoint):"
  const ParentRefDef := "\n    @classmethod\n    def _parentEndpoint(cls):\n        return "
  const UrlMethod := "    @classmethod\n    def url(cls):\n"
  const ReturnKw := "        return "
  const NewDef := "\n    def __new__(cls, pathValue):\n        "
  const Hardened := "_hardened"

  /** `_fixedEndpointTemplate` filled in: a head, then `url` returning `urlStr`, then the methods and the nested children. */
  function FixedEndpointClass(name: string, parentRef: string, urlStr: string, methods: string, childClasses: string): string {
    FixedHead(name, parentRef) + ReturnKw + urlStr + ("    " + methods + childClasses)
  }

  /** The fixed class declaration and its `_parentEndpoint`, up to the body of `url`. */
  function FixedHead(name: string, parentRef: string): string {
    ClassKw + name + FixedBase + (ParentRefDef + parentRef + "\n" + UrlMethod)
  }

  /** `_variableEndpointTemplate` filled in (with `_methodSep` as its method separator): a head, the hardened class, a tail. */
  function VariableEndpointClass(name: string, parentRef: string, urlStr: string, hardenedClass: string): string {
    VariableHead(name, parentRef) + hardenedClass + VariableTail(name, urlStr)
  }

  /** The variable class declaration, its `_parentEndpoint`, and `__new__` up to the hardened class. */
  function VariableHead(name: string, parentRef: string): string {
    ClassKw + name + VariableBase + (ParentRefDef + parentRef + NewDef)
  }

  /** `__new__` returning the hardened class, then `url`. */
  function VariableTail(name: string, urlStr: string): string {
    ReturnKw + name + Hardened + "    " + MethodSep + UrlMethod + ReturnKw + urlStr
  }

  /** The url expression of a hardened class: the parent's path, `/`, and the path value given at run time. */
  function HardenedUrl(parentPath: string): string {
    "'" + parentPath + "/{hardenedName}'.format(hardenedName=pathValue)"
  }

  /**
    `_genEndpoints(endpoints)`: `_classSep` + the code of each endpoint and its
    children, in order; the first failure is raised. Every endpoint listed
    comes after `above` (-1 for the roots), which bounds the recursion.
  */
  function GenEndpoints(t: ET.Tree<MethodData>, es: seq<nat>, above: int): (r: Result<string>)
    requires ET.Valid(t) && -1 <= above < |t.nodes|
    requires forall k :: 0 <= k < |es| ==> above < es[k] < |t.nodes|
    decreases |t.nodes| - above, 0, |es|
  {
    if es == [] then Ok("")
    else
      var code :- GenEndpointAndChildren(t, es[0]);
      var rest :- GenEndpoints(t, es[1..], above);
      Ok(ClassSep + code + rest)
  }

  /** `_genEndpointAndChildren(endpoint)`: a variable endpoint (`{name}`) or a fixed one. */
  function GenEndpointAndChildren(t: ET.Tree<MethodData>, i: nat): (r: Result<string>)
    requires ET.Valid(t) && i < |t.nodes|
    decreases |t.nodes| - i, 3
  {
    if ET.IsVariable(t.nodes[i].pathName) then GenVariableEndpointAndChildren(t, i)
    else GenFixedEndpointAndChildren(t, i, false)
  }

  /**
    `_genFixedEndpointAndChildren(endpoint, fromVariableEndpoint)`: the class
    with the endpoint's methods and, nested one level in, its children. From a
    variable endpoint it is the `_hardened` class, whose url is built from the
    parent's path (`endpoint.parent.getPath()`, AttributeError without a parent).
  */
  function GenFixedEndpointAndChildren(t: ET.Tree<MethodData>, i: nat, fromVariable: bool): (r: Result<string>)
    requires ET.Valid(t) && i < |t.nodes|
    decreases |t.nodes| - i, 1
  {
    var children :- GenEndpoints(t, ET.Children(t, i), i);
    assert ET.NodeOk(t.nodes, i);
    var methods := Indent(MethodsCode(t.nodes[i].methods.Values()), 1);
    var className :- ET.ClassNameOf(t.nodes[i].pathName);
    if !fromVariable then
      var parentRef :- ParentRef(t, i);
      Ok(FixedEndpointClass(className, parentRef, "'" + ET.PathOf(t.nodes, i) + "'", methods, Indent(children, 1)))
    else
      match t.nodes[i].parent
      case None => Err(AttributeError)
      case Some(p) =>
        var parentRef :- ParentRef(t, i);
        Ok(FixedEndpointClass(className + Hardened, parentRef, HardenedUrl(ET.PathOf(t.nodes, p)), methods, Indent(children, 1)))
  }

  /**
    `_genVariableEndpointAndChildren(endpoint)`: the class whose `__new__`
    defines and returns the hardened class, nested two levels in.
  */
  function GenVariableEndpointAndChildren(t: ET.Tree<MethodData>, i: nat): (r: Result<string>)
    requires ET.Valid(t) && i < |t.nodes|
    decreases |t.nodes| - i, 2
  {
    var hardened :- GenFixedEndpointAndChildren(t, i, true);
    var className :- ET.ClassNameOf(t.nodes[i].pathName);
    var parentRef :- ParentRef(t, i);
    Ok(VariableEndpointClass(className, parentRef, "'" + ET.PathOf(t.nodes, i) + "'", Indent(hardened, 2) + UnindentClassSep))
  }

  /** The result of concatenating two generated texts: the first failure, or both texts in order. */
  function Both(x: Result<string>, y: Result<string>): Result<string> {
    if x.Err? then x else if y.Err? then y else Ok(x.value + y.value)
  }

  /**
    `_genEndpoints` is the in-order concatenation of its items: no endpoints
    give "", one endpoint gives `_classSep` + its code, and a list split in two
    gives the two texts one after the other (or the first failure).
  */
  lemma {:induction false} GenEndpointsAppend(t: ET.Tree<MethodData>, a: seq<nat>, b: seq<nat>, above: int)
    requires ET.Valid(t) && -1 <= above < |t.nodes|
    requires forall k :: 0 <= k < |a| ==> above < a[k] < |t.nodes|
    requires forall k :: 0 <= k < |b| ==> above < b[k] < |t.nodes|
    ensures GenEndpoints(t, [], above) == Ok("")
    ensures a != [] ==>
      GenEndpoints(t, [a[0]], above) == (var c := GenEndpointAndChildren(t, a[0]); if c.Err? then c else Ok(ClassSep + c.value))
    ensures GenEndpoints(t, a + b, above) == Both(GenEndpoints(t, a, above), GenEndpoints(t, b, above))
    decreases |a|
  {
    if a == [] {
      assert a + b == b;
      BothUnit(GenEndpoints(t, b, above));
    } else {
      assert (a + b)[0] == a[0];
      assert (a + b)[1..] == a[1..] + b;
      assert [a[0]][1..] == [];
      GenEndpointsCons(t, a + b, above);
      GenEndpointsCons(t, a, above);
      GenEndpointsCons(t, [a[0]], above);
      GenEndpointsAppend(t, a[1..], b, above);
      var c := Sep(GenEndpointAndChildren(t, a[0]));
      BothAssoc(c, GenEndpoints(t, a[1..], above), GenEndpoints(t, b, above));
      BothUnit(c);
    }
  }

  /** `_classSep` in front of a generated text. */
  function Sep(c: Result<string>): Result<string> {
    if c.Err? then c else Ok(ClassSep + c.value)
  }

  /** One endpoint of `_genEndpoints`, then the rest. */
  lemma GenEndpointsCons(t: ET.Tree<MethodData>, es: seq<nat>, above: int)
    requires ET.Valid(t) && -1 <= above < |t.nodes|
    requires forall k :: 0 <= k < |es| ==> above < es[k] < |t.nodes|
    requires es != []
    ensures GenEndpoints(t, es, above) == Both(Sep(GenEndpointAndChildren(t, es[0])), GenEndpoints(t, es[1..], above))
  {
  }

  /** The empty text is a unit of `Both`. */
  lemma BothUnit(x: Result<string>)
    ensures Both(Ok(""), x) == x && Both(x, Ok("")) == x
  {
    if x.Ok? {
      assert "" + x.value == x.value && x.value + "" == x.value;
    }
  }

  /** `Both` is associative. */
  lemma BothAssoc(x: Result<string>, y: Result<string>, z: Result<string>)
    ensures Both(Both(x, y), z) == Both(x, Both(y, z))
  {
    if x.Ok? && y.Ok? && z.Ok? {
      assert x.value + y.value + z.value == x.value + (y.value + z.value);
    }
  }

  lemma Regroup(a: string, b: string, c: string, d: string)
    ensures a + (b + c) + d == a + b + (c + d)
  {
  }

  /** A string is a prefix of itself followed by four more. */
  lemma PrefixOfAppend4(p: string, a: string, b: string, c: string, d: string)
    ensures p <= p + a + b + c + d
  {
    PrefixOfAppend(p, a + b + c + d);
    assert p + a + b + c + d == p + (a + b + c + d);
  }

  /** A filled-in fixed endpoint template starts with its class line and contains `return <url>`. */
  lemma FixedClassParts(name: string, parentRef: string, urlStr: string, methods: string, childClasses: string)
    ensures ClassKw + name + FixedBase <= FixedEndpointClass(name, parentRef, urlStr, methods, childClasses)
    ensures exists x, y :: FixedEndpointClass(name, parentRef, urlStr, methods, childClasses) == x + ReturnKw + urlStr + y
  {
    var x := FixedHead(name, parentRef);
    var y := "    " + methods + childClasses;
    assert FixedEndpointClass(name, parentRef, urlStr, methods, childClasses) == x + ReturnKw + urlStr + y;
    PrefixOfAppend4(ClassKw + name + FixedBase, ParentRefDef + parentRef + "\n" + UrlMethod, ReturnKw, urlStr, y);
  }

  /** A fixed endpoint (its segment is not `{...}`) is a `FixedEndpoint` class named by its class name, with its own path as url. */
  lemma FixedEndpointShape(t: ET.Tree<MethodData>, i: nat)
    requires ET.Valid(t) && i < |t.nodes|
    requires !ET.IsVariable(t.nodes[i].pathName) && GenEndpointAndChildren(t, i).Ok?
    ensures ET.ClassNameOf(t.nodes[i].pathName).Ok?
    ensures ClassKw + ET.ClassNameOf(t.nodes[i].pathName).value + FixedBase <= GenEndpointAndChildren(t, i).value
    ensures exists x, y :: GenEndpointAndChildren(t, i).value == x + ReturnKw + ("'" + ET.PathOf(t.nodes, i) + "'") + y
  {
    var n := t.nodes[i];
    var name := ET.ClassNameOf(n.pathName).value;
    var ref := ParentRef(t, i).value;
    assert ET.NodeOk(t.nodes, i);
    var methods := Indent(MethodsCode(n.methods.Values()), 1);
    var children := Indent(GenEndpoints(t, ET.Children(t, i), i).value, 1);
    var url := "'" + ET.PathOf(t.nodes, i) + "'";
    assert GenEndpointAndChildren(t, i).value == FixedEndpointClass(name, ref, url, methods, children);
    FixedClassParts(name, ref, url, methods, children);
  }

  /**
    The hardened class of a variable endpoint exists only below a parent: it is
    a fixed class named `className + "_hardened"` whose url is the parent's
    path, `/`, and the value given at run time in place of the segment.
  */
  lemma HardenedShape(t: ET.Tree<MethodData>, i: nat)
    requires ET.Valid(t) && i < |t.nodes|
    requires GenFixedEndpointAndChildren(t, i, true).Ok?
    ensures t.nodes[i].parent.Some? && ET.ClassNameOf(t.nodes[i].pathName).Ok?
    ensures var hardened := GenFixedEndpointAndChildren(t, i, true).value;
      && ClassKw + (ET.ClassNameOf(t.nodes[i].pathName).value + Hardened) + FixedBase <= hardened
      && (exists x, y :: hardened == x + ReturnKw + HardenedUrl(ET.PathOf(t.nodes, t.nodes[i].parent.value)) + y)
  {
    var n := t.nodes[i];
    var hname := ET.ClassNameOf(n.pathName).value + Hardened;
    var ref := ParentRef(t, i).value;
    assert ET.NodeOk(t.nodes, i);
    var methods := Indent(MethodsCode(n.methods.Values()), 1);
    var children := Indent(GenEndpoints(t, ET.Children(t, i), i).value, 1);
    var url := HardenedUrl(ET.PathOf(t.nodes, n.parent.value));
    assert GenFixedEndpointAndChildren(t, i, true).value == FixedEndpointClass(hname, ref, url, methods, children);
    FixedClassParts(hname, ref, url, methods, children);
  }

  /**
    A variable endpoint (segment `{...}`) is a `VariableEndpoint` class named
    by its class name, with its hardened class nested two levels in.
  */
  lemma VariableEndpointShape(t: ET.Tree<MethodData>, i: nat)
    requires ET.Valid(t) && i < |t.nodes|
    requires ET.IsVariable(t.nodes[i].pathName) && GenEndpointAndChildren(t, i).Ok?
    ensures ET.ClassNameOf(t.nodes[i].pathName).Ok? && GenFixedEndpointAndChildren(t, i, true).Ok?
    ensures ClassKw + ET.ClassNameOf(t.nodes[i].pathName).value + VariableBase <= GenEndpointAndChildren(t, i).value
    ensures exists x, y :: GenEndpointAndChildren(t, i).value == x + Indent(GenFixedEndpointAndChildren(t, i, true).value, 2) + y
  {
    var name := ET.ClassNameOf(t.nodes[i].pathName).value;
    var ref := ParentRef(t, i).value;
    var code := GenEndpointAndChildren(t, i).value;
    var inner := Indent(GenFixedEndpointAndChildren(t, i, true).value, 2);
    var tail := VariableTail(name, "'" + ET.PathOf(t.nodes, i) + "'");
    assert code == VariableHead(name, ref) + (inner + UnindentClassSep) + tail;
    Regroup(VariableHead(name, ref), inner, UnindentClassSep, tail);
    PrefixOfAppend4(ClassKw + name + VariableBase, ParentRefDef + ref + NewDef, inner + UnindentClassSep, tail, "");
  }

  /** A variable endpoint at the root has no parent to take the hardened url from: generating it fails. */
  lemma VariableRootFails(t: ET.Tree<MethodData>, i: nat)
    requires ET.Valid(t) && i < |t.nodes|
    requires ET.IsVariable(t.nodes[i].pathName) && t.nodes[i].parent.None?
    ensures GenEndpointAndChildren(t, i).Err?
    ensures GenEndpoints(t, ET.Children(t, i), i).Ok? && ET.ClassNameOf(t.nodes[i].pathName).Ok? ==>
      GenEndpointAndChildren(t, i) == Err(AttributeError)
  {
    assert GenFixedEndpointAndChildren(t, i, true).Err?;
    if GenEndpoints(t, ET.Children(t, i), i).Ok? && ET.ClassNameOf(t.nodes[i].pathName).Ok? {
      assert GenFixedEndpointAndChildren(t, i, true) == Err(AttributeError);
    }
  }

  /**
    `_genEndpointAndChildren` as written: it asks for `endpoint.isVariable`,
    which `Parser.Endpoint` does not define, so it raises AttributeError for
    every endpoint.
  */
  function GenEndpointAndChildrenAsWritten(t: ET.Tree<MethodData>, i: nat): (r: Result<string>)
    requires ET.Valid(t) && i < |t.nodes|
    ensures r.Err? && r.error == AttributeError
  {
    Err(AttributeError)
  }

  /** A parser with the single endpoint `/users` and no methods. */
  function UsersTree(): ET.Tree<MethodData> {
    ET.Tree(Dict(["users"], map["users" := 0]), [ET.Fresh("users", None)])
  }

  lemma UsersTreeValid()
    ensures ET.Valid(UsersTree()) && ET.NodeOk(UsersTree().nodes, 0)
  {
    var t := UsersTree();
    assert ET.NodeOk(t.nodes, 0);
  }

  /**
    For the endpoint `/users`, the code as written fails, while reading
    `isVariable` as "the segment starts with `{`" gives the fixed class `users`
    at the root, with url '/users'.
  */
  lemma IsVariableFinding()
    ensures ET.Valid(UsersTree())
    ensures GenEndpointAndChildrenAsWritten(UsersTree(), 0) == Err(AttributeError)
    ensures ET.PathOf(UsersTree().nodes, 0) == "/users"
    ensures GenEndpointAndChildren(UsersTree(), 0) ==
      Ok(FixedEndpointClass("users", "None", "'" + ET.PathOf(UsersTree().nodes, 0) + "'", "", ""))
  {
    var t := UsersTree();
    UsersTreeValid();
    ET.ClassNameOfPlain("users");
    ParentRefNames(t, 0);
    assert ET.Children(t, 0) == [];
    assert t.nodes[0].methods.Values() == [];
    assert GenEndpoints(t, ET.Children(t, 0), 0) == Ok("");
    assert MethodsCode([]) == "" && Indent("", 1) == "";
    assert ParentRef(t, 0) == Ok("None");
    assert ET.ClassNameOf("users") == Ok("users");
    assert !ET.IsVariable("users");
    assert Indent(MethodsCode(t.nodes[0].methods.Values()), 1) == "";
    assert GenFixedEndpointAndChildren(t, 0, false) ==
      Ok(FixedEndpointClass("users", "None", "'" + ET.PathOf(t.nodes, 0) + "'", Indent(MethodsCode(t.nodes[0].methods.Values()), 1), Indent("", 1)));
  }

  // ---------------------------------------------------------------- schema models

  /** The two lines of `_propTemplate`: the attribute starts as `Schema.NoProp`, then its docstring. */
  function PropStmt(p: SchemaProperty): string {
    "self." + p.name + " = Schema.NoProp"
  }

  const DocQuotes := "\"\"\""

  function PropDoc(p: SchemaProperty): string {
    DocQuotes + p.desc + DocQuotes
  }

  /** `_genProp(prop)`. */
  function GenProp(p: SchemaProperty): string {
    PropStmt(p) + "\n" + PropDoc(p)
  }

  /** `_genProp` of each property, in order. */
  function PropCodes(props: seq<SchemaProperty>): seq<string>
    decreases |props|
  {
    if props == [] then [] else [GenProp(props[0])] + PropCodes(props[1..])
  }

  /** `propDefsStr`: the properties' code joined by newlines and indented two levels, into `__init__`. */
  function PropDefs(props: seq<SchemaProperty>): string {
    Indent(Join(PropCodes(props), "\n"), 2)
  }

  /** The lines of the properties' code: each property's statement, then its docstring. */
  function PropLines(props: seq<SchemaProperty>): seq<string>
    decreases |props|
  {
    if props == [] then [] else [PropStmt(props[0]), PropDoc(props[0])] + PropLines(props[1..])
  }

  lemma {:induction false} PropLinesIndex(props: seq<SchemaProperty>)
    ensures |PropLines(props)| == 2 * |props|
    ensures forall k :: 0 <= k < |props| ==> PropLines(props)[2 * k] == PropStmt(props[k])
    ensures forall k :: 0 <= k < |props| ==> PropLines(props)[2 * k + 1] == PropDoc(props[k])
    decreases |props|
  {
    if props != [] {
      PropLinesIndex(props[1..]);
      var rest := PropLines(props[1..]);
      assert forall k :: 0 < k < |props| ==> PropLines(props)[2 * k] == rest[2 * (k - 1)];
      assert forall k :: 0 < k < |props| ==> PropLines(props)[2 * k + 1] == rest[2 * (k - 1) + 1];
    }
  }

  /** Joining the properties' code by newlines is joining their lines by newlines. */
  lemma {:induction false} JoinPropLines(props: seq<SchemaProperty>)
    requires props != []
    ensures Join(PropCodes(props), "\n") == Join(PropLines(props), "\n")
    decreases |props|
  {
    var p := props[0];
    assert PropCodes(props) == [GenProp(p)] + PropCodes(props[1..]);
    assert PropLines(props) == [PropStmt(p), PropDoc(p)] + PropLines(props[1..]);
    JoinCons(GenProp(p), PropCodes(props[1..]), "\n");
    JoinCons2(PropStmt(p), PropDoc(p), PropLines(props[1..]), "\n");
    if |props| > 1 {
      JoinPropLines(props[1..]);
      assert PropCodes(props[1..]) != [] && PropLines(props[1..]) != [];
    }
  }

  /**
    With no newline in a property's name or description, `__init__`'s body has
    two lines per property, in order: `self.<name> = Schema.NoProp` and its
    docstring, each after two levels of indentation (the template itself
    indents the first).
  */
  lemma PropDefsLines(props: seq<SchemaProperty>)
    requires props != []
    requires forall k :: 0 <= k < |props| ==> '\n' !in props[k].name && '\n' !in props[k].desc
    ensures var lines := Split(PropDefs(props), '\n');
      && |lines| == 2 * |props|
      && lines[0] == PropStmt(props[0])
      && (forall k :: 0 < k < |props| ==> lines[2 * k] == Spaces(2) + PropStmt(props[k]))
      && (forall k :: 0 <= k < |props| ==> lines[2 * k + 1] == Spaces(2) + PropDoc(props[k]))
  {
    var lines := PropLines(props);
    PropLinesIndex(props);
    JoinPropLines(props);
    forall i | 0 <= i < |lines|
      ensures '\n' !in lines[i]
    {
      var k := i / 2;
      assert i == 2 * k || i == 2 * k + 1;
      assert '\n' !in props[k].name && '\n' !in props[k].desc;
    }
    SplitJoin(lines, '\n');
    IndentIsReplace(Join(lines, "\n"), 2);
    assert '\n' !in Spaces(2);
    SplitJoinPadded(lines, '\n', Spaces(2));
  }

  /** The set of the properties' names (`propDefNames`). */
  function NameSet(props: seq<SchemaProperty>): set<string> {
    set p | p in props :: p.name
  }

  /** The parser stores each property under its own name, so the names are the keys of the model's property dict. */
  lemma NameSetIsKeys(props: Dict<string, SchemaProperty>)
    requires PropsValid(props)
    ensures NameSet(props.Values()) == props.m.Keys
  {
    var values := props.Values();
    forall n | n in props.m.Keys
      ensures n in NameSet(values)
    {
      var i :| 0 <= i < |props.keys| && props.keys[i] == n;
      assert values[i] == props.m[n] && values[i].name == n;
    }
  }

  /** `order` lists each name of `names` once and nothing else: one of the set's iteration orders. */
  ghost predicate IsOrderOf(order: seq<string>, names: set<string>) {
    && (forall i, j :: 0 <= i < j < |order| ==> order[i] != order[j])
    && (forall n :: n in names <==> n in order)
  }

  /** Each name as Python's `repr` shows it. */
  function Quoted(names: seq<string>): seq<string>
    decreases |names|
  {
    if names == [] then [] else [Repr(names[0])] + Quoted(names[1..])
  }

  lemma {:induction false} QuotedIndex(names: seq<string>, k: nat)
    requires k < |names|
    ensures |Quoted(names)| == |names| && Quoted(names)[k] == Repr(names[k])
    decreases k
  {
    if k > 0 {
      QuotedIndex(names[1..], k - 1);
    } else {
      QuotedLength(names[1..]);
    }
  }

  lemma {:induction false} QuotedLength(names: seq<string>)
    ensures |Quoted(names)| == |names|
    decreases |names|
  {
    if names != [] {
      QuotedLength(names[1..]);
    }
  }

  const EmptySetRepr := "set()"

  /** `str()` of a set of names iterated in `order`: `set()` when empty, else the names' reprs in braces. */
  function SetRepr(order: seq<string>): string {
    if order == [] then EmptySetRepr else "{" + Join(Quoted(order), ", ") + "}"
  }

  /** Only the empty set is shown as `set()`. */
  lemma SetReprEmpty(order: seq<string>)
    ensures SetRepr(order) == EmptySetRepr <==> order == []
  {
    if order != [] {
      assert SetRepr(order)[0] == '{';
      assert EmptySetRepr[0] == 's';
    }
  }

  /** The name at position `k` of the order appears in the set's text as its repr. */
  lemma SetReprQuotes(order: seq<string>, k: nat)
    requires k < |order|
    ensures exists x, y :: SetRepr(order) == x + Repr(order[k]) + y
  {
    QuotedIndex(order, k);
    JoinContains(Quoted(order), ", ", k);
    var x, y :| Join(Quoted(order), ", ") == x + Quoted(order)[k] + y;
    Around("{", x, Repr(order[k]), y, "}");
  }

  lemma Around(l: string, x: string, n: string, y: string, r: string)
    ensures l + (x + n + y) + r == (l + x) + n + (y + r)
  {
  }

  /** The set's text is `set()` exactly when there are no names, and it holds the repr of every name. */
  lemma SetReprNames(order: seq<string>, names: set<string>)
    requires IsOrderOf(order, names)
    ensures SetRepr(order) == EmptySetRepr <==> names == {}
    ensures forall n :: n in names ==> exists x, y :: SetRepr(order) == x + Repr(n) + y
  {
    SetReprEmpty(order);
    if order != [] {
      assert order[0] in names;
    } else {
      assert forall n :: n in names ==> n in order;
    }
    forall n | n in names
      ensures exists x, y :: SetRepr(order) == x + Repr(n) + y
    {
      var k :| 0 <= k < |order| && order[k] == n;
      SetReprQuotes(order, k);
    }
  }

  /** The fixed pieces of `_schemaTemplate`. */
  const SchemaBase := "(Schema):\n    \"\"\""
  const PropNamesKw := "\"\"\"\n    _propNames = "
  const InitDef := "    " + MethodSep + "    def __init__(self):\n        "
  const SerializeDef := "    " + MethodSep + "    def serialize(self):\n"
    + "        serialDict = {\n"
    + "            propName: propVal\n"
    + "            for propName in self._propNames\n"
    + "            for propVal in [self.__dict__[propName]]\n"
    + "            if propVal is not Schema.NoProp\n"
    + "        }\n"
    + "        return serialDict"
  const LoadDef := "    " + MethodSep + "    def _loadJsonDict(self, jsonDict):\n"
    + "        for (propName, propVal) in jsonDict.items():\n"
    + "            assert propName in self._propNames, \"Unknown property '{}' found when loading dict (are you sure it's the right type?)\".format(propName)\n"
    + "            self.__dict__[propName] = propVal"

  /** `_schemaTemplate` filled in (with `_methodSep` as its method separator). */
  function SchemaClass(name: string, desc: string, propDefNames: string, propDefs: string): string {
    SchemaHead(name, desc) + propDefNames + (InitDef + propDefs + (SerializeDef + LoadDef))
  }

  function SchemaHead(name: string, desc: string): string {
    ClassKw + name + SchemaBase + (desc + PropNamesKw)
  }

  /** `_genSchemaModel(model)`, with `order` the iteration order of its set of property names. */
  function GenSchemaModel(model: SchemaData, order: seq<string>): string
    requires model.props.Valid() && IsOrderOf(order, NameSet(model.props.Values()))
  {
    SchemaClass(model.name, model.desc, SetRepr(order), PropDefs(model.props.Values()))
  }

  /** Where the pieces of a five-part text lie: `a + b` at the start, `c + d` and `e + f` inside. */
  lemma Layout(a: string, b: string, c: string, d: string, e: string, f: string, g: string)
    ensures a + b <= a + b + (c + d) + e + (f + g)
    ensures exists x, y :: a + b + (c + d) + e + (f + g) == x + d + e + y
    ensures exists x, y :: a + b + (c + d) + e + (f + g) == x + f + y
  {
    var s := a + b + (c + d) + e + (f + g);
    PrefixOfAppend4(a + b, c + d, e, f + g, "");
    assert s == (a + b + c) + d + e + (f + g);
    assert s == (a + b + (c + d) + e) + f + g;
  }

  /** A filled-in schema template starts with its class line and holds `_propNames = <names>` and `__init__` with its body. */
  lemma SchemaClassParts(name: string, desc: string, propDefNames: string, propDefs: string)
    ensures ClassKw + name + SchemaBase <= SchemaClass(name, desc, propDefNames, propDefs)
    ensures exists x, y :: SchemaClass(name, desc, propDefNames, propDefs) == x + PropNamesKw + propDefNames + y
    ensures exists x, y :: SchemaClass(name, desc, propDefNames, propDefs) == x + (InitDef + propDefs) + y
  {
    Layout(ClassKw + name, SchemaBase, desc, PropNamesKw, propDefNames, InitDef + propDefs, SerializeDef + LoadDef);
  }

  /**
    The class emitted for a schema model is named after it, and holds its
    `_propNames` set and the properties' initialisation in `__init__`.
  */
  lemma GenSchemaModelShape(model: SchemaData, order: seq<string>)
    requires model.props.Valid() && IsOrderOf(order, NameSet(model.props.Values()))
    ensures ClassKw + model.name + SchemaBase <= GenSchemaModel(model, order)
    ensures exists x, y :: GenSchemaModel(model, order) == x + PropNamesKw + SetRepr(order) + y
    ensures exists x, y :: GenSchemaModel(model, order) == x + (InitDef + PropDefs(model.props.Values())) + y
  {
    SchemaClassParts(model.name, model.desc, SetRepr(order), PropDefs(model.props.Values()));
  }

  /** `_propNames` holds the repr of every property name, and is `set()` exactly when the model has none. */
  lemma PropNamesListed(model: SchemaData, order: seq<string>)
    requires model.props.Valid() && IsOrderOf(order, NameSet(model.props.Values()))
    ensures SetRepr(order) == EmptySetRepr <==> model.props.keys == []
    ensures forall p :: p in model.props.Values() ==> exists x, y :: SetRepr(order) == x + Repr(p.name) + y
  {
    var values := model.props.Values();
    SetReprNames(order, NameSet(values));
    forall p | p in values
      ensures p.name in NameSet(values)
    {
    }
    if model.props.keys != [] {
      assert values[0] in values;
    }
  }

  /** `_genSchema(schema)`: each model after a `_classSep`, in order; `orders[k]` is the name order of `models[k]`. */
  function GenSchema(models: seq<SchemaData>, orders: seq<seq<string>>): string
    requires |orders| == |models|
    requires forall k :: 0 <= k < |models| ==> models[k].props.Valid() && IsOrderOf(orders[k], NameSet(models[k].props.Values()))
    decreases |models|
  {
    if models == [] then ""
    else ClassSep + GenSchemaModel(models[0], orders[0]) + GenSchema(models[1..], orders[1..])
  }

  /** The schema code is the in-order concatenation of `_classSep` + each model's code ("" for no models). */
  lemma {:induction false} GenSchemaConcat(models: seq<SchemaData>, orders: seq<seq<string>>, pieces: seq<string>)
    requires |orders| == |models|
    requires forall k :: 0 <= k < |models| ==> models[k].props.Valid() && IsOrderOf(orders[k], NameSet(models[k].props.Values()))
    requires |pieces| == |models|
    requires forall k :: 0 <= k < |models| ==> pieces[k] == ClassSep + GenSchemaModel(models[k], orders[k])
    ensures GenSchema(models, orders) == Concat(pieces)
    decreases |models|
  {
    if models != [] {
      GenSchemaConcat(models[1..], orders[1..], pieces[1..]);
    }
  }

  // ---------------------------------------------------------------- writeServers

  const RegisterHead := "registerServer(\""
  const RegisterMid := "\", \""
  const RegisterEnd := "\")"

  /** `_registerServerTemplate` filled in with a server's name and url. */
  function RegisterLine(s: Server): string {
    RegisterHead + s.name + RegisterMid + s.url + RegisterEnd
  }

  function RegisterLines(servers: seq<Server>): seq<string>
    decreases |servers|
  {
    if servers == [] then [] else [RegisterLine(servers[0])] + RegisterLines(servers[1..])
  }

  /** `writeServers(servers)`: the text it writes, the register lines joined by newlines, then `_classSep`. */
  function WriteServers(servers: seq<Server>): string {
    Join(RegisterLines(servers), "\n") + ClassSep
  }

  lemma {:induction false} RegisterLinesIndex(servers: seq<Server>)
    ensures |RegisterLines(servers)| == |servers|
    ensures forall k :: 0 <= k < |servers| ==> RegisterLines(servers)[k] == RegisterLine(servers[k])
    decreases |servers|
  {
    if servers != [] {
      RegisterLinesIndex(servers[1..]);
    }
  }

  /**
    With no newline in a server's name or url, the text written holds one
    `registerServer("name", "url")` line per server, in order, then the
    three newlines of `_classSep`; without servers it is `_classSep` alone.
  */
  lemma WriteServersLines(servers: seq<Server>)
    requires forall k :: 0 <= k < |servers| ==> '\n' !in servers[k].name && '\n' !in servers[k].url
    ensures servers == [] ==> WriteServers(servers) == ClassSep
    ensures servers != [] ==> Split(WriteServers(servers), '\n') == RegisterLines(servers) + ["", "", ""]
    ensures |RegisterLines(servers)| == |servers|
    ensures forall k :: 0 <= k < |servers| ==> RegisterLines(servers)[k] == RegisterHead + servers[k].name + RegisterMid + servers[k].url + RegisterEnd
  {
    var lines := RegisterLines(servers);
    RegisterLinesIndex(servers);
    if servers == [] {
      assert "" + ClassSep == ClassSep;
    } else {
      forall k | 0 <= k < |lines|
        ensures '\n' !in lines[k]
      {
        assert '\n' !in servers[k].name && '\n' !in servers[k].url;
      }
      SplitJoin(lines, '\n');
      var body := Join(lines, "\n");
      assert WriteServers(servers) == body + ['\n'] + "\n\n";
      SplitAtSep(body, "\n\n", '\n');
      assert Split("\n\n", '\n') == ["", "", ""];
    }
  }
}
