/**
  The endpoint tree of pyblitz/generator/parser.py as a value: every
  `Parser.Endpoint` lives in one sequence and refers to its parent and children
  by position. A parent always sits before its children, which is what makes
  walking up (`getPath`) and down (the generator) terminate. The methods map
  holds values of any type `M`; the parser stores `Method` objects there.
*/
module EndpointTree {
  import opened Wrappers
  import opened Dicts
  import opened Strs
  import CamelCase

  /** One `Parser.Endpoint`, with its two caches (`_className`, `_path` with `_lastParentOnPathCheck`). */
  datatype Node<M> = Node(
    pathName: string,
    parent: Option<nat>,
    children: Dict<string, nat>,
    methods: Dict<string, M>,
    className: Option<string>,
    path: Option<string>,
    lastParentOnPathCheck: Option<nat>)

  /** The parser's root dict (first path segment -> endpoint) and every endpoint created. */
  datatype Tree<M> = Tree(roots: Dict<string, nat>, nodes: seq<Node<M>>)

  /** `Parser.Endpoint(pathName, parent)` before `addChild` runs. */
  function Fresh<M>(pathName: string, parent: Option<nat>): Node<M> {
    Node(pathName, parent, Empty(), Empty(), None, None, None)
  }

  ghost predicate ParentsBelow<M>(nodes: seq<Node<M>>) {
    forall i :: 0 <= i < |nodes| && nodes[i].parent.Some? ==> nodes[i].parent.value < i
  }

  predicate InRange<M>(t: Tree<M>, cur: Option<nat>) {
    cur.Some? ==> cur.value < |t.nodes|
  }

  /** The path `getPath()` denotes: the parent's path, `/`, the segment; a root's parent path is empty. */
  function PathOf<M>(nodes: seq<Node<M>>, i: nat): string
    requires ParentsBelow(nodes) && i < |nodes|
    decreases i
  {
    var parentPath := match nodes[i].parent case None => "" case Some(p) => PathOf(nodes, p);
    parentPath + "/" + nodes[i].pathName
  }

  /** A segment written `{name}` is a path variable. */
  predicate IsVariable(pathName: string) {
    |pathName| > 0 && pathName[0] == '{'
  }

  /**
    The `className` property before memoisation: braces stripped from a
    variable segment (Python `s[1:-1]`), then dashes camel-cased.
    `pathName[0]` on an empty segment raises IndexError.
  */
  function ClassNameOf(pathName: string): Result<string> {
    if pathName == "" then Err(IndexError)
    else
      var noBraces := if pathName[0] == '{' then (if |pathName| >= 2 then pathName[1..|pathName| - 1] else "") else pathName;
      CamelCase.ConvertDashesToCamelCase(noBraces)
  }

  /** A variable segment is named after what is between its braces. */
  lemma ClassNameOfBraced(s: string)
    ensures ClassNameOf("{" + s + "}") == CamelCase.ConvertDashesToCamelCase(s)
  {
    var p := "{" + s + "}";
    assert p[1..|p| - 1] == s;
  }

  /** A plain segment without dashes is its own class name. */
  lemma ClassNameOfPlain(s: string)
    requires s != "" && s[0] != '{' && '-' !in s
    ensures ClassNameOf(s) == Ok(s)
  {
    CamelCase.NoDashUnchanged(s);
  }

  /** The consistency one endpoint keeps with the rest of the tree. */
  ghost predicate NodeOk<M>(nodes: seq<Node<M>>, i: nat)
    requires ParentsBelow(nodes) && i < |nodes|
  {
    var n := nodes[i];
    && n.children.Valid()
    && n.methods.Valid()
    && (forall k :: k in n.children.m ==>
          i < n.children.m[k] < |nodes| && nodes[n.children.m[k]].parent == Some(i) && nodes[n.children.m[k]].pathName == k)
    && (n.className.Some? ==> ClassNameOf(n.pathName) == Ok(n.className.value))
    && (n.path.Some? && n.lastParentOnPathCheck == n.parent ==> n.path.value == PathOf(nodes, i))
  }

  /**
    The tree's invariant: each root is keyed by its segment and has no parent;
    each child is keyed by its segment in its parent's dict, points back to that
    parent and comes after it; the caches hold what they would recompute.
  */
  ghost predicate Valid<M>(t: Tree<M>) {
    && t.roots.Valid()
    && ParentsBelow(t.nodes)
    && (forall k :: k in t.roots.m ==>
          t.roots.m[k] < |t.nodes| && t.nodes[t.roots.m[k]].parent.None? && t.nodes[t.roots.m[k]].pathName == k)
    && (forall i :: 0 <= i < |t.nodes| ==> NodeOk(t.nodes, i))
  }

  /** The endpoint reached by one segment: a root when `cur` is None, else a child of `cur`. */
  function Child<M>(t: Tree<M>, cur: Option<nat>, name: string): (r: Option<nat>)
    requires Valid(t) && InRange(t, cur)
    ensures r.Some? ==> r.value < |t.nodes| && t.nodes[r.value].pathName == name && t.nodes[r.value].parent == cur
  {
    match cur
    case None => if name in t.roots.m then Some(t.roots.m[name]) else None
    case Some(e) =>
      assert NodeOk(t.nodes, e);
      if name in t.nodes[e].children.m then Some(t.nodes[e].children.m[name]) else None
  }

  /** Following segments through existing endpoints only; None when one is missing. */
  function Follow<M>(t: Tree<M>, cur: Option<nat>, segs: seq<string>): (r: Option<nat>)
    requires Valid(t) && InRange(t, cur)
    ensures InRange(t, r)
    decreases |segs|
  {
    if segs == [] then cur
    else
      match Child(t, cur, segs[0])
      case None => None
      case Some(c) => Follow(t, Some(c), segs[1..])
  }

  /**
    `t2` grew from `t`: every endpoint keeps its segment and parent, and every
    root and child link stays.
  */
  ghost predicate Extends<M>(t: Tree<M>, t2: Tree<M>) {
    && |t.nodes| <= |t2.nodes|
    && (forall j :: 0 <= j < |t.nodes| ==> t2.nodes[j].pathName == t.nodes[j].pathName && t2.nodes[j].parent == t.nodes[j].parent)
    && (forall k :: k in t.roots.m ==> k in t2.roots.m && t2.roots.m[k] == t.roots.m[k])
    && (forall j, k :: 0 <= j < |t.nodes| && k in t.nodes[j].children.m ==>
          k in t2.nodes[j].children.m && t2.nodes[j].children.m[k] == t.nodes[j].children.m[k])
  }

  /** Old endpoints keep their methods; endpoints created since have none. */
  ghost predicate MethodsKept<M>(t: Tree<M>, t2: Tree<M>)
    requires |t.nodes| <= |t2.nodes|
  {
    && (forall j :: 0 <= j < |t.nodes| ==> t2.nodes[j].methods == t.nodes[j].methods)
    && (forall j :: |t.nodes| <= j < |t2.nodes| ==> t2.nodes[j].methods == Empty())
  }

  lemma ExtendsTrans<M>(t1: Tree<M>, t2: Tree<M>, t3: Tree<M>)
    requires Extends(t1, t2) && Extends(t2, t3)
    ensures Extends(t1, t3)
  {
  }

  lemma MethodsKeptTrans<M>(t1: Tree<M>, t2: Tree<M>, t3: Tree<M>)
    requires |t1.nodes| <= |t2.nodes| <= |t3.nodes|
    requires MethodsKept(t1, t2) && MethodsKept(t2, t3)
    ensures MethodsKept(t1, t3)
  {
  }

  /** A lookup that succeeded still succeeds, with the same endpoint, in a tree that grew. */
  lemma ChildExtends<M>(t: Tree<M>, t2: Tree<M>, cur: Option<nat>, name: string)
    requires Valid(t) && Valid(t2) && Extends(t, t2) && InRange(t, cur)
    requires Child(t, cur, name).Some?
    ensures Child(t2, cur, name) == Child(t, cur, name)
  {
  }

  lemma {:induction false} FollowExtends<M>(t: Tree<M>, t2: Tree<M>, cur: Option<nat>, segs: seq<string>)
    requires Valid(t) && Valid(t2) && Extends(t, t2) && InRange(t, cur)
    requires Follow(t, cur, segs).Some?
    ensures Follow(t2, cur, segs) == Follow(t, cur, segs)
    decreases |segs|
  {
    if segs != [] {
      var c := Child(t, cur, segs[0]).value;
      ChildExtends(t, t2, cur, segs[0]);
      FollowExtends(t, t2, Some(c), segs[1..]);
    }
  }

  /**
    `Parser.Endpoint(pathName, parent)`: a new endpoint after all others; with a
    parent, `addChild` sets its parent link and stores it in the parent's
    children dict under its segment (replacing one of the same segment).
  */
  function NewEndpoint<M>(t: Tree<M>, pathName: string, parent: Option<nat>): (r: (Tree<M>, nat))
    requires Valid(t) && InRange(t, parent)
    ensures r.1 == |t.nodes| && |r.0.nodes| == |t.nodes| + 1 && r.0.roots == t.roots
    ensures r.0.nodes[r.1] == Fresh(pathName, parent)
  {
    var id := |t.nodes|;
    var nodes := t.nodes + [Fresh(pathName, parent)];
    match parent
    case None => (Tree(t.roots, nodes), id)
    case Some(p) =>
      assert NodeOk(t.nodes, p);
      (Tree(t.roots, nodes[p := nodes[p].(children := nodes[p].children.Put(pathName, id))]), id)
  }

  /** Paths depend only on segments and parent links. */
  lemma {:induction false} PathOfStable<M, N>(nodes: seq<Node<M>>, nodes2: seq<Node<N>>, i: nat)
    requires ParentsBelow(nodes) && ParentsBelow(nodes2) && i < |nodes| <= |nodes2|
    requires forall j :: 0 <= j < |nodes| ==> nodes2[j].pathName == nodes[j].pathName && nodes2[j].parent == nodes[j].parent
    ensures PathOf(nodes2, i) == PathOf(nodes, i)
    decreases i
  {
    if nodes[i].parent.Some? {
      PathOfStable(nodes, nodes2, nodes[i].parent.value);
    }
  }

  /** Creating an endpoint keeps the tree's invariant, and no existing path changes. */
  lemma NewEndpointValid<M>(t: Tree<M>, pathName: string, parent: Option<nat>)
    requires Valid(t) && InRange(t, parent)
    ensures Valid(NewEndpoint(t, pathName, parent).0)
    ensures forall j :: 0 <= j < |t.nodes| ==> PathOf(NewEndpoint(t, pathName, parent).0.nodes, j) == PathOf(t.nodes, j)
  {
    var t2 := NewEndpoint(t, pathName, parent).0;
    assert ParentsBelow(t2.nodes);
    forall j | 0 <= j < |t.nodes|
      ensures PathOf(t2.nodes, j) == PathOf(t.nodes, j)
    {
      PathOfStable(t.nodes, t2.nodes, j);
    }
    forall j | 0 <= j < |t2.nodes|
      ensures NodeOk(t2.nodes, j)
    {
      if j < |t.nodes| {
        NewEndpointKeepsNode(t, pathName, parent, j);
      }
    }
  }

  /** An endpoint that existed before stays consistent when one is created. */
  lemma NewEndpointKeepsNode<M>(t: Tree<M>, pathName: string, parent: Option<nat>, j: nat)
    requires Valid(t) && InRange(t, parent) && j < |t.nodes|
    requires ParentsBelow(NewEndpoint(t, pathName, parent).0.nodes)
    ensures NodeOk(NewEndpoint(t, pathName, parent).0.nodes, j)
  {
    var (t2, id) := NewEndpoint(t, pathName, parent);
    assert NodeOk(t.nodes, j);
    PathOfStable(t.nodes, t2.nodes, j);
    var n := t.nodes[j];
    var n2 := t2.nodes[j];
    forall k | k in n2.children.m
      ensures j < n2.children.m[k] < |t2.nodes| && t2.nodes[n2.children.m[k]].parent == Some(j)
      ensures t2.nodes[n2.children.m[k]].pathName == k
    {
      if parent != Some(j) || k != pathName {
        assert k in n.children.m && n2.children.m[k] == n.children.m[k];
      }
    }
  }

  /**
    With a parent, the new endpoint is that parent's child under its segment
    and its path is the parent's path, `/`, the segment; no other link changes
    and no endpoint's methods change.
  */
  lemma NewEndpointSpec<M>(t: Tree<M>, pathName: string, parent: Option<nat>)
    requires Valid(t) && InRange(t, parent)
    ensures Valid(NewEndpoint(t, pathName, parent).0)
    ensures var (t2, id) := NewEndpoint(t, pathName, parent);
      && t2.nodes[id].parent == parent
      && (parent.Some? ==> Child(t2, parent, pathName) == Some(id))
      && PathOf(t2.nodes, id) == (match parent case None => "" case Some(p) => PathOf(t.nodes, p)) + "/" + pathName
      && (forall c, k :: InRange(t, c) && (c != parent || k != pathName) ==> Child(t2, c, k) == Child(t, c, k))
      && MethodsKept(t, t2)
  {
    NewEndpointValid(t, pathName, parent);
  }

  /** One step of `_recordMethod`'s loop: reuse the endpoint for the segment, or create it. */
  function StepInto<M>(t: Tree<M>, cur: Option<nat>, name: string): (r: (Tree<M>, nat))
    requires Valid(t) && InRange(t, cur)
    ensures Valid(r.0) && Extends(t, r.0) && MethodsKept(t, r.0)
    ensures Child(r.0, cur, name) == Some(r.1)
    ensures Child(t, cur, name).Some? ==> r == (t, Child(t, cur, name).value)
    ensures Child(t, cur, name).None? ==> r.1 == |t.nodes|
  {
    match Child(t, cur, name)
    case Some(c) => (t, c)
    case None =>
      NewEndpointSpec(t, name, cur);
      var (t1, id) := NewEndpoint(t, name, cur);
      if cur.None? then
        var t2 := Tree(t1.roots.Put(name, id), t1.nodes);
        assert forall i :: 0 <= i < |t2.nodes| ==> NodeOk(t2.nodes, i) by {
          assert t2.nodes == t1.nodes;
        }
        (t2, id)
      else
        (t1, id)
  }

  /**
    One turn of `_recordMethod`'s loop: the endpoint for the segment, under
    `cur` or among the roots, is created when it is missing and then looked up.
  */
  method Enter<M>(t: Tree<M>, cur: Option<nat>, name: string) returns (t2: Tree<M>, c: nat)
    requires Valid(t) && InRange(t, cur)
    ensures (t2, c) == StepInto(t, cur, name)
  {
    t2 := t;
    var child := Child(t, cur, name);
    if child.None? {
      var created := NewEndpoint(t, name, cur);
      var id := created.1;
      t2 := created.0;
      if cur.None? {
        t2 := Tree(t2.roots.Put(name, id), t2.nodes);
      }
      assert (t2, id) == StepInto(t, cur, name);
      child := Child(t2, cur, name);
    }
    c := child.value;
  }

  /** `_recordMethod`'s loop over the segments from endpoint `cur`. */
  function Walk<M>(t: Tree<M>, cur: Option<nat>, segs: seq<string>): (r: (Tree<M>, Option<nat>))
    requires Valid(t) && InRange(t, cur)
    ensures Valid(r.0) && InRange(r.0, r.1) && Extends(t, r.0) && MethodsKept(t, r.0)
    ensures segs != [] ==> r.1.Some?
    decreases |segs|
  {
    if segs == [] then (t, cur)
    else
      var (t1, c) := StepInto(t, cur, segs[0]);
      var r := Walk(t1, Some(c), segs[1..]);
      ExtendsTrans(t, t1, r.0);
      MethodsKeptTrans(t, t1, r.0);
      r
  }

  /** The walk over the segments from `k` on is a step into segment `k`, then the walk over the rest. */
  lemma WalkStep<M>(t: Tree<M>, cur: Option<nat>, segs: seq<string>, k: nat)
    requires Valid(t) && InRange(t, cur) && k < |segs|
    ensures var (t1, c) := StepInto(t, cur, segs[k]);
      Walk(t, cur, segs[k..]) == Walk(t1, Some(c), segs[k + 1..])
  {
    assert segs[k..][0] == segs[k];
    assert segs[k..][1..] == segs[k + 1..];
  }

  /** `_recordMethod`'s loop: the endpoints for the segments, one after the other, from the roots. */
  method WalkPath<M>(t: Tree<M>, segs: seq<string>) returns (t2: Tree<M>, endpoint: Option<nat>)
    requires Valid(t)
    ensures (t2, endpoint) == Walk(t, None, segs)
  {
    t2 := t;
    endpoint := None;
    var k := 0;
    while k < |segs|
      invariant 0 <= k <= |segs|
      invariant Valid(t2) && InRange(t2, endpoint)
      invariant Walk(t2, endpoint, segs[k..]) == Walk(t, None, segs)
    {
      WalkStep(t2, endpoint, segs, k);
      var c;
      t2, c := Enter(t2, endpoint, segs[k]);
      endpoint := Some(c);
      k := k + 1;
    }
  }

  /** After walking, following the same segments through the grown tree reaches the walk's endpoint. */
  lemma {:induction false} WalkFollows<M>(t: Tree<M>, cur: Option<nat>, segs: seq<string>)
    requires Valid(t) && InRange(t, cur)
    ensures Follow(Walk(t, cur, segs).0, cur, segs) == Walk(t, cur, segs).1
    decreases |segs|
  {
    if segs != [] {
      var (t1, c) := StepInto(t, cur, segs[0]);
      var r := Walk(t1, Some(c), segs[1..]);
      WalkFollows(t1, Some(c), segs[1..]);
      ChildExtends(t1, r.0, cur, segs[0]);
    }
  }

  /** When every segment already exists, walking creates nothing. */
  lemma {:induction false} WalkReuses<M>(t: Tree<M>, cur: Option<nat>, segs: seq<string>)
    requires Valid(t) && InRange(t, cur)
    requires Follow(t, cur, segs).Some?
    ensures Walk(t, cur, segs) == (t, Follow(t, cur, segs))
    decreases |segs|
  {
    if segs != [] {
      var c := Child(t, cur, segs[0]).value;
      WalkReuses(t, Some(c), segs[1..]);
    }
  }

  /** A walk from an endpoint ends at it or below it. */
  lemma {:induction false} WalkBelow<M>(t: Tree<M>, c: nat, segs: seq<string>)
    requires Valid(t) && c < |t.nodes|
    ensures Walk(t, Some(c), segs).1.Some? && Walk(t, Some(c), segs).1.value >= c
    decreases |segs|
  {
    if segs != [] {
      var (t1, c1) := StepInto(t, Some(c), segs[0]);
      assert t1.nodes[c1].parent == Some(c);
      WalkBelow(t1, c1, segs[1..]);
    }
  }

  /** When some segment is missing, the walk ends at an endpoint it created. */
  lemma {:induction false} WalkCreatesLeaf<M>(t: Tree<M>, cur: Option<nat>, segs: seq<string>)
    requires Valid(t) && InRange(t, cur)
    requires segs != [] && Follow(t, cur, segs).None?
    ensures Walk(t, cur, segs).1.Some? && Walk(t, cur, segs).1.value >= |t.nodes|
    decreases |segs|
  {
    var (t1, c) := StepInto(t, cur, segs[0]);
    if Child(t, cur, segs[0]).None? {
      WalkBelow(t1, c, segs[1..]);
    } else {
      WalkCreatesLeaf(t1, Some(c), segs[1..]);
    }
  }

  /** `endpoint.addMethod(method)`: the method is stored under its verb, replacing one of the same verb. */
  function AddMethod<M>(t: Tree<M>, i: nat, verb: string, m: M): (r: Tree<M>)
    requires Valid(t) && i < |t.nodes|
    ensures Valid(r) && Extends(t, r) && Extends(r, t) && |r.nodes| == |t.nodes|
    ensures r.nodes[i].methods == t.nodes[i].methods.Put(verb, m)
    ensures forall j :: 0 <= j < |t.nodes| && j != i ==> r.nodes[j] == t.nodes[j]
  {
    assert NodeOk(t.nodes, i);
    var r := Tree(t.roots, t.nodes[i := t.nodes[i].(methods := t.nodes[i].methods.Put(verb, m))]);
    assert forall j :: 0 <= j < |r.nodes| ==> NodeOk(r.nodes, j) by {
      forall j | 0 <= j < |r.nodes|
        ensures NodeOk(r.nodes, j)
      {
        MethodsChangeKeepsNode(t.nodes, i, t.nodes[i].methods.Put(verb, m), j);
      }
    }
    r
  }

  /** Replacing one endpoint's methods by a valid dict keeps every endpoint consistent. */
  lemma MethodsChangeKeepsNode<M>(nodes: seq<Node<M>>, i: nat, methods: Dict<string, M>, j: nat)
    requires ParentsBelow(nodes) && i < |nodes| && j < |nodes| && NodeOk(nodes, j) && methods.Valid()
    ensures ParentsBelow(nodes[i := nodes[i].(methods := methods)])
    ensures NodeOk(nodes[i := nodes[i].(methods := methods)], j)
  {
    var nodes2 := nodes[i := nodes[i].(methods := methods)];
    assert forall k :: 0 <= k < |nodes| ==> nodes2[k].pathName == nodes[k].pathName && nodes2[k].parent == nodes[k].parent;
    PathOfStable(nodes, nodes2, j);
  }

  /** `pathUrl.split("/")` with a leading empty segment dropped. */
  function PathSegments(url: string): (segs: seq<string>)
    ensures forall i :: 0 <= i < |segs| ==> '/' !in segs[i]
  {
    var pieces := Split(url, '/');
    if pieces[0] == "" then pieces[1..] else pieces
  }

  /** Only the empty url has no segments. */
  lemma PathSegmentsEmpty(url: string)
    ensures PathSegments(url) == [] <==> url == ""
  {
    if url != "" {
      var rest := Split(url[1..], '/');
      if url[0] == '/' {
        assert Split(url, '/') == [""] + rest;
      } else {
        assert Split(url, '/')[0] == [url[0]] + rest[0];
      }
    }
  }

  /** The segments joined back with `/` and a leading `/` give the url, with a leading `/` added when missing. */
  lemma PathSegmentsJoin(url: string)
    requires url != ""
    ensures "/" + Join(PathSegments(url), "/") == if url[0] == '/' then url else "/" + url
  {
    var rest := Split(url[1..], '/');
    JoinSplit(url, '/');
    if url[0] == '/' {
      assert Split(url, '/') == [""] + rest;
      JoinSplit(url[1..], '/');
      assert url == "/" + url[1..];
    } else {
      assert Split(url, '/')[0] == [url[0]] + rest[0];
    }
  }

  /** Each segment preceded by `/`. */
  function Slashed(segs: seq<string>): string
    decreases |segs|
  {
    if segs == [] then "" else "/" + segs[0] + Slashed(segs[1..])
  }

  lemma {:induction false} SlashedJoin(segs: seq<string>)
    requires segs != []
    ensures Slashed(segs) == "/" + Join(segs, "/")
    decreases |segs|
  {
    if |segs| > 1 {
      SlashedJoin(segs[1..]);
    }
  }

  /** Following segments below an endpoint appends them to its path. */
  lemma {:induction false} FollowPath<M>(t: Tree<M>, c: nat, segs: seq<string>)
    requires Valid(t) && c < |t.nodes|
    requires Follow(t, Some(c), segs).Some?
    ensures PathOf(t.nodes, Follow(t, Some(c), segs).value) == PathOf(t.nodes, c) + Slashed(segs)
    decreases |segs|
  {
    if segs == [] {
      assert PathOf(t.nodes, c) + Slashed(segs) == PathOf(t.nodes, c);
    } else {
      var ch := Child(t, Some(c), segs[0]).value;
      assert Follow(t, Some(c), segs) == Follow(t, Some(ch), segs[1..]);
      FollowPath(t, ch, segs[1..]);
      var p, rest := PathOf(t.nodes, c), Slashed(segs[1..]);
      assert PathOf(t.nodes, ch) == p + "/" + segs[0];
      assert Slashed(segs) == "/" + segs[0] + rest;
      assert (p + "/" + segs[0]) + rest == p + ("/" + segs[0] + rest);
    }
  }

  /** The path of the endpoint some segments lead to from the roots. */
  lemma FollowRootPath<M>(t: Tree<M>, segs: seq<string>)
    requires Valid(t) && segs != []
    requires Follow(t, None, segs).Some?
    ensures PathOf(t.nodes, Follow(t, None, segs).value) == Slashed(segs)
  {
    var r := Child(t, None, segs[0]).value;
    FollowPath(t, r, segs[1..]);
    assert PathOf(t.nodes, r) == "/" + segs[0];
    assert Slashed(segs) == "/" + segs[0] + Slashed(segs[1..]);
  }

  /**
    `parser._recordMethod(pathUrl, method)`: walk the url's segments from the
    roots, creating endpoints on demand, and add the method to the last one.
    An empty url has no segments, so `None.addMethod` raises AttributeError.
  */
  function RecordMethod<M>(t: Tree<M>, url: string, verb: string, m: M): (r: Result<Tree<M>>)
    requires Valid(t)
    ensures r.Err? <==> url == ""
    ensures r.Err? ==> r.error == AttributeError
    ensures r.Ok? ==> Valid(r.value) && Extends(t, r.value)
  {
    PathSegmentsEmpty(url);
    var (t1, e) := Walk(t, None, PathSegments(url));
    if e.None? then Err(AttributeError)
    else
      var r := AddMethod(t1, e.value, verb, m);
      ExtendsTrans(t, t1, r);
      Ok(r)
  }

  /** The methods of the endpoint some segments lead to from the roots, or none. */
  function MethodsAt<M>(t: Tree<M>, segs: seq<string>): (r: Dict<string, M>)
    requires Valid(t)
    ensures r.Valid()
  {
    match Follow(t, None, segs)
    case None => Empty()
    case Some(e) =>
      assert NodeOk(t.nodes, e);
      t.nodes[e].methods
  }

  /** The endpoint `_recordMethod(url, _)` adds the method to. */
  function Leaf<M>(t: Tree<M>, url: string): nat
    requires Valid(t) && url != ""
  {
    PathSegmentsEmpty(url);
    Walk(t, None, PathSegments(url)).1.value
  }

  /** The tree before `addMethod` runs, and the recorded tree seen through it. */
  lemma RecordMethodSteps<M>(t: Tree<M>, url: string, verb: string, m: M)
    requires Valid(t) && url != ""
    ensures var t1 := Walk(t, None, PathSegments(url)).0;
      && Leaf(t, url) < |t1.nodes|
      && RecordMethod(t, url, verb, m) == Ok(AddMethod(t1, Leaf(t, url), verb, m))
      && Follow(RecordMethod(t, url, verb, m).value, None, PathSegments(url)) == Some(Leaf(t, url))
  {
    var segs := PathSegments(url);
    PathSegmentsEmpty(url);
    var (t1, e) := Walk(t, None, segs);
    var t2 := AddMethod(t1, e.value, verb, m);
    WalkFollows(t, None, segs);
    FollowExtends(t1, t2, None, segs);
  }

  /**
    Following the url's segments after recording reaches an endpoint whose
    methods are the ones that path had, with this verb set to `m`: an earlier
    method of the same verb is replaced and other verbs are untouched.
  */
  lemma RecordMethodReaches<M>(t: Tree<M>, url: string, verb: string, m: M)
    requires Valid(t) && url != ""
    ensures Follow(RecordMethod(t, url, verb, m).value, None, PathSegments(url)).Some?
    ensures MethodsAt(RecordMethod(t, url, verb, m).value, PathSegments(url)) == MethodsAt(t, PathSegments(url)).Put(verb, m)
  {
    var segs := PathSegments(url);
    PathSegmentsEmpty(url);
    RecordMethodSteps(t, url, verb, m);
    var t1 := Walk(t, None, segs).0;
    var e := Leaf(t, url);
    var t2 := AddMethod(t1, e, verb, m);
    assert NodeOk(t1.nodes, e);
    assert Follow(t2, None, segs) == Some(e);
    assert MethodsAt(t2, segs) == t1.nodes[e].methods.Put(verb, m);
    if Follow(t, None, segs).Some? {
      WalkReuses(t, None, segs);
      assert t1.nodes[e].methods == MethodsAt(t, segs);
    } else {
      WalkCreatesLeaf(t, None, segs);
      assert t1.nodes[e].methods == Empty();
    }
  }

  /** The endpoint a method is recorded at has the url as its path, with a leading `/` added when missing. */
  lemma RecordMethodPath<M>(t: Tree<M>, url: string, verb: string, m: M)
    requires Valid(t) && url != ""
    ensures PathOf(RecordMethod(t, url, verb, m).value.nodes, Leaf(t, url)) == if url[0] == '/' then url else "/" + url
  {
    var segs := PathSegments(url);
    PathSegmentsEmpty(url);
    RecordMethodSteps(t, url, verb, m);
    FollowRootPath(RecordMethod(t, url, verb, m).value, segs);
    SlashedJoin(segs);
    PathSegmentsJoin(url);
  }

  /**
    Recording reuses what exists: every endpoint is still reached by the same
    segments and, unless it is the one recorded at, keeps its methods; nothing
    is created when the whole path existed; endpoints created on the way hold
    no methods; the first segment is a root keyed by itself.
  */
  lemma RecordMethodKeepsOthers<M>(t: Tree<M>, url: string, verb: string, m: M)
    requires Valid(t) && url != ""
    ensures var t2 := RecordMethod(t, url, verb, m).value;
      && (forall segs2 :: Follow(t, None, segs2).Some? ==> Follow(t2, None, segs2) == Follow(t, None, segs2))
      && (forall segs2 :: Follow(t, None, segs2).Some? && Follow(t, None, segs2) != Some(Leaf(t, url)) ==>
            MethodsAt(t2, segs2) == MethodsAt(t, segs2))
      && (forall j :: |t.nodes| <= j < |t2.nodes| && j != Leaf(t, url) ==> t2.nodes[j].methods == Empty())
      && (Follow(t, None, PathSegments(url)).Some? ==> |t2.nodes| == |t.nodes|)
  {
    var segs := PathSegments(url);
    PathSegmentsEmpty(url);
    RecordMethodSteps(t, url, verb, m);
    var t1 := Walk(t, None, segs).0;
    var leaf := Leaf(t, url);
    var t2 := RecordMethod(t, url, verb, m).value;
    assert t2 == AddMethod(t1, leaf, verb, m);
    forall segs2 | Follow(t, None, segs2).Some?
      ensures Follow(t2, None, segs2) == Follow(t, None, segs2)
      ensures Follow(t, None, segs2) != Some(leaf) ==> MethodsAt(t2, segs2) == MethodsAt(t, segs2)
    {
      FollowExtends(t, t2, None, segs2);
      var j := Follow(t, None, segs2).value;
      if j != leaf {
        assert t2.nodes[j] == t1.nodes[j];
      }
    }
    forall j | |t.nodes| <= j < |t2.nodes| && j != leaf
      ensures t2.nodes[j].methods == Empty()
    {
      assert t2.nodes[j] == t1.nodes[j];
    }
    if Follow(t, None, segs).Some? {
      WalkReuses(t, None, segs);
    }
  }

  /** The url's first segment is a root keyed by itself. */
  lemma RecordMethodRoot<M>(t: Tree<M>, url: string, verb: string, m: M)
    requires Valid(t) && url != ""
    ensures var t2 := RecordMethod(t, url, verb, m).value;
      PathSegments(url) != [] && PathSegments(url)[0] in t2.roots.m &&
      t2.nodes[t2.roots.m[PathSegments(url)[0]]].pathName == PathSegments(url)[0]
  {
    PathSegmentsEmpty(url);
    RecordMethodSteps(t, url, verb, m);
  }

  // ------------------------------------------- methods are carried, not inspected

  /** Every method held by the tree has an image under `f`. */
  ghost predicate Covers<M, N>(t: Tree<M>, f: map<M, N>) {
    forall i, v :: 0 <= i < |t.nodes| && v in t.nodes[i].methods.m ==> t.nodes[i].methods.m[v] in f
  }

  ghost function MapNode<M, N>(n: Node<M>, f: map<M, N>): Node<N>
    requires forall v :: v in n.methods.m ==> n.methods.m[v] in f
  {
    Node(n.pathName, n.parent, n.children, Dict(n.methods.keys, map v | v in n.methods.m :: f[n.methods.m[v]]),
      n.className, n.path, n.lastParentOnPathCheck)
  }

  /** The same tree with every method replaced by its image under `f`; links and paths are kept. */
  ghost function MapTree<M, N>(t: Tree<M>, f: map<M, N>): (r: Tree<N>)
    requires Covers(t, f)
    ensures |r.nodes| == |t.nodes| && r.roots == t.roots
    ensures forall i :: 0 <= i < |t.nodes| ==> r.nodes[i] == MapNode(t.nodes[i], f)
    ensures Valid(t) ==> Valid(r)
    ensures Valid(t) ==> forall j :: 0 <= j < |t.nodes| ==> PathOf(r.nodes, j) == PathOf(t.nodes, j)
  {
    var r := Tree(t.roots, seq(|t.nodes|, i requires 0 <= i < |t.nodes| => MapNode(t.nodes[i], f)));
    assert Valid(t) ==> Valid(r) && forall j :: 0 <= j < |t.nodes| ==> PathOf(r.nodes, j) == PathOf(t.nodes, j) by {
      if Valid(t) {
        assert ParentsBelow(r.nodes);
        forall j | 0 <= j < |t.nodes|
          ensures PathOf(r.nodes, j) == PathOf(t.nodes, j)
        {
          PathOfStable(t.nodes, r.nodes, j);
        }
        forall j | 0 <= j < |r.nodes|
          ensures NodeOk(r.nodes, j)
        {
          assert NodeOk(t.nodes, j);
        }
      }
    }
    r
  }

  /** Two maps that agree on the tree's methods give the same image. */
  lemma MapAgree<M, N>(t: Tree<M>, f: map<M, N>, g: map<M, N>)
    requires Covers(t, f) && Covers(t, g)
    requires forall i, v :: 0 <= i < |t.nodes| && v in t.nodes[i].methods.m ==> f[t.nodes[i].methods.m[v]] == g[t.nodes[i].methods.m[v]]
    ensures MapTree(t, f) == MapTree(t, g)
  {
    forall i | 0 <= i < |t.nodes|
      ensures MapNode(t.nodes[i], f) == MapNode(t.nodes[i], g)
    {
      var n := t.nodes[i];
      assert (map v | v in n.methods.m :: f[n.methods.m[v]]) == (map v | v in n.methods.m :: g[n.methods.m[v]]);
    }
  }

  /** A map that covers the tree covers every tree grown from it by `StepInto`. */
  lemma MapStepInto<M, N>(t: Tree<M>, f: map<M, N>, cur: Option<nat>, name: string)
    requires Valid(t) && Covers(t, f) && InRange(t, cur)
    ensures Covers(StepInto(t, cur, name).0, f)
    ensures MapTree(StepInto(t, cur, name).0, f) == StepInto(MapTree(t, f), cur, name).0
    ensures StepInto(t, cur, name).1 == StepInto(MapTree(t, f), cur, name).1
  {
    var mt := MapTree(t, f);
    assert Child(mt, cur, name) == Child(t, cur, name);
    if Child(t, cur, name).None? {
      var (t1, id) := NewEndpoint(t, name, cur);
      var (u1, uid) := NewEndpoint(mt, name, cur);
      assert MapNode(t1.nodes[id], f).methods.m.Keys == {};
      assert MapNode(t1.nodes[id], f) == u1.nodes[uid];
      assert Covers(t1, f);
      assert MapTree(t1, f).nodes == u1.nodes;
    }
  }

  lemma {:induction false} MapWalk<M, N>(t: Tree<M>, f: map<M, N>, cur: Option<nat>, segs: seq<string>)
    requires Valid(t) && Covers(t, f) && InRange(t, cur)
    ensures Covers(Walk(t, cur, segs).0, f)
    ensures MapTree(Walk(t, cur, segs).0, f) == Walk(MapTree(t, f), cur, segs).0
    ensures Walk(t, cur, segs).1 == Walk(MapTree(t, f), cur, segs).1
    decreases |segs|
  {
    if segs != [] {
      MapStepInto(t, f, cur, segs[0]);
      var (t1, c) := StepInto(t, cur, segs[0]);
      MapWalk(t1, f, Some(c), segs[1..]);
    }
  }

  /** Storing `m` in one endpoint's methods and then mapping is mapping and then storing `m`'s image. */
  lemma MapNodePut<M, N>(n: Node<M>, f: map<M, N>, verb: string, m: M)
    requires n.methods.Valid() && m in f
    requires forall v :: v in n.methods.m ==> n.methods.m[v] in f
    ensures var mn := MapNode(n, f);
      mn.methods.Valid() && MapNode(n.(methods := n.methods.Put(verb, m)), f) == mn.(methods := mn.methods.Put(verb, f[m]))
  {
    var n2 := n.(methods := n.methods.Put(verb, m));
    var mapped := map v | v in n.methods.m :: f[n.methods.m[v]];
    var mapped2 := map v | v in n2.methods.m :: f[n2.methods.m[v]];
    assert mapped.Keys == n.methods.m.Keys;
    assert mapped2.Keys == mapped.Keys + {verb};
    forall v | v in mapped2
      ensures mapped2[v] == mapped[verb := f[m]][v]
    {
    }
    assert mapped2 == mapped[verb := f[m]];
  }

  /** Adding a method and then mapping is mapping and then adding the method's image. */
  lemma MapAddMethod<M, N>(t: Tree<M>, f: map<M, N>, i: nat, verb: string, m: M)
    requires Valid(t) && Covers(t, f) && m in f && i < |t.nodes|
    ensures Covers(AddMethod(t, i, verb, m), f)
    ensures MapTree(AddMethod(t, i, verb, m), f) == AddMethod(MapTree(t, f), i, verb, f[m])
  {
    var t2 := AddMethod(t, i, verb, m);
    var u := MapTree(t, f);
    var u2 := AddMethod(u, i, verb, f[m]);
    assert NodeOk(t.nodes, i);
    assert Covers(t2, f) by {
      forall j, v | 0 <= j < |t2.nodes| && v in t2.nodes[j].methods.m
        ensures t2.nodes[j].methods.m[v] in f
      {
        if j != i {
          assert t2.nodes[j] == t.nodes[j];
        } else if v != verb {
          assert t2.nodes[j].methods.m[v] == t.nodes[i].methods.m[v];
        }
      }
    }
    MapNodePut(t.nodes[i], f, verb, m);
    var w := MapTree(t2, f);
    forall j | 0 <= j < |t.nodes|
      ensures w.nodes[j] == u2.nodes[j]
    {
      if j != i {
        assert t2.nodes[j] == t.nodes[j];
      } else {
        assert t2.nodes[i] == t.nodes[i].(methods := t.nodes[i].methods.Put(verb, m));
      }
    }
    assert w.nodes == u2.nodes;
  }

  /** Recording a method and then mapping is mapping and then recording the method's image. */
  lemma MapRecordMethod<M, N>(t: Tree<M>, f: map<M, N>, url: string, verb: string, m: M)
    requires Valid(t) && Covers(t, f) && m in f && url != ""
    ensures Covers(RecordMethod(t, url, verb, m).value, f)
    ensures MapTree(RecordMethod(t, url, verb, m).value, f) == RecordMethod(MapTree(t, f), url, verb, f[m]).value
  {
    PathSegmentsEmpty(url);
    var segs := PathSegments(url);
    MapWalk(t, f, None, segs);
    var (t1, e) := Walk(t, None, segs);
    MapAddMethod(t1, f, e.value, verb, m);
  }

  /** Every method object the tree holds, at any endpoint and under any verb. */
  ghost function MethodSet<M>(t: Tree<M>): set<M> {
    set i, v | 0 <= i < |t.nodes| && v in t.nodes[i].methods.m :: t.nodes[i].methods.m[v]
  }

  /** A method held at some endpoint under some verb is in the tree's method set. */
  lemma Held<M>(t: Tree<M>, i: nat, v: string)
    requires i < |t.nodes| && v in t.nodes[i].methods.m
    ensures t.nodes[i].methods.m[v] in MethodSet(t)
  {
  }

  /** Recording `m` leaves the tree holding `m` and methods it held before, no others. */
  lemma RecordMethodHolds<M>(t: Tree<M>, url: string, verb: string, m: M)
    requires Valid(t) && url != ""
    ensures m in MethodSet(RecordMethod(t, url, verb, m).value)
    ensures MethodSet(RecordMethod(t, url, verb, m).value) <= MethodSet(t) + {m}
  {
    RecordMethodSteps(t, url, verb, m);
    var t1 := Walk(t, None, PathSegments(url)).0;
    var leaf := Leaf(t, url);
    var t2 := RecordMethod(t, url, verb, m).value;
    assert t2.nodes[leaf].methods.m[verb] == m;
    forall o | o in MethodSet(t2)
      ensures o in MethodSet(t) + {m}
    {
      var i, v :| 0 <= i < |t2.nodes| && v in t2.nodes[i].methods.m && t2.nodes[i].methods.m[v] == o;
      if o != m {
        assert v in t1.nodes[i].methods.m && t1.nodes[i].methods.m[v] == o;
        assert i < |t.nodes| && t.nodes[i].methods.m[v] == o;
      }
    }
  }

  /** `_recordMethod` read off its walk: no endpoint for the empty url, else `addMethod` on the last one. */
  lemma RecordMethodWalked<M>(t: Tree<M>, url: string, verb: string, m: M, t1: Tree<M>, e: Option<nat>)
    requires Valid(t) && (t1, e) == Walk(t, None, PathSegments(url))
    ensures e.None? <==> url == ""
    ensures e.None? ==> t1 == t
    ensures e.Some? ==> Valid(t1) && e.value < |t1.nodes|
    ensures e.Some? ==> RecordMethod(t, url, verb, m) == Ok(AddMethod(t1, e.value, verb, m))
  {
    PathSegmentsEmpty(url);
  }

  /**
    The body of `_recordMethod`: the url's segments are walked from the root dict,
    creating missing endpoints, and `m` is added to the last one under `verb`.
    The tree then holds `m` and the methods it held before, no others.
  */
  method RecordPath<M>(t: Tree<M>, url: string, verb: string, m: M) returns (r: Result<Tree<M>>)
    requires Valid(t)
    ensures r == RecordMethod(t, url, verb, m)
    ensures r.Ok? ==> m in MethodSet(r.value) && MethodSet(r.value) <= MethodSet(t) + {m}
  {
    var segs := PathSegments(url);
    var t1, endpoint := WalkPath(t, segs);
    RecordMethodWalked(t, url, verb, m, t1, endpoint);
    if endpoint.None? {
      return Err(AttributeError);
    }
    r := Ok(AddMethod(t1, endpoint.value, verb, m));
    RecordMethodHolds(t, url, verb, m);
  }

  /**
    Recording a freshly made method `m` and mapping is mapping the old tree and
    recording `m`'s image: `f2` gives `m` its image and agrees with `f0` on
    every other method the recorded tree holds.
  */
  lemma MapRecordFresh<M, N>(t: Tree<M>, f0: map<M, N>, f2: map<M, N>, url: string, verb: string, m: M)
    requires Valid(t) && url != "" && Covers(t, f0) && m !in MethodSet(t) && m in f2
    requires forall o :: o in MethodSet(RecordMethod(t, url, verb, m).value) ==> o in f2
    requires forall o :: o in MethodSet(t) ==> o in f0 && (o in f2 ==> f2[o] == f0[o])
    ensures Covers(RecordMethod(t, url, verb, m).value, f2)
    ensures RecordMethod(MapTree(t, f0), url, verb, f2[m]) == Ok(MapTree(RecordMethod(t, url, verb, m).value, f2))
  {
    var t2 := RecordMethod(t, url, verb, m).value;
    RecordMethodHolds(t, url, verb, m);
    var g := f0[m := f2[m]];
    MapAgreeSet(t, f0, g);
    MapRecordMethod(t, g, url, verb, m);
    forall o | o in MethodSet(t2)
      ensures o in g && o in f2 && g[o] == f2[o]
    {
      if o != m {
        assert o in MethodSet(t);
      }
    }
    MapAgreeSet(t2, g, f2);
  }

  /** Two maps that agree on every method the tree holds cover it and give the same image. */
  lemma MapAgreeSet<M, N>(t: Tree<M>, f: map<M, N>, g: map<M, N>)
    requires forall o :: o in MethodSet(t) ==> o in f && o in g && f[o] == g[o]
    ensures Covers(t, f) && Covers(t, g) && MapTree(t, f) == MapTree(t, g)
  {
    forall i, v | 0 <= i < |t.nodes| && v in t.nodes[i].methods.m
      ensures t.nodes[i].methods.m[v] in f && t.nodes[i].methods.m[v] in g
      ensures f[t.nodes[i].methods.m[v]] == g[t.nodes[i].methods.m[v]]
    {
      Held(t, i, v);
    }
    MapAgree(t, f, g);
  }

  // ------------------------------------------------------------- the caches

  /** `t2` differs from `t` at most in the endpoints' caches. */
  ghost predicate CachesOnly<M>(t: Tree<M>, t2: Tree<M>) {
    && t2.roots == t.roots && |t2.nodes| == |t.nodes|
    && forall j :: 0 <= j < |t.nodes| ==>
         && t2.nodes[j].pathName == t.nodes[j].pathName && t2.nodes[j].parent == t.nodes[j].parent
         && t2.nodes[j].children == t.nodes[j].children && t2.nodes[j].methods == t.nodes[j].methods
  }

  lemma CachesOnlyKeeps<M>(t: Tree<M>, t2: Tree<M>)
    requires Valid(t) && ParentsBelow(t2.nodes) && CachesOnly(t, t2)
    ensures Extends(t, t2) && Extends(t2, t) && MethodsKept(t, t2) && MethodSet(t2) == MethodSet(t)
    ensures forall j :: 0 <= j < |t.nodes| ==> PathOf(t2.nodes, j) == PathOf(t.nodes, j)
  {
    forall j | 0 <= j < |t.nodes|
      ensures PathOf(t2.nodes, j) == PathOf(t.nodes, j)
    {
      PathOfStable(t.nodes, t2.nodes, j);
    }
  }

  /** `self._className = casedName`: the cache is set to what it would recompute. */
  function CacheClassName<M>(t: Tree<M>, i: nat, c: string): (r: Tree<M>)
    requires Valid(t) && i < |t.nodes| && ClassNameOf(t.nodes[i].pathName) == Ok(c)
    ensures Valid(r) && CachesOnly(t, r)
    ensures r.nodes[i].className == Some(c)
    ensures r.nodes[i].path == t.nodes[i].path && r.nodes[i].lastParentOnPathCheck == t.nodes[i].lastParentOnPathCheck
    ensures forall j :: 0 <= j < |t.nodes| && j != i ==> r.nodes[j] == t.nodes[j]
  {
    var r := Tree(t.roots, t.nodes[i := t.nodes[i].(className := Some(c))]);
    assert ParentsBelow(r.nodes);
    CachesOnlyKeeps(t, r);
    assert forall j :: 0 <= j < |r.nodes| ==> NodeOk(r.nodes, j) by {
      forall j | 0 <= j < |r.nodes|
        ensures NodeOk(r.nodes, j)
      {
        assert NodeOk(t.nodes, j);
      }
    }
    r
  }

  /** `self._path = parentPath + "/" + self._pathName; self._lastParentOnPathCheck = self._parent` */
  function CachePath<M>(t: Tree<M>, i: nat, p: string): (r: Tree<M>)
    requires Valid(t) && i < |t.nodes| && p == PathOf(t.nodes, i)
    ensures Valid(r) && CachesOnly(t, r)
    ensures r.nodes[i].path == Some(p) && r.nodes[i].lastParentOnPathCheck == t.nodes[i].parent
    ensures r.nodes[i].className == t.nodes[i].className
    ensures forall j :: 0 <= j < |t.nodes| && j != i ==> r.nodes[j] == t.nodes[j]
  {
    var n := t.nodes[i];
    var r := Tree(t.roots, t.nodes[i := n.(path := Some(p), lastParentOnPathCheck := n.parent)]);
    assert ParentsBelow(r.nodes);
    CachesOnlyKeeps(t, r);
    assert forall j :: 0 <= j < |r.nodes| ==> NodeOk(r.nodes, j) by {
      forall j | 0 <= j < |r.nodes|
        ensures NodeOk(r.nodes, j)
      {
        assert NodeOk(t.nodes, j);
      }
    }
    r
  }

  // ----------------------------------------------------- endpoint accessors

  /** `endpoint.hasChild(name)` */
  predicate HasChild<M>(t: Tree<M>, i: nat, name: string)
    requires i < |t.nodes|
  {
    name in t.nodes[i].children.m
  }

  /** `endpoint.getChildFromName(name)`: the child of that segment; KeyError when there is none. */
  function GetChildFromName<M>(t: Tree<M>, i: nat, name: string): (r: Result<nat>)
    requires Valid(t) && i < |t.nodes|
    ensures r.Ok? <==> HasChild(t, i, name)
    ensures r.Err? ==> r.error == KeyError
    ensures r.Ok? ==> r.value == t.nodes[i].children.m[name]
    ensures r.Ok? ==> r.value < |t.nodes| && t.nodes[r.value].pathName == name && t.nodes[r.value].parent == Some(i)
  {
    assert NodeOk(t.nodes, i);
    if name in t.nodes[i].children.m then Ok(t.nodes[i].children.m[name]) else Err(KeyError)
  }

  /**
    `endpoint.children`: one entry per child segment, in the order the segments
    were first added, each the child stored under that segment; every child is
    listed once and points back to the endpoint.
  */
  function Children<M>(t: Tree<M>, i: nat): (r: seq<nat>)
    requires Valid(t) && i < |t.nodes|
    ensures |r| == |t.nodes[i].children.keys|
    ensures forall j :: 0 <= j < |r| ==> r[j] == t.nodes[i].children.m[t.nodes[i].children.keys[j]]
    ensures forall k :: k in t.nodes[i].children.m ==> t.nodes[i].children.m[k] in r
    ensures forall j, l :: 0 <= j < l < |r| ==> r[j] != r[l]
    ensures forall j :: 0 <= j < |r| ==> i < r[j] < |t.nodes| && t.nodes[r[j]].parent == Some(i)
  {
    assert NodeOk(t.nodes, i);
    var r := t.nodes[i].children.Values();
    ValuesListAll(t.nodes[i].children);
    forall j, l | 0 <= j < l < |r|
      ensures r[j] != r[l]
    {
      assert t.nodes[r[j]].pathName == t.nodes[i].children.keys[j];
      assert t.nodes[r[l]].pathName == t.nodes[i].children.keys[l];
    }
    r
  }

  /** `endpoint.hasMethod(verb)` */
  predicate HasMethod<M>(t: Tree<M>, i: nat, verb: string)
    requires i < |t.nodes|
  {
    verb in t.nodes[i].methods.m
  }

  /** `endpoint.getMethodFromName(verb)`: the method of that verb; KeyError when there is none. */
  function GetMethodFromName<M>(t: Tree<M>, i: nat, verb: string): (r: Result<M>)
    requires Valid(t) && i < |t.nodes|
    ensures r.Ok? <==> HasMethod(t, i, verb)
    ensures r.Err? ==> r.error == KeyError
    ensures r.Ok? ==> r.value == t.nodes[i].methods.m[verb]
  {
    if verb in t.nodes[i].methods.m then Ok(t.nodes[i].methods.m[verb]) else Err(KeyError)
  }

  /**
    `parser.endpoints`: one entry per first segment, in the order the segments
    were first recorded, each the root stored under that segment; every root is
    listed once and has no parent.
  */
  function Roots<M>(t: Tree<M>): (r: seq<nat>)
    requires Valid(t)
    ensures |r| == |t.roots.keys|
    ensures forall j :: 0 <= j < |r| ==> r[j] == t.roots.m[t.roots.keys[j]]
    ensures forall k :: k in t.roots.m ==> t.roots.m[k] in r
    ensures forall j, l :: 0 <= j < l < |r| ==> r[j] != r[l]
    ensures forall j :: 0 <= j < |r| ==> r[j] < |t.nodes| && t.nodes[r[j]].parent.None?
  {
    var r := t.roots.Values();
    ValuesListAll(t.roots);
    forall j, l | 0 <= j < l < |r|
      ensures r[j] != r[l]
    {
      assert t.nodes[r[j]].pathName == t.roots.keys[j];
      assert t.nodes[r[l]].pathName == t.roots.keys[l];
    }
    r
  }
}
