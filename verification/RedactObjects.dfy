/**
 The redaction walkers as they work: recursion over objects and arrays that are overwritten in
 place. A parsed document is a tree of nodes that share nothing.
 */
module RedactObjects {
  import opened Prelude
  import opened Redact

  datatype Value = Plain(v: Scalar) | Ref(node: Node)

  /** A Go map or slice of values. */
  class Node {
    const isMap: bool
    var fields: map<string, Value>
    var items: seq<Value>
    /** All nodes of the tree under this one. */
    ghost const tree: set<Node>

    constructor (isMap: bool, fields: map<string, Value>, items: seq<Value>, ghost below: set<Node>)
      ensures this.isMap == isMap && this.fields == fields && this.items == items && tree == below + {this}
    {
      this.isMap, this.fields, this.items, this.tree := isMap, fields, items, below + {this};
    }
  }

  ghost function Foot(v: Value): set<Node> {
    if v.Ref? then v.node.tree else {}
  }

  /** The value stands for the document j, in nodes of its own. */
  ghost predicate Holds(v: Value, j: Json)
    reads if v.Ref? then {v.node} + v.node.tree else {}
    decreases j
  {
    match j
    case Leaf(x) => v == Plain(x)
    case Obj(f) =>
      && v.Ref? && v.node in v.node.tree && v.node.isMap && v.node.fields.Keys == f.Keys
      && (forall k {:trigger v.node.fields[k]} :: k in f ==> Inside(v.node, v.node.fields[k]) && Holds(v.node.fields[k], f[k]))
      && (forall k, l {:trigger v.node.fields[k], v.node.fields[l]} :: k in f && l in f && k != l ==> Foot(v.node.fields[k]) !! Foot(v.node.fields[l]))
    case Arr(a) =>
      && v.Ref? && v.node in v.node.tree && !v.node.isMap && |v.node.items| == |a|
      && (forall i {:trigger v.node.items[i]} :: 0 <= i < |a| ==> Inside(v.node, v.node.items[i]) && Holds(v.node.items[i], a[i]))
      && (forall i, n {:trigger v.node.items[i], v.node.items[n]} :: 0 <= i < n < |a| ==> Foot(v.node.items[i]) !! Foot(v.node.items[n]))
  }

  /** The value's nodes belong to the tree under the node, and the node is not one of them. */
  ghost predicate Inside(node: Node, v: Value) {
    v.Ref? ==> v.node in node.tree && v.node.tree <= node.tree - {node}
  }

  // ---------- Changing one entry of a container ----------

  method MaskField(node: Node, ghost f: map<string, Json>, k: string, mask: string)
    requires Holds(Ref(node), Obj(f)) && k in f
    modifies node
    ensures Holds(Ref(node), Obj(f[k := Mask(mask)]))
  {
    ghost var was, g := node.fields, f[k := Mask(mask)];
    node.fields := node.fields[k := Plain(Str(mask))];
    assert g.Keys == f.Keys == node.fields.Keys;
    forall l | l in g && l != k ensures Inside(node, node.fields[l]) && Holds(node.fields[l], g[l]) {
      assert node.fields[l] == was[l];
    }
    forall l, m | l in g && m in g && l != m ensures Foot(node.fields[l]) !! Foot(node.fields[m]) {
      assert l == k || m == k || Foot(was[l]) !! Foot(was[m]);
    }
  }

  // ---------- Walking all keys ----------

  /** redactKeysWalk, and RedactSensitiveKeys with its own notion of a hit. */
  method Walk(v: Value, ghost j: Json, hit: string -> bool, mask: string) returns (matched: bool)
    requires Holds(v, j)
    modifies Foot(v)
    ensures Holds(v, Walked(j, hit, mask))
    ensures matched == Matched(j, hit)
    decreases j, 1
  {
    if v.Plain? { return false; }
    if v.node.isMap {
      matched := WalkMap(v.node, j, hit, mask);
    } else {
      matched := WalkList(v.node, j, hit, mask);
    }
  }

  /** Some of the fields of f are replaced by those of g, all but those in rest. */
  ghost predicate Between(f: map<string, Json>, g: map<string, Json>, rest: set<string>, cur: map<string, Json>) {
    && cur.Keys == f.Keys == g.Keys && rest <= f.Keys
    && forall k :: k in cur ==> cur[k] == if k in rest then f[k] else g[k]
  }

  lemma BetweenEnds(f: map<string, Json>, g: map<string, Json>, cur: map<string, Json>)
    requires f.Keys == g.Keys
    ensures Between(f, g, f.Keys, f)
    ensures Between(f, g, {}, cur) ==> cur == g
  {
  }

  lemma BetweenStep(f: map<string, Json>, g: map<string, Json>, rest: set<string>, cur: map<string, Json>, k: string)
    requires Between(f, g, rest, cur) && k in rest
    ensures cur[k] == f[k] && Between(f, g, rest - {k}, cur[k := g[k]])
  {
  }

  method WalkField(node: Node, ghost f: map<string, Json>, k: string, hit: string -> bool, mask: string)
    returns (matched: bool)
    requires Holds(Ref(node), Obj(f)) && k in f
    modifies node.tree
    ensures Holds(Ref(node), Obj(f[k := Walked(f[k], hit, mask)]))
    ensures matched == Matched(f[k], hit)
    decreases f[k], 2
  {
    matched := Walk(node.fields[k], f[k], hit, mask);
    ghost var g := f[k := Walked(f[k], hit, mask)];
    assert g.Keys == f.Keys;
    forall l | l in g ensures Inside(node, node.fields[l]) && Holds(node.fields[l], g[l]) {
      if l != k { assert Foot(node.fields[l]) !! Foot(node.fields[k]); }
    }
  }

  /** One turn of the loop over a map. */
  method WalkEntry(node: Node, ghost f: map<string, Json>, k: string, hit: string -> bool, mask: string)
    returns (matched: bool)
    requires Holds(Ref(node), Obj(f)) && k in f
    modifies node.tree
    ensures Holds(Ref(node), Obj(f[k := if hit(k) then Mask(mask) else Walked(f[k], hit, mask)]))
    ensures matched <==> hit(k) || Matched(f[k], hit)
    decreases f[k], 3
  {
    if hit(k) {
      MaskField(node, f, k, mask);
      matched := true;
    } else {
      matched := WalkField(node, f, k, hit, mask);
    }
  }

  method WalkItem(node: Node, ghost a: seq<Json>, i: nat, hit: string -> bool, mask: string) returns (matched: bool)
    requires Holds(Ref(node), Arr(a)) && i < |a|
    modifies node.tree
    ensures Holds(Ref(node), Arr(a[i := Walked(a[i], hit, mask)]))
    ensures matched == Matched(a[i], hit)
    decreases a[i], 2
  {
    matched := Walk(node.items[i], a[i], hit, mask);
    ghost var b := a[i := Walked(a[i], hit, mask)];
    forall n | 0 <= n < |b| ensures Inside(node, node.items[n]) && Holds(node.items[n], b[n]) {
      if n != i { assert Foot(node.items[n]) !! Foot(node.items[i]); }
    }
  }

  /** Some field outside rest is hit or matched below. */
  ghost predicate MatchedOutside(f: map<string, Json>, rest: set<string>, hit: string -> bool) {
    exists k :: k in f && k !in rest && (hit(k) || Matched(f[k], hit))
  }

  lemma MatchedOutsideEnds(f: map<string, Json>, hit: string -> bool)
    ensures !MatchedOutside(f, f.Keys, hit)
    ensures MatchedOutside(f, {}, hit) == Matched(Obj(f), hit)
  {
  }

  lemma MatchedOutsideStep(f: map<string, Json>, rest: set<string>, k: string, hit: string -> bool)
    requires k in f && k in rest
    ensures MatchedOutside(f, rest - {k}, hit) <==> MatchedOutside(f, rest, hit) || hit(k) || Matched(f[k], hit)
  {
    if hit(k) || Matched(f[k], hit) { assert k !in rest - {k}; }
  }

  method WalkMap(node: Node, ghost j: Json, hit: string -> bool, mask: string) returns (matched: bool)
    requires j.Obj? && Holds(Ref(node), j)
    modifies node.tree
    ensures Holds(Ref(node), Walked(j, hit, mask))
    ensures matched == Matched(j, hit)
    decreases j, 0
  {
    ghost var f, g := j.fields, Walked(j, hit, mask).fields;
    ghost var cur := f;
    matched := false;
    var rest := node.fields.Keys;
    BetweenEnds(f, g, f);
    MatchedOutsideEnds(f, hit);
    while rest != {}
      invariant Between(f, g, rest, cur)
      invariant Holds(Ref(node), Obj(cur))
      invariant matched == MatchedOutside(f, rest, hit)
      decreases rest
    {
      var k :| k in rest;
      BetweenStep(f, g, rest, cur, k);
      MatchedOutsideStep(f, rest, k, hit);
      var m := WalkEntry(node, cur, k, hit, mask);
      if m { matched := true; }
      rest, cur := rest - {k}, cur[k := g[k]];
    }
    BetweenEnds(f, g, cur);
  }

  /** The first i elements of a are replaced by those of b. */
  ghost predicate Advanced(a: seq<Json>, b: seq<Json>, i: int, cur: seq<Json>) {
    && |cur| == |a| == |b| && 0 <= i <= |a|
    && forall n :: 0 <= n < |cur| ==> cur[n] == if n < i then b[n] else a[n]
  }

  lemma AdvancedEnds(a: seq<Json>, b: seq<Json>, cur: seq<Json>)
    requires |a| == |b|
    ensures Advanced(a, b, 0, a)
    ensures Advanced(a, b, |a|, cur) ==> cur == b
  {
  }

  lemma AdvancedStep(a: seq<Json>, b: seq<Json>, i: int, cur: seq<Json>)
    requires Advanced(a, b, i, cur) && i < |a|
    ensures cur[i] == a[i] && Advanced(a, b, i + 1, cur[i := b[i]])
  {
  }

  method WalkList(node: Node, ghost j: Json, hit: string -> bool, mask: string) returns (matched: bool)
    requires j.Arr? && Holds(Ref(node), j)
    modifies node.tree
    ensures Holds(Ref(node), Walked(j, hit, mask))
    ensures matched == Matched(j, hit)
    decreases j, 0
  {
    ghost var a, b := j.items, Walked(j, hit, mask).items;
    ghost var cur := a;
    matched := false;
    var n := |node.items|;
    AdvancedEnds(a, b, a);
    for i := 0 to n
      invariant n == |a| && Advanced(a, b, i, cur)
      invariant Holds(Ref(node), Arr(cur))
      invariant matched <==> exists m :: 0 <= m < i && Matched(a[m], hit)
    {
      AdvancedStep(a, b, i, cur);
      var m := WalkItem(node, cur, i, hit, mask);
      if m { matched := true; }
      cur := cur[i := b[i]];
    }
    AdvancedEnds(a, b, cur);
  }

  /** RedactKeys: an empty list hits nothing, so leaving early changes nothing. */
  method RedactKeys(v: Value, ghost j: Json, lower: string -> string, keys: seq<string>, mask: string)
    returns (matched: bool)
    requires Holds(v, j)
    modifies Foot(v)
    ensures Holds(v, Walked(j, KeysHit(lower, keys), mask))
    ensures matched == Matched(j, KeysHit(lower, keys))
  {
    if |keys| == 0 {
      NothingHit(j, KeysHit(lower, keys));
      UnmatchedIsUnchanged(j, KeysHit(lower, keys), mask);
      return false;
    }
    matched := Walk(v, j, KeysHit(lower, keys), mask);
  }

  lemma {:induction false} NothingHit(j: Json, hit: string -> bool)
    requires forall k :: !hit(k)
    ensures !Matched(j, hit)
  {
    match j
    case Leaf(_) =>
    case Obj(f) =>
      forall k | k in f { NothingHit(f[k], hit); }
    case Arr(a) =>
      forall i | 0 <= i < |a| { NothingHit(a[i], hit); }
  }

  // ---------- Following a path ----------

  method RedactPath(v: Value, ghost j: Json, path: seq<string>, mask: string) returns (matched: bool)
    requires Holds(v, j)
    modifies Foot(v)
    ensures Holds(v, PathRedacted(j, path, mask))
    ensures matched == PathMatched(j, path)
    decreases j, 1
  {
    if |path| == 0 || v.Plain? { return false; }
    var node := v.node;
    if !node.isMap {
      matched := PathList(node, j, path, mask);
    } else if |path| == 1 {
      if path[0] !in node.fields { return false; }
      MaskField(node, j.fields, path[0], mask);
      matched := true;
    } else if path[0] == "*" {
      matched := PathMap(node, j, path, mask);
    } else {
      if path[0] !in node.fields { return false; }
      matched := PathField(node, j.fields, path[0], path[1..], mask);
    }
  }

  method PathField(node: Node, ghost f: map<string, Json>, k: string, path: seq<string>, mask: string)
    returns (matched: bool)
    requires Holds(Ref(node), Obj(f)) && k in f
    modifies node.tree
    ensures Holds(Ref(node), Obj(f[k := PathRedacted(f[k], path, mask)]))
    ensures matched == PathMatched(f[k], path)
    decreases f[k], 2
  {
    matched := RedactPath(node.fields[k], f[k], path, mask);
    ghost var g := f[k := PathRedacted(f[k], path, mask)];
    assert g.Keys == f.Keys;
    forall l | l in g ensures Inside(node, node.fields[l]) && Holds(node.fields[l], g[l]) {
      if l != k { assert Foot(node.fields[l]) !! Foot(node.fields[k]); }
    }
  }

  method PathItem(node: Node, ghost a: seq<Json>, i: nat, path: seq<string>, mask: string) returns (matched: bool)
    requires Holds(Ref(node), Arr(a)) && i < |a|
    modifies node.tree
    ensures Holds(Ref(node), Arr(a[i := PathRedacted(a[i], path, mask)]))
    ensures matched == PathMatched(a[i], path)
    decreases a[i], 2
  {
    matched := RedactPath(node.items[i], a[i], path, mask);
    ghost var b := a[i := PathRedacted(a[i], path, mask)];
    forall n | 0 <= n < |b| ensures Inside(node, node.items[n]) && Holds(node.items[n], b[n]) {
      if n != i { assert Foot(node.items[n]) !! Foot(node.items[i]); }
    }
  }

  /** The path leads on from some field outside rest. */
  ghost predicate SelectedOutside(f: map<string, Json>, rest: set<string>, path: seq<string>) {
    exists k :: k in f && k !in rest && PathMatched(f[k], path)
  }

  lemma SelectedOutsideStep(f: map<string, Json>, rest: set<string>, k: string, path: seq<string>)
    requires k in f && k in rest
    ensures SelectedOutside(f, rest - {k}, path) <==> SelectedOutside(f, rest, path) || PathMatched(f[k], path)
  {
    if PathMatched(f[k], path) { assert k !in rest - {k}; }
  }

  /** A star before the last component: every field is followed. */
  method PathMap(node: Node, ghost j: Json, path: seq<string>, mask: string) returns (matched: bool)
    requires j.Obj? && Holds(Ref(node), j) && |path| > 1 && path[0] == "*"
    modifies node.tree
    ensures Holds(Ref(node), PathRedacted(j, path, mask))
    ensures matched == PathMatched(j, path)
    decreases j, 0
  {
    ghost var f, g := j.fields, PathRedacted(j, path, mask).fields;
    ghost var cur := f;
    matched := false;
    var next := path[1..];
    var rest := node.fields.Keys;
    BetweenEnds(f, g, f);
    while rest != {}
      invariant Between(f, g, rest, cur)
      invariant Holds(Ref(node), Obj(cur))
      invariant matched == SelectedOutside(f, rest, next)
      decreases rest
    {
      var k :| k in rest;
      BetweenStep(f, g, rest, cur, k);
      SelectedOutsideStep(f, rest, k, next);
      var m := PathField(node, cur, k, next, mask);
      if m { matched := true; }
      rest, cur := rest - {k}, cur[k := g[k]];
    }
    BetweenEnds(f, g, cur);
  }

  method PathList(node: Node, ghost j: Json, path: seq<string>, mask: string) returns (matched: bool)
    requires j.Arr? && Holds(Ref(node), j) && path != []
    modifies node.tree
    ensures Holds(Ref(node), PathRedacted(j, path, mask))
    ensures matched == PathMatched(j, path)
    decreases j, 0
  {
    ghost var a, b := j.items, PathRedacted(j, path, mask).items;
    ghost var cur := a;
    matched := false;
    var next := path;
    if path[0] == "*" { next := path[1..]; }
    var n := |node.items|;
    AdvancedEnds(a, b, a);
    for i := 0 to n
      invariant n == |a| && Advanced(a, b, i, cur)
      invariant Holds(Ref(node), Arr(cur))
      invariant matched <==> exists m :: 0 <= m < i && PathMatched(a[m], next)
    {
      AdvancedStep(a, b, i, cur);
      var m := PathItem(node, cur, i, next, mask);
      if m { matched := true; }
      cur := cur[i := b[i]];
    }
    AdvancedEnds(a, b, cur);
  }

  /** ParseAndRedactJSON between parsing and printing. */
  method RedactDocument(v: Value, ghost j: Json, paths: seq<seq<string>>, hit: string -> bool, configured: string)
    requires Holds(v, j)
    modifies Foot(v)
    ensures Holds(v, Pipeline(j, paths, hit, MaskOr(configured)))
  {
    var mask := configured;
    if mask == "" { mask := "[REDACTED]"; }
    ghost var cur := j;
    for i := 0 to |paths|
      invariant Holds(v, cur) && AllPaths(cur, paths[i..], mask) == AllPaths(j, paths, mask)
    {
      assert paths[i..][1..] == paths[i + 1..];
      var m := RedactPath(v, cur, paths[i], mask);
      cur := PathRedacted(cur, paths[i], mask);
    }
    var m := Walk(v, cur, hit, mask);
  }
}
