/**
 JSON redaction on values: what the key walkers and the path walker do to a document, stated by
 addresses inside it, and the algebra of applying several of them.
 */
module Redact {
  import opened Prelude

  datatype Scalar = Null | Bool(b: bool) | Num(text: string) | Str(s: string)

  datatype Json = Leaf(v: Scalar) | Obj(fields: map<string, Json>) | Arr(items: seq<Json>)

  function Mask(mask: string): Json {
    Leaf(Str(mask))
  }

  // ---------- Walking all keys ----------

  /** redactKeysWalk and RedactSensitiveKeys: they differ only in which keys they hit. */
  function Walked(j: Json, hit: string -> bool, mask: string): Json {
    match j
    case Leaf(_) => j
    case Obj(f) => Obj(map k | k in f :: if hit(k) then Mask(mask) else Walked(f[k], hit, mask))
    case Arr(a) => Arr(seq(|a|, i requires 0 <= i < |a| => Walked(a[i], hit, mask)))
  }

  /** The bool the walkers return. */
  predicate Matched(j: Json, hit: string -> bool) {
    match j
    case Leaf(_) => false
    case Obj(f) => exists k :: k in f && (hit(k) || Matched(f[k], hit))
    case Arr(a) => exists i :: 0 <= i < |a| && Matched(a[i], hit)
  }

  /** Keys of a list hit regardless of case. */
  function KeysHit(lower: string -> string, keys: seq<string>): string -> bool {
    k => exists n :: 0 <= n < |keys| && lower(keys[n]) == lower(k)
  }

  function Either(h1: string -> bool, h2: string -> bool): string -> bool {
    k => h1(k) || h2(k)
  }

  /** Two walks with one mask are one walk with both key sets, whatever the order. */
  lemma {:induction false} WalksCompose(j: Json, h1: string -> bool, h2: string -> bool, mask: string)
    ensures Walked(Walked(j, h1, mask), h2, mask) == Walked(j, Either(h1, h2), mask)
  {
    match j
    case Leaf(_) =>
    case Obj(f) =>
      forall k | k in f { WalksCompose(f[k], h1, h2, mask); }
    case Arr(a) =>
      forall i | 0 <= i < |a| { WalksCompose(a[i], h1, h2, mask); }
  }

  lemma {:induction false} SameHitsSameWalk(j: Json, h1: string -> bool, h2: string -> bool, mask: string)
    requires forall k :: h1(k) == h2(k)
    ensures Walked(j, h1, mask) == Walked(j, h2, mask)
  {
    match j
    case Leaf(_) =>
    case Obj(f) =>
      forall k | k in f { SameHitsSameWalk(f[k], h1, h2, mask); }
    case Arr(a) =>
      forall i | 0 <= i < |a| { SameHitsSameWalk(a[i], h1, h2, mask); }
  }

  /** RedactKeys with one list and then another is RedactKeys with both, in either order; once is enough. */
  lemma KeyListsCompose(j: Json, lower: string -> string, ks: seq<string>, ls: seq<string>, mask: string)
    ensures Walked(Walked(j, KeysHit(lower, ks), mask), KeysHit(lower, ls), mask) ==
            Walked(j, KeysHit(lower, ks + ls), mask)
    ensures Walked(j, KeysHit(lower, ks + ls), mask) == Walked(j, KeysHit(lower, ls + ks), mask)
    ensures Walked(Walked(j, KeysHit(lower, ks), mask), KeysHit(lower, ks), mask) == Walked(j, KeysHit(lower, ks), mask)
  {
    var h, g := KeysHit(lower, ks), KeysHit(lower, ls);
    WalksCompose(j, h, g, mask);
    WalksCompose(j, h, h, mask);
    SameHitsSameWalk(j, Either(h, h), h, mask);
    JoinedListsHit(lower, ks, ls);
    JoinedListsHit(lower, ls, ks);
    SameHitsSameWalk(j, Either(h, g), KeysHit(lower, ks + ls), mask);
    SameHitsSameWalk(j, KeysHit(lower, ks + ls), KeysHit(lower, ls + ks), mask);
  }

  lemma JoinedListsHit(lower: string -> string, ks: seq<string>, ls: seq<string>)
    ensures forall k :: KeysHit(lower, ks + ls)(k) == Either(KeysHit(lower, ks), KeysHit(lower, ls))(k)
  {
    forall k ensures KeysHit(lower, ks + ls)(k) == Either(KeysHit(lower, ks), KeysHit(lower, ls))(k) {
      var all := ks + ls;
      if n :| 0 <= n < |ks| && lower(ks[n]) == lower(k) { assert all[n] == ks[n]; }
      if n :| 0 <= n < |ls| && lower(ls[n]) == lower(k) { assert all[|ks| + n] == ls[n]; }
    }
  }

  // ---------- Addresses ----------

  datatype Step = Key(k: string) | Index(i: int)

  /** The part of a document one step down, if there is one. */
  function Child(j: Json, s: Step): Option<Json> {
    match (j, s)
    case (Obj(f), Key(k)) => if k in f then Some(f[k]) else None
    case (Arr(a), Index(i)) => if 0 <= i < |a| then Some(a[i]) else None
    case _ => None
  }

  function At(j: Json, addr: seq<Step>): Option<Json>
    decreases |addr|
  {
    if addr == [] then Some(j)
    else match Child(j, addr[0])
      case None => None
      case Some(child) => At(child, addr[1..])
  }

  /** What is to be seen at a node without looking below it. */
  datatype Shape = IsLeaf(v: Scalar) | HasKeys(keys: set<string>) | HasLength(n: nat)

  function ShapeOf(j: Json): Shape {
    match j
    case Leaf(v) => IsLeaf(v)
    case Obj(f) => HasKeys(f.Keys)
    case Arr(a) => HasLength(|a|)
  }

  function ShapeAt(j: Json, addr: seq<Step>): Option<Shape> {
    match At(j, addr)
    case None => None
    case Some(part) => Some(ShapeOf(part))
  }

  predicate Hits(hit: string -> bool, s: Step) {
    s.Key? && hit(s.k)
  }

  /** An address in the document whose last step, and no earlier one, is a key that is hit. */
  predicate HitAddress(j: Json, hit: string -> bool, addr: seq<Step>) {
    && addr != [] && At(j, addr).Some? && Hits(hit, addr[|addr| - 1])
    && forall n :: 0 <= n < |addr| - 1 ==> !Hits(hit, addr[n])
  }

  /** The child of a walked document. */
  lemma WalkedChild(j: Json, hit: string -> bool, mask: string, s: Step)
    ensures Child(Walked(j, hit, mask), s) ==
            if Child(j, s).None? then None
            else if Hits(hit, s) then Some(Mask(mask))
            else Some(Walked(Child(j, s).value, hit, mask))
    ensures ShapeOf(Walked(j, hit, mask)) == ShapeOf(j)
  {
  }

  /** Every hit key, at any depth, ends as the mask; an address without a hit key shows what it showed before. */
  lemma {:induction false} WalkMasksExactly(j: Json, hit: string -> bool, mask: string, addr: seq<Step>)
    ensures HitAddress(j, hit, addr) ==> At(Walked(j, hit, mask), addr) == Some(Mask(mask))
    ensures (forall n :: 0 <= n < |addr| ==> !Hits(hit, addr[n])) ==>
              ShapeAt(Walked(j, hit, mask), addr) == ShapeAt(j, addr)
    decreases |addr|
  {
    WalkedChild(j, hit, mask, if addr == [] then Key("") else addr[0]);
    if addr != [] && Child(j, addr[0]).Some? {
      var rest := addr[1..];
      assert forall n :: 0 <= n < |rest| ==> rest[n] == addr[n + 1];
      WalkMasksExactly(Child(j, addr[0]).value, hit, mask, rest);
    }
  }

  /** No key that is hit survives with another value than the mask, wherever it is in the result. */
  lemma {:induction false} NothingEscapesTheWalk(j: Json, hit: string -> bool, mask: string, addr: seq<Step>)
    requires addr != [] && Hits(hit, addr[|addr| - 1]) && At(Walked(j, hit, mask), addr).Some?
    ensures At(Walked(j, hit, mask), addr) == Some(Mask(mask))
    decreases |addr|
  {
    var rest := addr[1..];
    if rest != [] { NothingEscapesTheWalk(Child(j, addr[0]).value, hit, mask, rest); }
  }

  /** A walk that reports no match leaves the document as it was. */
  lemma {:induction false} UnmatchedIsUnchanged(j: Json, hit: string -> bool, mask: string)
    requires !Matched(j, hit)
    ensures Walked(j, hit, mask) == j
  {
    match j
    case Leaf(_) =>
    case Obj(f) =>
      forall k | k in f { UnmatchedIsUnchanged(f[k], hit, mask); }
    case Arr(a) =>
      forall i | 0 <= i < |a| { UnmatchedIsUnchanged(a[i], hit, mask); }
  }

  /** The walkers report a match exactly when some address in the document ends in a key that is hit. */
  lemma MatchedIff(j: Json, hit: string -> bool)
    ensures Matched(j, hit) <==> exists addr :: HitAddress(j, hit, addr)
  {
    if Matched(j, hit) { var addr := MatchHasAddress(j, hit); }
    if addr: seq<Step> :| HitAddress(j, hit, addr) { AddressIsMatched(j, hit, addr); }
  }

  lemma {:induction false} MatchHasAddress(j: Json, hit: string -> bool) returns (addr: seq<Step>)
    requires Matched(j, hit)
    ensures HitAddress(j, hit, addr)
  {
    match j
    case Obj(f) =>
      var k :| k in f && (hit(k) || Matched(f[k], hit));
      if hit(k) {
        addr := [Key(k)];
      } else {
        var below := MatchHasAddress(f[k], hit);
        addr := [Key(k)] + below;
        HitBelow(j, hit, Key(k), below, f[k]);
      }
    case Arr(a) =>
      var i :| 0 <= i < |a| && Matched(a[i], hit);
      var below := MatchHasAddress(a[i], hit);
      addr := [Index(i)] + below;
      HitBelow(j, hit, Index(i), below, a[i]);
  }

  lemma {:induction false} AddressIsMatched(j: Json, hit: string -> bool, addr: seq<Step>)
    requires HitAddress(j, hit, addr)
    ensures Matched(j, hit)
    decreases |addr|
  {
    match j
    case Obj(f) =>
      var k := addr[0].k;
      if !hit(k) {
        HitAbove(j, hit, addr, f[k]);
        AddressIsMatched(f[k], hit, addr[1..]);
      }
    case Arr(a) =>
      var child := a[addr[0].i];
      HitAbove(j, hit, addr, child);
      AddressIsMatched(child, hit, addr[1..]);
  }

  lemma HitBelow(j: Json, hit: string -> bool, s: Step, below: seq<Step>, child: Json)
    requires Child(j, s) == Some(child) && !Hits(hit, s) && HitAddress(child, hit, below)
    ensures HitAddress(j, hit, [s] + below)
  {
    var addr := [s] + below;
    assert addr[1..] == below;
    forall n | 0 <= n < |addr| - 1 ensures !Hits(hit, addr[n]) {
      if n > 0 { assert addr[n] == below[n - 1]; }
    }
  }

  lemma HitAbove(j: Json, hit: string -> bool, addr: seq<Step>, child: Json)
    requires HitAddress(j, hit, addr) && !Hits(hit, addr[0]) && Child(j, addr[0]) == Some(child)
    ensures HitAddress(child, hit, addr[1..])
  {
    var below := addr[1..];
    forall n | 0 <= n < |below| - 1 ensures !Hits(hit, below[n]) { assert below[n] == addr[n + 1]; }
  }

  // ---------- Following a path ----------

  /** What is left of a path below an array: a star stands for the elements, any other path passes through. */
  function Below(path: seq<string>): seq<string>
    requires path != []
  {
    if path[0] == "*" then path[1..] else path
  }

  /** RedactPath's effect. A last component is a literal key, even when it is a star. */
  function PathRedacted(j: Json, path: seq<string>, mask: string): Json {
    if path == [] then j
    else match j
      case Leaf(_) => j
      case Obj(f) =>
        if |path| == 1 then
          if path[0] in f then Obj(f[path[0] := Mask(mask)]) else j
        else if path[0] == "*" then Obj(map k | k in f :: PathRedacted(f[k], path[1..], mask))
        else if path[0] in f then Obj(f[path[0] := PathRedacted(f[path[0]], path[1..], mask)])
        else j
      case Arr(a) => Arr(seq(|a|, i requires 0 <= i < |a| => PathRedacted(a[i], Below(path), mask)))
  }

  /** The bool RedactPath returns. */
  predicate PathMatched(j: Json, path: seq<string>) {
    path != [] &&
    match j
    case Leaf(_) => false
    case Obj(f) =>
      if |path| == 1 then path[0] in f
      else if path[0] == "*" then exists k :: k in f && PathMatched(f[k], path[1..])
      else path[0] in f && PathMatched(f[path[0]], path[1..])
    case Arr(a) => exists i :: 0 <= i < |a| && PathMatched(a[i], Below(path))
  }

  /** The path for the child behind a step; empty when the path does not lead there. */
  function PathBehind(path: seq<string>, s: Step): seq<string> {
    if path == [] then []
    else if s.Index? then Below(path)
    else if |path| > 1 && (path[0] == "*" || path[0] == s.k) then path[1..]
    else []
  }

  predicate IsTarget(path: seq<string>, s: Step) {
    s.Key? && path == [s.k]
  }

  /** The child of a redacted document. */
  lemma RedactedChild(j: Json, path: seq<string>, mask: string, s: Step)
    ensures Child(PathRedacted(j, path, mask), s) ==
            if Child(j, s).None? then None
            else if IsTarget(path, s) then Some(Mask(mask))
            else Some(PathRedacted(Child(j, s).value, PathBehind(path, s), mask))
    ensures ShapeOf(PathRedacted(j, path, mask)) == ShapeOf(j)
  {
    if path != [] && j.Obj? && path[0] in j.fields { assert j.fields.Keys + {path[0]} == j.fields.Keys; }
  }

  /** A document is determined by its shape and its children. */
  lemma SameChildren(a: Json, b: Json)
    requires ShapeOf(a) == ShapeOf(b) && forall s :: Child(a, s) == Child(b, s)
    ensures a == b
  {
    match a
    case Leaf(_) =>
    case Obj(f) =>
      forall k | k in f ensures f[k] == b.fields[k] { assert Child(a, Key(k)) == Child(b, Key(k)); }
    case Arr(xs) =>
      forall i | 0 <= i < |xs| ensures xs[i] == b.items[i] { assert Child(a, Index(i)) == Child(b, Index(i)); }
  }

  /** An address that a path selects in a document. */
  predicate PathAddress(j: Json, path: seq<string>, addr: seq<Step>)
    decreases |addr|
  {
    && addr != [] && Child(j, addr[0]).Some?
    && ((IsTarget(path, addr[0]) && |addr| == 1)
        || PathAddress(Child(j, addr[0]).value, PathBehind(path, addr[0]), addr[1..]))
  }

  lemma {:induction false} EmptyPathSelectsNothing(j: Json, addr: seq<Step>)
    ensures !PathAddress(j, [], addr)
    decreases |addr|
  {
    if addr != [] && Child(j, addr[0]).Some? { EmptyPathSelectsNothing(Child(j, addr[0]).value, addr[1..]); }
  }

  /** Every selected address ends as the mask; an address that neither is selected nor lies below one is as before. */
  lemma {:induction false} PathMasksExactly(j: Json, path: seq<string>, mask: string, addr: seq<Step>)
    ensures PathAddress(j, path, addr) ==> At(PathRedacted(j, path, mask), addr) == Some(Mask(mask))
    ensures (forall n :: 0 <= n <= |addr| ==> !PathAddress(j, path, addr[..n])) ==>
              ShapeAt(PathRedacted(j, path, mask), addr) == ShapeAt(j, addr)
    decreases |addr|
  {
    RedactedChild(j, path, mask, if addr == [] then Key("") else addr[0]);
    if addr != [] {
      if Child(j, addr[0]).Some? {
        var child, behind, rest := Child(j, addr[0]).value, PathBehind(path, addr[0]), addr[1..];
        PathMasksExactly(child, behind, mask, rest);
        if IsTarget(path, addr[0]) { EmptyPathSelectsNothing(child, rest); }
        if forall n :: 0 <= n <= |addr| ==> !PathAddress(j, path, addr[..n]) {
          assert !PathAddress(j, path, addr[..1]);
          forall n | 0 <= n <= |rest| ensures !PathAddress(child, behind, rest[..n]) {
            assert !PathAddress(j, path, addr[..n + 1]);
            assert addr[..n + 1][1..] == rest[..n] && addr[..n + 1][0] == addr[0];
          }
        }
      }
    }
  }

  /**
   Which addresses a path selects, told without the document: a key consumes a component equal to
   it or a star, the last component must be the key itself, and an index consumes a star if there
   is one and nothing otherwise.
   */
  predicate Selects(path: seq<string>, addr: seq<Step>)
    decreases |addr|
  {
    && addr != [] && path != []
    && match addr[0]
       case Key(k) =>
         if |addr| == 1 then path == [k]
         else |path| >= 2 && path[0] in {k, "*"} && Selects(path[1..], addr[1..])
       case Index(_) => Selects(if path[0] == "*" then path[1..] else path, addr[1..])
  }

  /** A path selects in a document exactly the addresses that are there and that it selects by itself. */
  lemma {:induction false} PathAddressIff(j: Json, path: seq<string>, addr: seq<Step>)
    ensures PathAddress(j, path, addr) <==> At(j, addr).Some? && Selects(path, addr)
    decreases |addr|
  {
    if addr != [] && Child(j, addr[0]).Some? {
      var child := Child(j, addr[0]).value;
      PathAddressIff(child, PathBehind(path, addr[0]), addr[1..]);
      EmptyPathSelectsNothing(child, addr[1..]);
      assert !Selects([], addr[1..]);
    }
  }

  /** The last component of a path is literal: a final star selects nothing but a key named star. */
  lemma {:induction false} LastComponentIsLiteral(j: Json, path: seq<string>, addr: seq<Step>)
    requires PathAddress(j, path, addr)
    ensures path != [] && addr[|addr| - 1] == Key(path[|path| - 1])
    decreases |addr|
  {
    if !IsTarget(path, addr[0]) || |addr| > 1 {
      var child := Child(j, addr[0]).value;
      EmptyPathSelectsNothing(child, addr[1..]);
      LastComponentIsLiteral(child, PathBehind(path, addr[0]), addr[1..]);
    }
  }

  lemma {:induction false} PathAddressIsMatched(j: Json, path: seq<string>, addr: seq<Step>)
    requires PathAddress(j, path, addr)
    ensures PathMatched(j, path)
    decreases |addr|
  {
    if !IsTarget(path, addr[0]) {
      PathAddressIsMatched(Child(j, addr[0]).value, PathBehind(path, addr[0]), addr[1..]);
    }
  }

  lemma {:induction false} PathMatchHasAddress(j: Json, path: seq<string>) returns (addr: seq<Step>)
    requires PathMatched(j, path)
    ensures PathAddress(j, path, addr)
    decreases j
  {
    var s: Step;
    if j.Obj? && |path| == 1 {
      return [Key(path[0])];
    } else if j.Arr? {
      var i :| 0 <= i < |j.items| && PathMatched(j.items[i], Below(path));
      s := Index(i);
    } else if path[0] == "*" {
      var k :| k in j.fields && PathMatched(j.fields[k], path[1..]);
      s := Key(k);
    } else {
      s := Key(path[0]);
    }
    var below := PathMatchHasAddress(Child(j, s).value, PathBehind(path, s));
    addr := [s] + below;
    assert addr[1..] == below;
  }

  /** RedactPath reports true exactly when the path selects some address. */
  lemma PathMatchedIff(j: Json, path: seq<string>)
    ensures PathMatched(j, path) ==> exists addr :: PathAddress(j, path, addr)
    ensures (exists addr :: PathAddress(j, path, addr)) ==> PathMatched(j, path)
  {
    if PathMatched(j, path) {
      var addr := PathMatchHasAddress(j, path);
      assert PathAddress(j, path, addr);
    }
    forall addr | PathAddress(j, path, addr) ensures PathMatched(j, path) {
      PathAddressIsMatched(j, path, addr);
    }
  }

  // ---------- Order does not matter ----------

  lemma ChildIsSmaller(j: Json, s: Step)
    requires Child(j, s).Some?
    ensures Child(j, s).value < j
  {
  }

  /** Key walks and path redactions with one mask commute. */
  lemma {:induction false} WalkAndPathCommute(j: Json, hit: string -> bool, path: seq<string>, mask: string)
    ensures Walked(PathRedacted(j, path, mask), hit, mask) == PathRedacted(Walked(j, hit, mask), path, mask)
    decreases j
  {
    var a, b := PathRedacted(j, path, mask), Walked(j, hit, mask);
    forall s ensures Child(Walked(a, hit, mask), s) == Child(PathRedacted(b, path, mask), s) {
      RedactedChild(j, path, mask, s);
      WalkedChild(j, hit, mask, s);
      WalkedChild(a, hit, mask, s);
      RedactedChild(b, path, mask, s);
      if Child(j, s).Some? {
        ChildIsSmaller(j, s);
        WalkAndPathCommute(Child(j, s).value, hit, PathBehind(path, s), mask);
      }
    }
    RedactedChild(j, path, mask, Key(""));
    RedactedChild(b, path, mask, Key(""));
    SameChildren(Walked(a, hit, mask), PathRedacted(b, path, mask));
  }

  /** Path redactions with one mask commute with each other. */
  lemma {:induction false} PathsCommute(j: Json, p: seq<string>, q: seq<string>, mask: string)
    ensures PathRedacted(PathRedacted(j, p, mask), q, mask) == PathRedacted(PathRedacted(j, q, mask), p, mask)
    decreases j
  {
    var a, b := PathRedacted(j, p, mask), PathRedacted(j, q, mask);
    forall s ensures Child(PathRedacted(a, q, mask), s) == Child(PathRedacted(b, p, mask), s) {
      RedactedChild(j, p, mask, s);
      RedactedChild(j, q, mask, s);
      RedactedChild(a, q, mask, s);
      RedactedChild(b, p, mask, s);
      if Child(j, s).Some? {
        ChildIsSmaller(j, s);
        PathsCommute(Child(j, s).value, PathBehind(p, s), PathBehind(q, s), mask);
      }
    }
    RedactedChild(j, p, mask, Key(""));
    RedactedChild(j, q, mask, Key(""));
    RedactedChild(a, q, mask, Key(""));
    RedactedChild(b, p, mask, Key(""));
    SameChildren(PathRedacted(a, q, mask), PathRedacted(b, p, mask));
  }

  lemma {:induction false} PathIsIdempotent(j: Json, p: seq<string>, mask: string)
    ensures PathRedacted(PathRedacted(j, p, mask), p, mask) == PathRedacted(j, p, mask)
    decreases j
  {
    var a := PathRedacted(j, p, mask);
    forall s ensures Child(PathRedacted(a, p, mask), s) == Child(a, s) {
      RedactedChild(j, p, mask, s);
      RedactedChild(a, p, mask, s);
      if Child(j, s).Some? {
        ChildIsSmaller(j, s);
        PathIsIdempotent(Child(j, s).value, PathBehind(p, s), mask);
      }
    }
    RedactedChild(a, p, mask, Key(""));
    SameChildren(PathRedacted(a, p, mask), a);
  }

  // ---------- The whole pipeline ----------

  function AllPaths(j: Json, paths: seq<seq<string>>, mask: string): Json
    decreases |paths|
  {
    if paths == [] then j else AllPaths(PathRedacted(j, paths[0], mask), paths[1..], mask)
  }

  /** An unconfigured mask is replaced by the default. */
  function MaskOr(configured: string): (mask: string)
    ensures mask == configured || (configured == "" && mask == "[REDACTED]")
    ensures mask != ""
  {
    if configured == "" then "[REDACTED]" else configured
  }

  /** ParseAndRedactJSON between parsing and printing: all paths in order, then one key walk. */
  function Pipeline(j: Json, paths: seq<seq<string>>, hit: string -> bool, mask: string): Json {
    Walked(AllPaths(j, paths, mask), hit, mask)
  }

  lemma {:induction false} PathAfterAll(j: Json, paths: seq<seq<string>>, p: seq<string>, mask: string)
    ensures PathRedacted(AllPaths(j, paths, mask), p, mask) == AllPaths(PathRedacted(j, p, mask), paths, mask)
    decreases |paths|
  {
    if paths != [] {
      PathAfterAll(PathRedacted(j, paths[0], mask), paths[1..], p, mask);
      PathsCommute(j, paths[0], p, mask);
    }
  }

  lemma {:induction false} WalkBeforeAll(j: Json, paths: seq<seq<string>>, hit: string -> bool, mask: string)
    ensures Walked(AllPaths(j, paths, mask), hit, mask) == AllPaths(Walked(j, hit, mask), paths, mask)
    decreases |paths|
  {
    if paths != [] {
      WalkBeforeAll(PathRedacted(j, paths[0], mask), paths[1..], hit, mask);
      WalkAndPathCommute(j, hit, paths[0], mask);
    }
  }

  lemma {:induction false} AllPathsTwice(j: Json, paths: seq<seq<string>>, mask: string)
    ensures AllPaths(AllPaths(j, paths, mask), paths, mask) == AllPaths(j, paths, mask)
    decreases |paths|
  {
    if paths != [] {
      var p, rest := paths[0], paths[1..];
      var j1 := PathRedacted(j, p, mask);
      PathAfterAll(j1, rest, p, mask);
      PathIsIdempotent(j, p, mask);
      AllPathsTwice(j1, rest, mask);
    }
  }

  lemma {:induction false} PathFromTheMiddle(j: Json, before: seq<seq<string>>, p: seq<string>, after: seq<seq<string>>, mask: string)
    ensures AllPaths(j, before + [p] + after, mask) == AllPaths(j, [p] + before + after, mask)
    decreases |before|
  {
    if before == [] {
      assert before + [p] + after == [p] + before + after;
    } else {
      var q, rest := before[0], before[1..];
      assert (before + [p] + after)[1..] == rest + [p] + after;
      PathFromTheMiddle(PathRedacted(j, q, mask), rest, p, after, mask);
      assert ([p] + rest + after)[1..] == rest + after;
      assert ([p] + before + after)[1..] == before + after && (before + after)[1..] == rest + after;
      PathsCommute(j, p, q, mask);
    }
  }

  function Without<T>(s: seq<T>, n: nat): (r: seq<T>)
    requires n < |s|
    ensures multiset(r) == multiset(s) - multiset{s[n]}
  {
    assert s == s[..n] + [s[n]] + s[n + 1..];
    s[..n] + s[n + 1..]
  }

  lemma PathToTheFront(j: Json, paths: seq<seq<string>>, n: nat, mask: string)
    requires n < |paths|
    ensures AllPaths(j, paths, mask) == AllPaths(PathRedacted(j, paths[n], mask), Without(paths, n), mask)
  {
    var p := paths[n];
    assert paths == paths[..n] + [p] + paths[n + 1..];
    PathFromTheMiddle(j, paths[..n], p, paths[n + 1..], mask);
    assert ([p] + paths[..n] + paths[n + 1..])[1..] == Without(paths, n);
  }

  /** The configured order of the paths is irrelevant. */
  lemma {:induction false} PathOrderIsIrrelevant(j: Json, ps: seq<seq<string>>, qs: seq<seq<string>>, mask: string)
    requires multiset(ps) == multiset(qs)
    ensures AllPaths(j, ps, mask) == AllPaths(j, qs, mask)
    decreases |ps|
  {
    if ps == [] {
      assert |qs| == |multiset(qs)| == 0;
    } else {
      var p := ps[0];
      assert ps == [p] + ps[1..];
      assert p in multiset(qs);
      var n :| 0 <= n < |qs| && qs[n] == p;
      var rest := Without(qs, n);
      PathToTheFront(j, qs, n, mask);
      assert multiset(ps[1..]) == multiset(ps) - multiset{p};
      PathOrderIsIrrelevant(PathRedacted(j, p, mask), ps[1..], rest, mask);
    }
  }

  /** Redacting a redacted document changes nothing, and the walk might as well have come first. */
  lemma PipelineIsIdempotent(j: Json, paths: seq<seq<string>>, hit: string -> bool, mask: string)
    ensures Pipeline(Pipeline(j, paths, hit, mask), paths, hit, mask) == Pipeline(j, paths, hit, mask)
    ensures Pipeline(j, paths, hit, mask) == AllPaths(Walked(j, hit, mask), paths, mask)
  {
    var a := AllPaths(j, paths, mask);
    WalkBeforeAll(a, paths, hit, mask);
    AllPathsTwice(j, paths, mask);
    WalksCompose(a, hit, hit, mask);
    SameHitsSameWalk(a, Either(hit, hit), hit, mask);
    WalkBeforeAll(j, paths, hit, mask);
  }

  // ---------- What the pipeline leaves ----------

  /** Every configured path has been applied in the end: applying it once more changes nothing. */
  lemma EachPathIsApplied(j: Json, paths: seq<seq<string>>, n: nat, mask: string)
    requires n < |paths|
    ensures PathRedacted(AllPaths(j, paths, mask), paths[n], mask) == AllPaths(j, paths, mask)
  {
    var p, rest := paths[n], Without(paths, n);
    PathToTheFront(j, paths, n, mask);
    PathAfterAll(PathRedacted(j, p, mask), rest, p, mask);
    PathIsIdempotent(j, p, mask);
  }

  /** No prefix of the address is selected by a path, and no step of it is a key that is hit. */
  ghost predicate Untouched(paths: seq<seq<string>>, hit: string -> bool, addr: seq<Step>) {
    && (forall n :: 0 <= n < |addr| ==> !Hits(hit, addr[n]))
    && (forall k :: 0 <= k < |paths| ==> Misses(paths[k], addr))
  }

  /** The path selects neither the address nor anything above it. */
  ghost predicate Misses(path: seq<string>, addr: seq<Step>) {
    forall n :: 0 <= n <= |addr| ==> !Selects(path, addr[..n])
  }

  lemma {:induction false} PathsKeepTheRest(j: Json, paths: seq<seq<string>>, mask: string, addr: seq<Step>)
    requires forall k :: 0 <= k < |paths| ==> Misses(paths[k], addr)
    ensures ShapeAt(AllPaths(j, paths, mask), addr) == ShapeAt(j, addr)
    decreases |paths|
  {
    if paths != [] {
      assert Misses(paths[0], addr);
      forall n | 0 <= n <= |addr| ensures !PathAddress(j, paths[0], addr[..n]) { PathAddressIff(j, paths[0], addr[..n]); }
      PathMasksExactly(j, paths[0], mask, addr);
      PathsKeepTheRest(PathRedacted(j, paths[0], mask), paths[1..], mask, addr);
    }
  }

  /**
   What a redacted document shows. Wherever a configured path selects, and wherever a hit key
   ends an address, there is the mask; every address that neither is nor lies below such a place
   shows what the original showed.
   */
  lemma PipelineMasksExactly(j: Json, paths: seq<seq<string>>, hit: string -> bool, mask: string, addr: seq<Step>)
    ensures var d := Pipeline(j, paths, hit, mask);
      && (At(d, addr).Some? && (exists n :: 0 <= n < |paths| && Selects(paths[n], addr)) ==> At(d, addr) == Some(Leaf(Str(mask))))
      && (At(d, addr).Some? && addr != [] && Hits(hit, addr[|addr| - 1]) ==> At(d, addr) == Some(Leaf(Str(mask))))
      && (Untouched(paths, hit, addr) ==> ShapeAt(d, addr) == ShapeAt(j, addr))
  {
    var a := AllPaths(j, paths, mask);
    var d := Walked(a, hit, mask);
    if At(d, addr).Some? && exists n :: 0 <= n < |paths| && Selects(paths[n], addr) {
      var n :| 0 <= n < |paths| && Selects(paths[n], addr);
      EachPathIsApplied(j, paths, n, mask);
      WalkAndPathCommute(a, hit, paths[n], mask);
      PathAddressIff(d, paths[n], addr);
      PathMasksExactly(d, paths[n], mask, addr);
    }
    if At(d, addr).Some? && addr != [] && Hits(hit, addr[|addr| - 1]) { NothingEscapesTheWalk(a, hit, mask, addr); }
    if Untouched(paths, hit, addr) {
      PathsKeepTheRest(j, paths, mask, addr);
      WalkMasksExactly(a, hit, mask, addr);
    }
  }

  /** RedactKeys goes by case-folded names: keys that fold to a listed one are masked, and addresses without such a key stay. */
  lemma KeysAreFolded(j: Json, lower: string -> string, keys: seq<string>, mask: string, addr: seq<Step>)
    ensures var d := Walked(j, KeysHit(lower, keys), mask);
      var folded := set n | 0 <= n < |keys| :: lower(keys[n]);
      && (addr != [] && addr[|addr| - 1].Key? && lower(addr[|addr| - 1].k) in folded && At(d, addr).Some? ==>
            At(d, addr) == Some(Leaf(Str(mask))))
      && ((forall n :: 0 <= n < |addr| && addr[n].Key? ==> lower(addr[n].k) !in folded) ==>
            ShapeAt(d, addr) == ShapeAt(j, addr))
  {
    var hit := KeysHit(lower, keys);
    WalkMasksExactly(j, hit, mask, addr);
    if addr != [] && Hits(hit, addr[|addr| - 1]) && At(Walked(j, hit, mask), addr).Some? {
      NothingEscapesTheWalk(j, hit, mask, addr);
    }
  }
}
