/** The injection as the code performs it: on dictionaries in the heap, which are copied, linked into
    each other and written in place. */
module InjectionHeap {
  import opened Sequences
  import opened TaskConfig
  import opened GatewayInjection

  /** A Python dict. */
  class Node {
    var entries: map<string, Item>

    constructor ()
      ensures entries == map[]
    {
      entries := map[];
    }
  }

  datatype Item = Leaf(value: Value) | Sub(node: Node)

  /** The dictionaries that are reachable from one, as they hang together. */
  datatype Tree = Scalar(value: Value) | Branch(node: Node, kids: map<string, Tree>)

  function ItemOf(t: Tree): Item {
    match t
    case Scalar(value) => Leaf(value)
    case Branch(node, _) => Sub(node)
  }

  ghost function Nodes(t: Tree): set<Node> {
    match t
    case Scalar(_) => {}
    case Branch(node, kids) => {node} + set k, n | k in kids && n in Nodes(kids[k]) :: n
  }

  /** What the dictionaries hold, as a value. */
  ghost function ValueOf(t: Tree): Value {
    match t
    case Scalar(value) => value
    case Branch(_, kids) => Dict(map k | k in kids :: ValueOf(kids[k]))
  }

  /** No dictionary occurs twice. */
  ghost predicate Proper(t: Tree) {
    match t
    case Scalar(value) => !value.Dict?
    case Branch(node, kids) =>
      && (forall k :: k in kids ==> Proper(kids[k]) && node !in Nodes(kids[k]))
      && (forall k, l :: k in kids && l in kids && k != l ==> Nodes(kids[k]) !! Nodes(kids[l]))
  }

  ghost predicate Linked(node: Node, kids: map<string, Tree>)
    reads node
  {
    node.entries.Keys == kids.Keys && forall k :: k in kids ==> node.entries[k] == ItemOf(kids[k])
  }

  ghost predicate Stored(t: Tree)
    reads Nodes(t)
  {
    t.Branch? ==> Linked(t.node, t.kids) && forall k :: k in t.kids ==> Stored(t.kids[k])
  }

  /** The heap holds this tree. */
  ghost predicate IsTree(t: Tree)
    reads Nodes(t)
  {
    Proper(t) && Stored(t)
  }

  // ----- the part of a tree at a path, and the rest -----

  ghost function At(t: Tree, p: Path): Option<Tree>
    decreases p
  {
    if p == [] then Some(t)
    else if t.Branch? && p[0] in t.kids then At(t.kids[p[0]], p[1..])
    else None
  }

  ghost function Replace(t: Tree, p: Path, part: Tree): Tree
    requires At(t, p).Some?
    decreases p
  {
    if p == [] then part else Branch(t.node, t.kids[p[0] := Replace(t.kids[p[0]], p[1..], part)])
  }

  /** The nodes below the other keys. */
  ghost function Others(kids: map<string, Tree>, key: string): set<Node> {
    set k, n | k in kids && k != key && n in Nodes(kids[k]) :: n
  }

  ghost function Outside(t: Tree, p: Path): set<Node>
    requires At(t, p).Some?
    decreases p
  {
    if p == [] then {} else {t.node} + Others(t.kids, p[0]) + Outside(t.kids[p[0]], p[1..])
  }

  ghost predicate StoredOutside(t: Tree, p: Path)
    requires At(t, p).Some?
    reads Outside(t, p)
    decreases p
  {
    p != [] ==>
      && Linked(t.node, t.kids)
      && (forall k :: k in t.kids && k != p[0] ==> Stored(t.kids[k]))
      && StoredOutside(t.kids[p[0]], p[1..])
  }

  lemma {:induction false} OutsideIsRest(t: Tree, p: Path)
    requires Proper(t) && At(t, p).Some?
    ensures Proper(At(t, p).value)
    ensures Nodes(t) == Outside(t, p) + Nodes(At(t, p).value)
    ensures Outside(t, p) !! Nodes(At(t, p).value)
    decreases p
  {
    if p != [] {
      OutsideIsRest(t.kids[p[0]], p[1..]);
      assert Nodes(At(t, p).value) <= Nodes(t.kids[p[0]]);
    }
  }

  lemma {:induction false} StoredSplits(t: Tree, p: Path)
    requires Stored(t) && At(t, p).Some?
    ensures StoredOutside(t, p) && Stored(At(t, p).value)
    decreases p
  {
    if p != [] {
      StoredSplits(t.kids[p[0]], p[1..]);
    }
  }

  lemma NodesByKey(node: Node, kids: map<string, Tree>, key: string)
    requires key in kids
    ensures Nodes(Branch(node, kids)) == {node} + Others(kids, key) + Nodes(kids[key])
  {
  }

  lemma OthersUnchanged(kids: map<string, Tree>, key: string, kid: Tree)
    requires key in kids
    ensures Others(kids[key := kid], key) == Others(kids, key)
  {
    var after := kids[key := kid];
    assert forall k :: k in kids && k != key ==> after[k] == kids[k];
    forall n: Node ensures n in Others(after, key) <==> n in Others(kids, key) {
      if n in Others(after, key) {
        var k :| k in after && k != key && n in Nodes(after[k]);
        assert k in kids && n in Nodes(kids[k]);
      }
      if n in Others(kids, key) {
        var k :| k in kids && k != key && n in Nodes(kids[k]);
        assert k in after && n in Nodes(after[k]);
      }
    }
  }

  lemma ReplaceKidKeepsProper(node: Node, kids: map<string, Tree>, key: string, kid: Tree)
    requires Proper(Branch(node, kids)) && key in kids && Proper(kid)
    requires node !in Nodes(kid) && Nodes(kid) !! Others(kids, key)
    ensures Proper(Branch(node, kids[key := kid]))
  {
    var after := kids[key := kid];
    forall k, l | k in after && l in after && k != l ensures Nodes(after[k]) !! Nodes(after[l]) {
      assert k != key ==> Nodes(after[k]) <= Others(kids, key);
      assert l != key ==> Nodes(after[l]) <= Others(kids, key);
    }
  }

  /** Another tree in the place of a part: whoever refers to the part's dictionary now sees the new
      contents, and nothing else changes. */
  lemma {:induction false} ReplaceKeepsTree(t: Tree, p: Path, part: Tree)
    requires Proper(t) && At(t, p).Some? && ItemOf(At(t, p).value) == ItemOf(part)
    requires Proper(part) && Nodes(part) !! Outside(t, p)
    ensures Proper(Replace(t, p, part)) && ItemOf(Replace(t, p, part)) == ItemOf(t)
    ensures At(Replace(t, p, part), p) == Some(part)
    ensures Nodes(Replace(t, p, part)) == Outside(t, p) + Nodes(part)
    ensures Outside(Replace(t, p, part), p) == Outside(t, p)
    decreases p
  {
    if p != [] {
      var kid := t.kids[p[0]];
      ReplaceKeepsTree(kid, p[1..], part);
      OutsideIsRest(kid, p[1..]);
      var kid' := Replace(kid, p[1..], part);
      hide Nodes;
      assert Nodes(kid') == Outside(kid, p[1..]) + Nodes(part);
      OthersUnchanged(t.kids, p[0], kid');
      NodesByKey(t.node, t.kids[p[0] := kid'], p[0]);
      OthersApart(t.node, t.kids, p[0]);
      ReplaceKidKeepsProper(t.node, t.kids, p[0], kid');
    }
  }

  lemma OthersApart(node: Node, kids: map<string, Tree>, key: string)
    requires Proper(Branch(node, kids)) && key in kids
    ensures Others(kids, key) !! Nodes(kids[key]) && node !in Nodes(kids[key])
  {
  }

  lemma {:induction false} ReplaceIsStored(t: Tree, p: Path, part: Tree)
    requires At(t, p).Some? && ItemOf(At(t, p).value) == ItemOf(part)
    requires StoredOutside(t, p) && Stored(part)
    ensures Stored(Replace(t, p, part)) && ItemOf(Replace(t, p, part)) == ItemOf(t)
    decreases p
  {
    if p != [] {
      ReplaceIsStored(t.kids[p[0]], p[1..], part);
    }
  }

  lemma {:induction false} AtSnoc(t: Tree, p: Path, key: string)
    requires At(t, p).Some?
    ensures At(t, p + [key]) == At(At(t, p).value, [key])
    decreases p
  {
    if p == [] {
      assert [] + [key] == [key];
    } else {
      assert (p + [key])[0] == p[0] && (p + [key])[1..] == p[1..] + [key];
      AtSnoc(t.kids[p[0]], p[1..], key);
    }
  }

  // ----- the same on values -----

  function PutAt(v: Value, p: Path, part: Value): Value
    requires Lookup(v, p).Some?
    decreases p
  {
    if p == [] then part else Dict(v.entries[p[0] := PutAt(v.entries[p[0]], p[1..], part)])
  }

  lemma {:induction false} ValueOfReplace(t: Tree, p: Path, part: Tree)
    requires At(t, p).Some?
    ensures Lookup(ValueOf(t), p) == Some(ValueOf(At(t, p).value))
    ensures ValueOf(Replace(t, p, part)) == PutAt(ValueOf(t), p, ValueOf(part))
    decreases p
  {
    if p != [] {
      ValueOfReplace(t.kids[p[0]], p[1..], part);
      var kid := Replace(t.kids[p[0]], p[1..], part);
      assert ValueOf(Branch(t.node, t.kids[p[0] := kid])).entries == ValueOf(t).entries[p[0] := ValueOf(kid)];
    }
  }

  /** Setting below a path changes what is at that path, and nothing else. */
  lemma {:induction false} SetBelow(v: Value, p: Path, keys: Path, part: Value)
    requires Lookup(v, p).Some? && Lookup(v, p).value.Dict? && keys != []
    ensures var inner := SetPath(Lookup(v, p).value, keys, part);
            SetPath(v, p + keys, part) == if inner.Err? then inner else Ok(PutAt(v, p, inner.value))
    decreases p
  {
    if p == [] {
      assert p + keys == keys;
    } else {
      assert (p + keys)[0] == p[0] && (p + keys)[1..] == p[1..] + keys;
      SetBelow(v.entries[p[0]], p[1..], keys, part);
    }
  }

  lemma {:induction false} PutAtTwice(v: Value, p: Path, first: Value, second: Value)
    requires Lookup(v, p).Some?
    ensures Lookup(PutAt(v, p, first), p) == Some(first)
    ensures PutAt(PutAt(v, p, first), p, second) == PutAt(v, p, second)
    decreases p
  {
    if p != [] {
      PutAtTwice(v.entries[p[0]], p[1..], first, second);
    }
  }

  // ----- the code -----

  lemma {:induction false} NodesExist(t: Tree)
    ensures allocated(Nodes(t))
    decreases t
  {
    if t.Branch? {
      forall k | k in t.kids ensures allocated(Nodes(t.kids[k])) {
        NodesExist(t.kids[k]);
      }
    }
  }

  lemma KidFacts(t: Tree)
    requires IsTree(t) && t.Branch?
    ensures t.node.entries.Keys == t.kids.Keys
    ensures forall k :: k in t.kids ==> IsTree(t.kids[k]) && t.node.entries[k] == ItemOf(t.kids[k])
    ensures forall k :: k in t.kids ==> Nodes(t.kids[k]) <= Nodes(t) && t.node !in Nodes(t.kids[k])
    ensures t.node in Nodes(t)
  {
    forall k | k in t.kids ensures Nodes(t.kids[k]) <= Nodes(t) {
    }
  }

  lemma EmptyIsTree(node: Node)
    requires node.entries == map[]
    ensures IsTree(Branch(node, map[])) && Nodes(Branch(node, map[])) == {node}
    ensures ValueOf(Branch(node, map[])) == Dict(map[])
  {
  }

  ghost predicate SameKids(kids: map<string, Tree>, others: map<string, Tree>) {
    forall k :: k in kids ==> k in others && ValueOf(kids[k]) == ValueOf(others[k])
  }

  lemma SameKidsStart(others: map<string, Tree>)
    ensures SameKids(map[], others)
  {
  }

  lemma SameKidsAdd(kids: map<string, Tree>, others: map<string, Tree>, key: string, kid: Tree)
    requires SameKids(kids, others) && key in others && ValueOf(kid) == ValueOf(others[key])
    ensures SameKids(kids[key := kid], others)
  {
  }

  lemma SameValues(a: Tree, b: Tree)
    requires a.Branch? && b.Branch? && a.kids.Keys == b.kids.Keys && SameKids(a.kids, b.kids)
    ensures ValueOf(a) == ValueOf(b)
  {
    assert ValueOf(a).entries == ValueOf(b).entries;
  }

  lemma BranchStored(node: Node, kids: map<string, Tree>)
    requires Linked(node, kids) && forall k :: k in kids ==> Stored(kids[k])
    ensures Stored(Branch(node, kids))
  {
  }

  lemma OverwriteKeepsProper(node: Node, kids: map<string, Tree>, key: string, kid: Tree)
    requires Proper(Branch(node, kids)) && Proper(kid) && Nodes(kid) !! Nodes(Branch(node, kids))
    ensures Proper(Branch(node, kids[key := kid]))
    ensures Nodes(Branch(node, kids[key := kid])) <= Nodes(Branch(node, kids)) + Nodes(kid)
    ensures ValueOf(Branch(node, kids[key := kid])) == Dict(ValueOf(Branch(node, kids)).entries[key := ValueOf(kid)])
  {
    var after := kids[key := kid];
    assert forall k :: k in after && k != key ==> k in kids && after[k] == kids[k];
    forall k | k in kids ensures Nodes(kids[k]) <= Nodes(Branch(node, kids)) {
    }
    assert ValueOf(Branch(node, after)).entries == ValueOf(Branch(node, kids)).entries[key := ValueOf(kid)];
  }

  ghost function Written(t: Tree, p: Path, key: string, kid: Tree): Tree
    requires At(t, p).Some? && At(t, p).value.Branch?
  {
    var here := At(t, p).value;
    Replace(t, p, Branch(here.node, here.kids[key := kid]))
  }

  lemma WrittenIsProper(t: Tree, p: Path, key: string, kid: Tree)
    requires Proper(t) && At(t, p).Some? && At(t, p).value.Branch?
    requires Proper(kid) && Nodes(kid) !! Nodes(t)
    ensures var t', here := Written(t, p, key, kid), At(t, p).value;
            && Proper(t') && ItemOf(t') == ItemOf(t) && Nodes(t') <= Nodes(t) + Nodes(kid)
            && At(t', p) == Some(Branch(here.node, here.kids[key := kid])) && At(t', p + [key]) == Some(kid)
            && Lookup(ValueOf(t), p) == Some(ValueOf(here)) && ValueOf(here).Dict?
            && ValueOf(t') == PutAt(ValueOf(t), p, Dict(ValueOf(here).entries[key := ValueOf(kid)]))
  {
    var here := At(t, p).value;
    var part := Branch(here.node, here.kids[key := kid]);
    assert ItemOf(here) == ItemOf(part) && part.kids[key] == kid && At(part, [key]) == Some(kid);
    hide Nodes, Proper, Replace, PutAt;
    OutsideIsRest(t, p);
    OverwriteKeepsProper(here.node, here.kids, key, kid);
    ReplaceKeepsTree(t, p, part);
    ValueOfReplace(t, p, part);
    AtSnoc(Written(t, p, key, kid), p, key);
  }

  /** `node[key] = item`. */
  method PutEntry(node: Node, key: string, item: Item, ghost kids: map<string, Tree>, ghost kid: Tree)
    requires IsTree(Branch(node, kids))
    requires Stored(kid) && ItemOf(kid) == item && node !in Nodes(kid)
    modifies node
    ensures Stored(Branch(node, kids[key := kid])) && Stored(kid)
  {
    KidFacts(Branch(node, kids));
    hide Nodes, ValueOf, Proper, Stored;
    node.entries := node.entries[key := item];
    BranchStored(node, kids[key := kid]);
  }

  lemma PartFacts(t: Tree, p: Path)
    requires IsTree(t) && At(t, p).Some? && At(t, p).value.Branch?
    ensures StoredOutside(t, p) && IsTree(At(t, p).value)
    ensures At(t, p).value.node !in Outside(t, p)
    ensures Nodes(At(t, p).value) <= Nodes(t) && Outside(t, p) <= Nodes(t)
  {
    OutsideIsRest(t, p);
    StoredSplits(t, p);
    assert At(t, p).value.node in Nodes(At(t, p).value);
  }

  lemma NodeOfPart(t: Tree, p: Path, node: Node)
    requires IsTree(t) && At(t, p).Some? && ItemOf(At(t, p).value) == Sub(node)
    ensures node in Nodes(t)
  {
    PartFacts(t, p);
    KidFacts(At(t, p).value);
  }

  /** The same for a dictionary somewhere in a tree. */
  method WriteEntry(node: Node, key: string, item: Item, ghost t: Tree, ghost p: Path, ghost kid: Tree)
    requires IsTree(t) && At(t, p).Some? && ItemOf(At(t, p).value) == Sub(node)
    requires IsTree(kid) && ItemOf(kid) == item && Nodes(kid) !! Nodes(t)
    modifies node
    ensures IsTree(Written(t, p, key, kid)) && IsTree(kid)
    ensures Nodes(Written(t, p, key, kid)) <= Nodes(t) + Nodes(kid)
  {
    ghost var here := At(t, p).value;
    WrittenIsProper(t, p, key, kid);
    PartFacts(t, p);
    NodesExist(t);
    assert node !in Nodes(kid) by { KidFacts(here); }
    hide Nodes, Proper, Stored, At, Linked;
    PutEntry(node, key, item, here.kids, kid);
    ReplaceIsStored(t, p, Branch(node, here.kids[key := kid]));
  }

  /** `copy.deepcopy`: nothing that existed before is written or shared. */
  method DeepCopy(item: Item, ghost t: Tree) returns (copy: Item, ghost copied: Tree)
    requires IsTree(t) && ItemOf(t) == item
    ensures IsTree(copied) && ItemOf(copied) == copy && ValueOf(copied) == ValueOf(t)
    ensures fresh(Nodes(copied))
    decreases t, 1
  {
    match item {
      case Leaf(_) => copy, copied := item, t;
      case Sub(source) =>
        var node, c := CopyDict(source, t);
        copy, copied := Sub(node), c;
    }
  }

  method CopyDict(source: Node, ghost t: Tree) returns (node: Node, ghost copied: Tree)
    requires IsTree(t) && ItemOf(t) == Sub(source)
    ensures IsTree(copied) && ItemOf(copied) == Sub(node) && ValueOf(copied) == ValueOf(t)
    ensures fresh(Nodes(copied))
    decreases t, 0
  {
    hide Nodes, ValueOf, IsTree, Proper, Stored, Linked, SameKids;
    NodesExist(t);
    KidFacts(t);
    node := new Node();
    ghost var kids: map<string, Tree> := map[];
    var keys := source.entries.Keys;
    EmptyIsTree(node);
    assert SameKids(kids, t.kids) by { SameKidsStart(t.kids); }
    while keys != {}
      invariant keys <= source.entries.Keys && kids.Keys == source.entries.Keys - keys
      invariant IsTree(Branch(node, kids)) && fresh(Nodes(Branch(node, kids)))
      invariant SameKids(kids, t.kids)
      decreases keys
    {
      var key :| key in keys;
      keys := keys - {key};
      NodesExist(Branch(node, kids));
      var child, kid := DeepCopy(source.entries[key], t.kids[key]);
      WriteEntry(node, key, child, Branch(node, kids), [], kid);
      SameKidsAdd(kids, t.kids, key, kid);
      kids := kids[key := kid];
    }
    copied := Branch(node, kids);
    SameValues(copied, t);
  }

  // ----- writing along a path -----

  /** Putting an empty dictionary where a write would make one anyway does not change the write. */
  lemma GrownSet(v: Value, p: Path, rest: Path, x: Value)
    requires Lookup(v, p).Some? && Lookup(v, p).value.Dict? && |rest| >= 2
    requires Child(Lookup(v, p).value, rest[0]) == Dict(map[])
    ensures var grown := PutAt(v, p, Dict(Lookup(v, p).value.entries[rest[0] := Dict(map[])]));
            SetPath(grown, p + rest, x) == SetPath(v, p + rest, x)
  {
    var here := Lookup(v, p).value;
    var grown := Dict(here.entries[rest[0] := Dict(map[])]);
    SetBelow(v, p, rest, x);
    PutAtTwice(v, p, grown, grown);
    SetBelow(PutAt(v, p, grown), p, rest, x);
    var inner := SetPath(Dict(map[]), rest[1..], x);
    if inner.Ok? {
      assert grown.entries[rest[0] := inner.value] == here.entries[rest[0] := inner.value];
      PutAtTwice(v, p, grown, SetPath(here, rest, x).value);
    }
  }

  lemma BlockedSet(v: Value, p: Path, rest: Path, x: Value)
    requires Lookup(v, p).Some? && Lookup(v, p).value.Dict? && |rest| >= 2
    requires !Child(Lookup(v, p).value, rest[0]).Dict?
    ensures SetPath(v, p + rest, x) == Err(NotAMapping)
  {
    SetBelow(v, p, rest, x);
  }

  lemma EntryValue(t: Tree, p: Path, key: string)
    requires IsTree(t) && At(t, p).Some? && At(t, p).value.Branch?
    ensures Lookup(ValueOf(t), p) == Some(ValueOf(At(t, p).value)) && ValueOf(At(t, p).value).Dict?
    ensures var here, dict := At(t, p).value, ValueOf(At(t, p).value);
            && here.node in Nodes(t)
            && (key in dict.entries <==> key in here.node.entries)
            && (key in here.node.entries ==>
                  At(t, p + [key]).Some? && ItemOf(At(t, p + [key]).value) == here.node.entries[key])
            && (key in here.node.entries && here.node.entries[key].Leaf? ==>
                  dict.entries[key] == here.node.entries[key].value && !dict.entries[key].Dict?)
            && (key in here.node.entries && here.node.entries[key].Sub? ==> dict.entries[key].Dict?)
  {
    PartFacts(t, p);
    ValueOfReplace(t, p, At(t, p).value);
    KidFacts(At(t, p).value);
    AtSnoc(t, p, key);
  }

  /** What comes of writing a value along the keys of a tree. */
  ghost predicate Comes(t: Tree, keys: Path, x: Value, outcome: Result<Value, InjectionError>) {
    SetPath(ValueOf(t), keys, x) == outcome
  }

  /** One step of `_set_path`'s walk: the entry under the key, which is made if it is absent or None. */
  method StepDown(current: Node, ghost t: Tree, keys: Path, i: nat, ghost x: Value,
                  ghost outcome: Result<Value, InjectionError>) returns (child: Item, ghost t': Tree)
    requires i + 1 < |keys| && IsTree(t) && At(t, keys[..i]).Some?
    requires ItemOf(At(t, keys[..i]).value) == Sub(current) && Comes(t, keys, x, outcome)
    modifies current
    ensures IsTree(t') && ItemOf(t') == ItemOf(t) && fresh(Nodes(t') - Nodes(t))
    ensures At(t', keys[..i + 1]).Some? && ItemOf(At(t', keys[..i + 1]).value) == child
    ensures Comes(t', keys, x, outcome) && (child.Leaf? ==> outcome == Err(NotAMapping))
  {
    ghost var p, rest := keys[..i], keys[i..];
    var key := keys[i];
    assert p + rest == keys && p + [key] == keys[..i + 1];
    EntryValue(t, p, key);
    NodesExist(t);
    hide At, Nodes, ValueOf, Proper, Stored, IsTree, SetPath;
    child := if key in current.entries then current.entries[key] else Leaf(Null);
    t' := t;
    if child == Leaf(Null) {
      var node := new Node();
      EmptyIsTree(node);
      assert IsTree(t);
      child, t' := Sub(node), Written(t, p, key, Branch(node, map[]));
      WrittenIsProper(t, p, key, Branch(node, map[])) by { assert IsTree(t); }
      GrownSet(ValueOf(t), p, rest, x);
      WriteEntry(current, key, child, t, p, Branch(node, map[]));
    } else if child.Leaf? {
      BlockedSet(ValueOf(t), p, rest, x);
    }
  }

  lemma RootIsAt(t: Tree, keys: Path)
    ensures At(t, keys[..0]) == Some(t)
  {
  }

  /** The walk to the dictionary that holds the last key, or to what blocks the way. */
  method WalkDown(root: Node, keys: Path, ghost t: Tree, ghost x: Value,
                  ghost outcome: Result<Value, InjectionError>) returns (reached: Item, ghost t': Tree)
    requires keys != [] && IsTree(t) && ItemOf(t) == Sub(root) && Comes(t, keys, x, outcome)
    modifies Nodes(t)
    ensures IsTree(t') && ItemOf(t') == Sub(root) && fresh(Nodes(t') - Nodes(t))
    ensures Comes(t', keys, x, outcome) && (reached.Leaf? ==> outcome == Err(NotAMapping))
    ensures var p := keys[..|keys| - 1];
            reached.Sub? ==> At(t', p).Some? && ItemOf(At(t', p).value) == reached
  {
    hide *;
    RootIsAt(t, keys);
    t' := t;
    reached := Sub(root);
    var i := 0;
    while i < |keys| - 1 && reached.Sub?
      invariant i <= |keys| - 1
      invariant IsTree(t') && ItemOf(t') == Sub(root) && fresh(Nodes(t') - Nodes(t))
      invariant At(t', keys[..i]).Some? && ItemOf(At(t', keys[..i]).value) == reached
      invariant Comes(t', keys, x, outcome) && (reached.Leaf? ==> outcome == Err(NotAMapping))
    {
      NodeOfPart(t', keys[..i], reached.node);
      ghost var before := t';
      label L:
      reached, t' := StepDown(reached.node, before, keys, i, x, outcome);
      assert forall n: Node :: n in Nodes(t') - Nodes(before) ==> fresh@L(n);
      assert forall n: Node :: n in Nodes(t') && n !in Nodes(before) ==> n in Nodes(t') - Nodes(before);
      i := i + 1;
    }
  }

  /** `_set_path`: it fails exactly when the specification does; otherwise the same dictionary now
      holds what the specification says, with the written item itself, not a copy, at the path. */
  method WritePath(root: Node, keys: Path, item: Item, ghost t: Tree, ghost part: Tree)
    returns (failure: Option<InjectionError>, ghost t': Tree)
    requires IsTree(t) && ItemOf(t) == Sub(root)
    requires IsTree(part) && ItemOf(part) == item && Nodes(part) !! Nodes(t)
    modifies Nodes(t)
    ensures var result := SetPath(ValueOf(t), keys, ValueOf(part));
            if result.Err? then failure == Some(result.error)
            else failure.None? && ValueOf(t') == result.value && At(t', keys) == Some(part)
    ensures failure.None? ==> IsTree(t') && ItemOf(t') == Sub(root) && fresh(Nodes(t') - Nodes(t) - Nodes(part))
  {
    hide *;
    t' := t;
    WriteComes(t, keys, ValueOf(part));
    if keys == [] {
      return Some(EmptyPath), t';
    }
    NodesExist(part);
    var current;
    current, t' := WalkDown(root, keys, t, ValueOf(part), SetPath(ValueOf(t), keys, ValueOf(part)));
    if current.Leaf? {
      return Some(NotAMapping), t';
    }
    ghost var p, last, walked := keys[..|keys| - 1], keys[|keys| - 1], t';
    assert p + [last] == keys;
    LastWrite(t', p, last, part, current.node, SetPath(ValueOf(t), keys, ValueOf(part)));
    WriteEntry(current.node, keys[|keys| - 1], item, t', p, part);
    failure, t' := None, Written(t', p, last, part);
    assert Nodes(t') - Nodes(t) - Nodes(part) <= Nodes(walked) - Nodes(t);
  }

  lemma WriteComes(t: Tree, keys: Path, x: Value)
    ensures Comes(t, keys, x, SetPath(ValueOf(t), keys, x))
    ensures keys == [] ==> SetPath(ValueOf(t), keys, x) == Err(EmptyPath)
  {
  }

  lemma LastWrite(t: Tree, p: Path, key: string, part: Tree, node: Node, outcome: Result<Value, InjectionError>)
    requires IsTree(t) && At(t, p).Some? && ItemOf(At(t, p).value) == Sub(node)
    requires IsTree(part) && Nodes(part) !! Nodes(t) && Comes(t, p + [key], ValueOf(part), outcome)
    ensures At(t, p).value.Branch? && node in Nodes(t)
    ensures var t' := Written(t, p, key, part);
            outcome == Ok(ValueOf(t')) && At(t', p + [key]) == Some(part) && ItemOf(t') == ItemOf(t)
  {
    EntryValue(t, p, key);
    SetBelow(ValueOf(t), p, [key], ValueOf(part));
    WrittenIsProper(t, p, key, part);
  }

  // ----- the injection -----

  lemma {:induction false} LookupIsAt(t: Tree, p: Path)
    requires Proper(t)
    ensures Lookup(ValueOf(t), p) == if At(t, p).Some? then Some(ValueOf(At(t, p).value)) else None
    decreases p
  {
    if p != [] && t.Branch? && p[0] in t.kids {
      LookupIsAt(t.kids[p[0]], p[1..]);
    }
  }

  ghost function DictAt(t: Tree, p: Path): Option<Tree> {
    if At(t, p).Some? && At(t, p).value.Branch? then At(t, p) else None
  }

  lemma OriginalAgentsAt(t: Tree, p: Path)
    requires IsTree(t)
    ensures OriginalAgents(ValueOf(t), p) == if DictAt(t, p).Some? then ValueOf(DictAt(t, p).value).entries else map[]
    ensures DictAt(t, p).Some? ==>
              var found := DictAt(t, p).value;
              IsTree(found) && ItemOf(found) == Sub(found.node) && ValueOf(found).Dict?
  {
    LookupIsAt(t, p);
    if DictAt(t, p).Some? {
      PartFacts(t, p);
    } else if At(t, p).Some? {
      OutsideIsRest(t, p);
    }
  }

  /** The walk through the template to its agents: the very dictionary that hangs there, if one does. */
  method FindOriginalAgents(template: Node, components: seq<string>, ghost t: Tree) returns (agents: Option<Node>)
    requires IsTree(t) && ItemOf(t) == Sub(template)
    ensures agents == if DictAt(t, components).Some? then Some(DictAt(t, components).value.node) else None
  {
    var current := Sub(template);
    ghost var here := t;
    for i := 0 to |components|
      invariant IsTree(here) && ItemOf(here) == current
      invariant At(here, components[i..]) == At(t, components)
    {
      assert components[i..][0] == components[i] && components[i..][1..] == components[i + 1..];
      if current.Leaf? || components[i] !in current.node.entries {
        return None;
      }
      current, here := current.node.entries[components[i]], here.kids[components[i]];
    }
    assert components[|components|..] == [];
    agents := if current.Leaf? then None else Some(current.node);
  }

  lemma ScalarIsTree(value: Value)
    requires !value.Dict?
    ensures IsTree(Scalar(value)) && Nodes(Scalar(value)) == {} && ValueOf(Scalar(value)) == value
  {
  }

  /** The tree has changed at the path only, and the same dictionary is there. */
  ghost predicate Replaced(t: Tree, p: Path, part: Tree, t': Tree) {
    && At(t, p).Some? && t' == Replace(t, p, part) && At(t', p) == Some(part)
    && ItemOf(t') == ItemOf(t) && ItemOf(part) == ItemOf(At(t, p).value)
    && Lookup(ValueOf(t), p) == Some(ValueOf(At(t, p).value)) && ValueOf(t') == PutAt(ValueOf(t), p, ValueOf(part))
  }

  lemma PartReplaced(t: Tree, p: Path, part: Tree)
    requires Proper(t) && At(t, p).Some? && ItemOf(At(t, p).value) == ItemOf(part)
    requires IsTree(part) && StoredOutside(t, p) && Nodes(part) !! Outside(t, p)
    ensures Replaced(t, p, part, Replace(t, p, part)) && IsTree(Replace(t, p, part))
    ensures Nodes(Replace(t, p, part)) == Outside(t, p) + Nodes(part)
  {
    ReplaceKeepsTree(t, p, part);
    ReplaceIsStored(t, p, part);
    ValueOfReplace(t, p, part);
  }

  /** `_set_path` on a dictionary somewhere in a tree, with a string. */
  method WriteInPart(node: Node, keys: Path, text: string, ghost t: Tree, ghost p: Path)
    returns (failure: Option<InjectionError>, ghost part: Tree, ghost t': Tree)
    requires IsTree(t) && At(t, p).Some? && ItemOf(At(t, p).value) == Sub(node)
    modifies Nodes(At(t, p).value)
    ensures var result := SetPath(ValueOf(At(t, p).value), keys, Text(text));
            if result.Err? then failure == Some(result.error)
            else failure.None? && Replaced(t, p, part, t') && ValueOf(part) == result.value
    ensures failure.None? ==> IsTree(t') && fresh(Nodes(t') - Nodes(t))
  {
    ghost var here := At(t, p).value;
    assert Proper(t) && here.Branch?;
    PartFacts(t, p);
    OutsideIsRest(t, p);
    NodesExist(t);
    ScalarIsTree(Text(text));
    hide *;
    failure, part := WritePath(node, keys, Leaf(Text(text)), here, Scalar(Text(text)));
    t' := t;
    if failure.None? {
      PartReplaced(t, p, part);
      t' := Replace(t, p, part);
    }
  }

  /** `dict.setdefault(key, {})`: a key that is there keeps its entry, also one that is None. */
  method SetDefault(node: Node, key: string, ghost t: Tree, ghost p: Path)
    returns (item: Item, ghost part: Tree, ghost t': Tree)
    requires IsTree(t) && At(t, p).Some? && ItemOf(At(t, p).value) == Sub(node)
    modifies node
    ensures Replaced(t, p, part, t') && IsTree(t') && fresh(Nodes(t') - Nodes(t))
    ensures ValueOf(At(t, p).value).Dict? && part.Branch? && key in part.kids && item == ItemOf(part.kids[key])
    ensures var entries := ValueOf(At(t, p).value).entries;
            ValueOf(part) == Dict(entries[key := AgentOr(entries, key)])
  {
    ghost var here := At(t, p).value;
    EntryValue(t, p, key);
    PartFacts(t, p);
    KidFacts(here);
    assert here.Branch? && here.node == node;
    hide *;
    if key in node.entries {
      SameReplaced(t, p);
      PresentDefault(here, key);
      return node.entries[key], here, t;
    }
    NodesExist(t);
    var made := new Node();
    ghost var kid := Branch(made, map[]);
    EmptyIsTree(made);
    AbsentDefault(t, p, key, kid);
    WriteEntry(node, key, Sub(made), t, p, kid);
    item, part, t' := Sub(made), Branch(node, here.kids[key := kid]), Written(t, p, key, kid);
    WrittenReplaces(t, p, key, kid);
  }

  lemma PresentDefault(here: Tree, key: string)
    requires here.Branch? && key in here.kids
    ensures ValueOf(here).Dict? &&
            ValueOf(here) == Dict(ValueOf(here).entries[key := AgentOr(ValueOf(here).entries, key)])
  {
  }

  lemma AbsentDefault(t: Tree, p: Path, key: string, kid: Tree)
    requires IsTree(t) && At(t, p).Some? && At(t, p).value.Branch? && key !in At(t, p).value.kids
    requires Proper(kid) && Nodes(kid) !! Nodes(t) && ValueOf(kid) == Dict(map[])
    ensures var here := At(t, p).value;
            var entries := ValueOf(here).entries;
            ValueOf(Branch(here.node, here.kids[key := kid])) == Dict(entries[key := AgentOr(entries, key)])
  {
    var here := At(t, p).value;
    OutsideIsRest(t, p);
    OverwriteKeepsProper(here.node, here.kids, key, kid);
  }

  lemma WrittenReplaces(t: Tree, p: Path, key: string, kid: Tree)
    requires Proper(t) && At(t, p).Some? && At(t, p).value.Branch? && Proper(kid) && Nodes(kid) !! Nodes(t)
    ensures var here := At(t, p).value;
            Replaced(t, p, Branch(here.node, here.kids[key := kid]), Written(t, p, key, kid))
  {
    WrittenIsProper(t, p, key, kid);
    ValueOfReplace(t, p, Branch(At(t, p).value.node, At(t, p).value.kids[key := kid]));
  }

  lemma {:induction false} SameReplaced(t: Tree, p: Path)
    requires At(t, p).Some?
    ensures Replaced(t, p, At(t, p).value, t)
    decreases p
  {
    ValueOfReplace(t, p, At(t, p).value);
    if p != [] {
      SameReplaced(t.kids[p[0]], p[1..]);
      assert t.kids[p[0] := t.kids[p[0]]] == t.kids;
    }
  }

  lemma ReplacedTwice(t: Tree, p: Path, first: Tree, t1: Tree, second: Tree, t2: Tree)
    requires Replaced(t, p, first, t1) && Replaced(t1, p, second, t2)
    ensures Replaced(t, p, second, t2)
  {
    ReplaceTwice(t, p, first, second);
    PutAtTwice(ValueOf(t), p, ValueOf(first), ValueOf(second));
  }

  lemma {:induction false} ReplaceTwice(t: Tree, p: Path, first: Tree, second: Tree)
    requires At(t, p).Some? && At(Replace(t, p, first), p).Some?
    ensures Replace(Replace(t, p, first), p, second) == Replace(t, p, second)
    decreases p
  {
    if p != [] {
      var kid := Replace(t.kids[p[0]], p[1..], first);
      ReplaceTwice(t.kids[p[0]], p[1..], first, second);
      assert t.kids[p[0] := kid][p[0] := Replace(kid, p[1..], second)] ==
             t.kids[p[0] := Replace(kid, p[1..], second)];
    }
  }

  /** A change one key below the path is a change at the path. */
  lemma {:induction false} ReplacedBelow(t: Tree, p: Path, key: string, kid: Tree, t': Tree)
    requires Replaced(t, p + [key], kid, t') && At(t, p).Some? && At(t, p).value.Branch?
    requires key in At(t, p).value.kids
    ensures var here := At(t, p).value;
            var part := Branch(here.node, here.kids[key := kid]);
            Replaced(t, p, part, t') && ValueOf(here).Dict? &&
            ValueOf(part) == Dict(ValueOf(here).entries[key := ValueOf(kid)])
    decreases p
  {
    var here := At(t, p).value;
    var part := Branch(here.node, here.kids[key := kid]);
    ReplaceSnoc(t, p, key, kid);
    ValueOfReplace(t, p, part);
    assert ValueOf(part).entries == ValueOf(here).entries[key := ValueOf(kid)];
  }

  lemma {:induction false} ReplaceSnoc(t: Tree, p: Path, key: string, kid: Tree)
    requires At(t, p).Some? && At(t, p).value.Branch? && key in At(t, p).value.kids
    ensures At(t, p + [key]).Some?
    ensures var here := At(t, p).value;
            var part := Branch(here.node, here.kids[key := kid]);
            Replace(t, p + [key], kid) == Replace(t, p, part) && At(Replace(t, p, part), p) == Some(part)
    decreases p
  {
    if p == [] {
      assert [] + [key] == [key] && [key][1..] == [];
    } else {
      assert (p + [key])[0] == p[0] && (p + [key])[1..] == p[1..] + [key];
      ReplaceSnoc(t.kids[p[0]], p[1..], key, kid);
    }
  }

  lemma EntryPart(t0: Tree, p: Path, part: Tree, t: Tree, key: string)
    requires Replaced(t0, p, part, t) && Proper(t) && part.Branch? && key in part.kids
    ensures At(t, p + [key]) == Some(part.kids[key]) && Nodes(part.kids[key]) <= Nodes(t)
    ensures ValueOf(part).Dict? && key in ValueOf(part).entries
    ensures ValueOf(part).entries[key] == ValueOf(part.kids[key])
  {
    AtSnoc(t, p, key);
    assert At(part, [key]) == Some(part.kids[key]);
    OutsideIsRest(t, p + [key]);
  }

  lemma EntryReplaced(t0: Tree, p: Path, part: Tree, t: Tree, key: string, kid: Tree, t': Tree)
    requires Replaced(t0, p, part, t) && part.Branch? && key in part.kids && Replaced(t, p + [key], kid, t')
    ensures var part' := Branch(part.node, part.kids[key := kid]);
            && Replaced(t0, p, part', t') && ItemOf(kid) == ItemOf(part.kids[key]) && ValueOf(part).Dict?
            && ValueOf(part') == Dict(ValueOf(part).entries[key := ValueOf(kid)])
  {
    AtSnoc(t, p, key);
    assert At(part, [key]) == Some(part.kids[key]);
    ReplacedBelow(t, p, key, kid, t');
    ReplacedTwice(t0, p, part, t, Branch(part.node, part.kids[key := kid]), t');
  }

  /** `_set_path` on one entry of the part at a path. */
  method WriteInEntry(node: Node, keys: Path, text: string, ghost t0: Tree, ghost p: Path, ghost key: string,
                      ghost part: Tree, ghost t: Tree)
    returns (failure: Option<InjectionError>, ghost part': Tree, ghost t': Tree)
    requires IsTree(t) && Replaced(t0, p, part, t)
    requires part.Branch? && key in part.kids && ItemOf(part.kids[key]) == Sub(node)
    requires ValueOf(part).Dict? && key in ValueOf(part).entries
    modifies Nodes(t)
    ensures var result := SetPath(ValueOf(part).entries[key], keys, Text(text));
            if result.Err? then failure == Some(result.error)
            else
              && failure.None? && Replaced(t0, p, part', t')
              && part'.Branch? && key in part'.kids && ItemOf(part'.kids[key]) == Sub(node)
              && ValueOf(part') == Dict(ValueOf(part).entries[key := result.value])
    ensures failure.None? ==> IsTree(t') && fresh(Nodes(t') - Nodes(t))
  {
    EntryPart(t0, p, part, t, key);
    hide *;
    ghost var kid;
    failure, kid, t' := WriteInPart(node, keys, text, t, p + [key]);
    part' := part;
    if failure.None? {
      part' := Branch(part.node, part.kids[key := kid]);
      EntryReplaced(t0, p, part, t, key, kid, t');
    }
  }

  lemma ConfiguredInSteps(config: Value, role: Role, plan: Plan)
    ensures !config.Dict? ==> Configured(config, role, plan) == Err(NotAMapping)
    ensures config.Dict? ==>
              var based := if plan.injectBase then SetPath(config, plan.base, Text(role.url)) else Ok(config);
              Configured(config, role, plan) ==
              if based.Err? then based else SetPath(based.value, plan.model, Text(role.name))
  {
  }

  lemma SetTwice<T>(m: map<string, T>, key: string, first: T, second: T)
    ensures m[key := first][key := second] == m[key := second]
  {
  }

  /** The address, if it is wanted, and then the model name of one role. */
  method ConfigureEntry(node: Node, role: Role, inj: Injection, ghost t0: Tree, ghost p: Path,
                        ghost part: Tree, ghost t: Tree)
    returns (failure: Option<InjectionError>, ghost part': Tree, ghost t': Tree)
    requires IsTree(t) && Replaced(t0, p, part, t)
    requires part.Branch? && role.name in part.kids && ItemOf(part.kids[role.name]) == Sub(node)
    requires ValueOf(part).Dict? && role.name in ValueOf(part).entries && ValueOf(part).entries[role.name].Dict?
    modifies Nodes(t)
    ensures var config := Configured(ValueOf(part).entries[role.name], role, PlanOf(inj));
            if config.Err? then failure == Some(config.error)
            else failure.None? && Replaced(t0, p, part', t') &&
                 ValueOf(part') == Dict(ValueOf(part).entries[role.name := config.value])
    ensures failure.None? ==> IsTree(t') && fresh(Nodes(t') - Nodes(t))
  {
    ghost var plan := PlanOf(inj);
    assert plan.injectBase == inj.injectBase && plan.base == Keys(inj.basePath) && plan.model == Keys(inj.modelPath);
    hide *;
    ConfiguredInSteps(ValueOf(part).entries[role.name], role, plan);
    failure, part', t' := None, part, t;
    if inj.injectBase {
      failure, part', t' := WriteInEntry(node, Keys(inj.basePath), role.url, t0, p, role.name, part, t);
      if failure.Some? {
        return;
      }
    }
    ghost var middle, based := t', ValueOf(part').entries[role.name];
    label L:
    failure, part', t' := WriteInEntry(node, Keys(inj.modelPath), role.name, t0, p, role.name, part', t');
    if failure.None? {
      SetTwice(ValueOf(part).entries, role.name, based, ValueOf(part').entries[role.name]);
      assert forall n: Node :: n in Nodes(t') - Nodes(middle) ==> fresh@L(n);
      assert forall n: Node :: n in Nodes(t') && n !in Nodes(middle) ==> n in Nodes(t') - Nodes(middle);
      assert forall n: Node :: n in Nodes(middle) && n !in Nodes(t) ==> n in Nodes(middle) - Nodes(t);
    }
  }

  /** One round of the loop over the roles, on the agents wherever they hang. */
  method ConfigureRole(agents: Node, role: Role, inj: Injection, ghost t: Tree, ghost p: Path)
    returns (failure: Option<InjectionError>, ghost part: Tree, ghost t': Tree)
    requires IsTree(t) && At(t, p).Some? && ItemOf(At(t, p).value) == Sub(agents)
    requires ValueOf(At(t, p).value).Dict?
    modifies Nodes(t)
    ensures var before := ValueOf(At(t, p).value).entries;
            var config := Configured(AgentOr(before, role.name), role, PlanOf(inj));
            if config.Err? then failure == Some(config.error)
            else failure.None? && Replaced(t, p, part, t') &&
                 ValueOf(part) == Dict(before[role.name := config.value])
    ensures failure.None? ==> IsTree(t') && fresh(Nodes(t') - Nodes(t))
  {
    ghost var before := ValueOf(At(t, p).value).entries;
    NodeOfPart(t, p, agents);
    hide *;
    ConfiguredInSteps(AgentOr(before, role.name), role, PlanOf(inj));
    var item;
    ghost var middle, given;
    item, given, middle := SetDefault(agents, role.name, t, p);
    EntryIsDict(t, p, given, middle, role.name);
    if item.Leaf? {
      return Some(NotAMapping), given, middle;
    }
    label L:
    failure, part, t' := ConfigureEntry(item.node, role, inj, t, p, given, middle);
    if failure.None? {
      SetTwice(before, role.name, AgentOr(before, role.name), ValueOf(part).entries[role.name]);
      assert forall n: Node :: n in Nodes(t') - Nodes(middle) ==> fresh@L(n);
      assert forall n: Node :: n in Nodes(t') && n !in Nodes(middle) ==> n in Nodes(t') - Nodes(middle);
      assert forall n: Node :: n in Nodes(middle) && n !in Nodes(t) ==> n in Nodes(middle) - Nodes(t);
    }
  }

  lemma EntryIsDict(t0: Tree, p: Path, part: Tree, t: Tree, key: string)
    requires Replaced(t0, p, part, t) && IsTree(t) && part.Branch? && key in part.kids
    ensures ValueOf(part).Dict? && key in ValueOf(part).entries
    ensures ValueOf(part).entries[key].Dict? <==> ItemOf(part.kids[key]).Sub?
  {
    OutsideIsRest(t, p);
  }

  lemma {:induction false} SetAgain(v: Value, keys: Path, first: Value, second: Value)
    requires SetPath(v, keys, first).Ok?
    ensures Lookup(SetPath(v, keys, first).value, keys) == Some(first)
    ensures SetPath(v, keys, second) == Ok(PutAt(SetPath(v, keys, first).value, keys, second))
    decreases |keys|
  {
    var key := keys[0];
    if |keys| == 1 {
      assert keys[1..] == [];
      assert v.entries[key := first][key := second] == v.entries[key := second];
    } else {
      var child := Child(v, key);
      SetAgain(child, keys[1..], first, second);
      var a, b := SetPath(child, keys[1..], first).value, SetPath(child, keys[1..], second).value;
      assert v.entries[key := a][key := b] == v.entries[key := b];
    }
  }

  lemma MovedIsProper(node: Node, copied: Tree)
    requires Proper(copied) && copied.Branch? && node !in Nodes(copied)
    ensures Proper(Branch(node, copied.kids)) && Nodes(Branch(node, copied.kids)) <= Nodes(copied) + {node}
    ensures ValueOf(Branch(node, copied.kids)) == ValueOf(copied)
  {
    forall k | k in copied.kids ensures Nodes(copied.kids[k]) <= Nodes(copied) {
    }
  }

  /** `agents.update(copy)` of the still empty dictionary: the copy's entries move over. */
  method Update(agents: Node, copy: Node, ghost t: Tree, ghost p: Path, ghost copied: Tree)
    returns (ghost part: Tree, ghost t': Tree)
    requires IsTree(t) && At(t, p) == Some(Branch(agents, map[]))
    requires IsTree(copied) && ItemOf(copied) == Sub(copy) && Nodes(copied) !! Nodes(t)
    modifies agents
    ensures Replaced(t, p, part, t') && IsTree(t') && Nodes(t') <= Nodes(t) + Nodes(copied)
    ensures ItemOf(part) == Sub(agents) && ValueOf(part) == ValueOf(copied)
  {
    part := Branch(agents, copied.kids);
    PartFacts(t, p);
    OutsideIsRest(t, p);
    KidFacts(Branch(agents, map[]));
    MovedIsProper(agents, copied);
    KidFacts(copied);
    hide Nodes, ValueOf, Proper, Stored, Outside, StoredOutside, Replaced, Replace;
    agents.entries := agents.entries + copy.entries;
    BranchStored(agents, copied.kids);
    PartReplaced(t, p, part);
    t' := Replace(t, p, part);
  }

  /** The copied template with the first role's address at the global path. */
  method CopyWithAddress(template: Node, keys: Path, url: string, ghost t: Tree)
    returns (failure: Option<InjectionError>, resolved: Node, ghost t': Tree)
    requires IsTree(t) && ItemOf(t) == Sub(template)
    ensures var result := SetPath(ValueOf(t), keys, Text(url));
            if result.Err? then failure == Some(result.error)
            else failure.None? && ValueOf(t') == result.value
    ensures failure.None? ==> IsTree(t') && ItemOf(t') == Sub(resolved) && fresh(Nodes(t'))
  {
    NodesExist(t);
    ScalarIsTree(Text(url));
    assert t.Branch?;
    hide Nodes, ValueOf, Proper, Stored, IsTree, SetPath, At;
    ghost var copied;
    resolved, copied := CopyDict(template, t);
    label L:
    failure, t' := WritePath(resolved, keys, Leaf(Text(url)), copied, Scalar(Text(url)));
    if failure.None? {
      assert forall n: Node :: n in Nodes(t') - Nodes(copied) - Nodes(Scalar(Text(url))) ==> fresh@L(n);
      assert forall n: Node :: n in Nodes(t') && n !in Nodes(copied) ==>
                                 n in Nodes(t') - Nodes(copied) - Nodes(Scalar(Text(url)));
    }
  }

  /** A new dictionary for the agents, linked into the copy. */
  method PlaceAgents(resolved: Node, keys: Path, ghost t: Tree)
    returns (failure: Option<InjectionError>, agents: Node, ghost t': Tree)
    requires IsTree(t) && ItemOf(t) == Sub(resolved)
    modifies Nodes(t)
    ensures var result := SetPath(ValueOf(t), keys, Dict(map[]));
            if result.Err? then failure == Some(result.error)
            else failure.None? && ValueOf(t') == result.value && At(t', keys) == Some(Branch(agents, map[]))
    ensures failure.None? ==> IsTree(t') && ItemOf(t') == Sub(resolved) && fresh(Nodes(t') - Nodes(t))
    ensures failure.None? ==> fresh(agents)
  {
    hide *;
    NodesExist(t);
    agents := new Node();
    EmptyIsTree(agents);
    ghost var empty := Branch(agents, map[]);
    EmptyDict(agents);
    label L:
    failure, t' := WritePath(resolved, keys, Sub(agents), t, empty);
    if failure.None? {
      NodesExist(t');
      ghost var made := Nodes(t') - Nodes(t) - Nodes(empty);
      assert forall n: Node :: n in made ==> fresh@L(n);
      assert forall n: Node :: n in Nodes(t') - Nodes(t) ==> n in made || n == agents;
      assert fresh(agents) && forall n: Node :: n in made ==> fresh(n);
    }
  }

  /** The template's agents, copied into that dictionary. */
  method FillAgents(template: Node, agents: Node, components: seq<string>, ghost source: Tree, ghost t: Tree,
                    ghost p: Path)
    returns (ghost part: Tree, ghost t': Tree)
    requires IsTree(source) && ItemOf(source) == Sub(template)
    requires IsTree(t) && At(t, p) == Some(Branch(agents, map[]))
    modifies agents
    ensures Replaced(t, p, part, t') && IsTree(t') && fresh(Nodes(t') - Nodes(t))
    ensures ItemOf(part) == Sub(agents) && ValueOf(part) == Dict(OriginalAgents(ValueOf(source), components))
  {
    hide *;
    NodesExist(t);
    part, t' := Branch(agents, map[]), t;
    SameReplaced(t, p);
    EmptyDict(agents);
    NodesExist(source);
    var original := FindOriginalAgents(template, components, source);
    OriginalAgentsAt(source, components);
    if original.Some? {
      var copy;
      ghost var copied;
      copy, copied := CopyDict(original.value, DictAt(source, components).value);
      part, t' := Update(agents, copy, t, p, copied);
    }
  }

  lemma EmptyDict(node: Node)
    ensures ItemOf(Branch(node, map[])) == Sub(node) && ValueOf(Branch(node, map[])) == Dict(map[])
  {
  }

  /** The loop over the roles. */
  method ConfigureRoles(agents: Node, roles: seq<Role>, inj: Injection, ghost original: Agents,
                        ghost t0: Tree, ghost p: Path, ghost first: Tree, ghost t: Tree)
    returns (failure: Option<InjectionError>, ghost part: Tree, ghost t': Tree)
    requires IsTree(t) && Replaced(t0, p, first, t)
    requires ItemOf(first) == Sub(agents) && ValueOf(first) == Dict(original)
    modifies Nodes(t)
    ensures var result := WithRoles(original, roles, PlanOf(inj));
            if result.Err? then failure == Some(result.error)
            else failure.None? && Replaced(t0, p, part, t') && ValueOf(part) == Dict(result.value)
    ensures failure.None? ==> IsTree(t') && fresh(Nodes(t') - Nodes(t))
  {
    part, t' := first, t;
    hide Nodes, ValueOf, Proper, Stored, IsTree, SetPath, At, Configured, PlanOf, AgentOr;
    for i := 0 to |roles|
      invariant IsTree(t') && Replaced(t0, p, part, t') && ItemOf(part) == Sub(agents) && fresh(Nodes(t') - Nodes(t))
      invariant WithRoles(original, roles[..i], PlanOf(inj)).Ok?
      invariant ValueOf(part) == Dict(WithRoles(original, roles[..i], PlanOf(inj)).value)
    {
      assert roles[..i + 1][..i] == roles[..i];
      ghost var before, given := t', part;
      label L:
      failure, part, t' := ConfigureRole(agents, roles[i], inj, before, p);
      if failure.Some? {
        FailsOnPrefix(original, roles, PlanOf(inj), i + 1);
        return;
      }
      ReplacedTwice(t0, p, given, before, part, t');
      assert forall n: Node :: n in Nodes(t') - Nodes(before) ==> fresh@L(n);
      assert forall n: Node :: n in Nodes(t') && n !in Nodes(before) ==> n in Nodes(t') - Nodes(before);
    }
    assert roles[..|roles|] == roles;
    failure := None;
  }

  /** The injection never writes the template: it holds the same values afterwards as before.  It
      fails exactly when the specification does, and otherwise returns a configuration made of new
      dictionaries only, which hold what the specification says. */
  method InjectGatewayConfig(template: Node, roles: seq<Role>, inj: Injection, ghost t: Tree)
    returns (result: Result<Node, InjectionError>, ghost t': Tree)
    requires IsTree(t) && ItemOf(t) == Sub(template)
    ensures IsTree(t) && ValueOf(t).Dict?
    ensures var injected := Injected(ValueOf(t).entries, roles, PlanOf(inj));
            if injected.Err? then result == Err(injected.error)
            else result.Ok? && ValueOf(t') == injected.value
    ensures result.Ok? ==> IsTree(t') && ItemOf(t') == Sub(result.value) && fresh(Nodes(t'))
  {
    hide *;
    t' := t;
    TemplateIsDict(t, template);
    InjectedInSteps(ValueOf(t).entries, roles, PlanOf(inj));
    if roles == [] {
      return Err(NoRoles), t';
    }
    NodesExist(t);
    ghost var plan := PlanOf(inj);
    PlanPaths(inj);
    var failure, resolved, agents;
    failure, resolved, t' := CopyWithAddress(template, Keys(inj.globalPath), roles[0].url, t);
    if failure.Some? {
      return Err(failure.value), t';
    }
    ghost var copied := t';
    label Copied:
    failure, agents, t' := PlaceAgents(resolved, Keys(inj.agentsPath), t');
    if failure.Some? {
      return Err(failure.value), t';
    }
    ghost var placed, part := t', Scalar(Null);
    label Placed:
    part, t' := FillAgents(template, agents, Components(inj.agentsPath), t, placed, plan.agents);
    ghost var filled := t';
    label Filled:
    failure, part, t' := ConfigureRoles(agents, roles, inj, OriginalAgents(ValueOf(t), plan.lookup), placed,
                                        plan.agents, part, t');
    if failure.Some? {
      return Err(failure.value), t';
    }
    ReplacedValue(placed, plan.agents, part, t');
    NodesExist(t');
    assert forall n: Node :: n in Nodes(t') - Nodes(filled) ==> fresh@Filled(n);
    assert forall n: Node :: n in Nodes(filled) - Nodes(placed) ==> fresh@Placed(n);
    assert forall n: Node :: n in Nodes(placed) - Nodes(copied) ==> fresh@Copied(n);
    assert forall n: Node :: n in Nodes(t') ==>
      n in Nodes(t') - Nodes(filled) || n in Nodes(filled) - Nodes(placed) || n in Nodes(placed) - Nodes(copied) ||
      n in Nodes(copied);
    result := Ok(resolved);
  }

  lemma TemplateIsDict(t: Tree, template: Node)
    requires ItemOf(t) == Sub(template)
    ensures ValueOf(t).Dict? && ValueOf(t) == Dict(ValueOf(t).entries)
  {
  }

  lemma PlanPaths(inj: Injection)
    ensures PlanOf(inj).global == Keys(inj.globalPath) && PlanOf(inj).agents == Keys(inj.agentsPath)
    ensures PlanOf(inj).lookup == Components(inj.agentsPath)
  {
  }

  lemma ReplacedValue(t: Tree, p: Path, part: Tree, t': Tree)
    requires Replaced(t, p, part, t')
    ensures Lookup(ValueOf(t), p).Some? && ValueOf(t') == PutAt(ValueOf(t), p, ValueOf(part))
    ensures ItemOf(t') == ItemOf(t)
  {
  }

  lemma InjectedInSteps(template: Agents, roles: seq<Role>, plan: Plan)
    ensures roles == [] ==> Injected(template, roles, plan) == Err(NoRoles)
    ensures roles != [] ==>
              var global := SetPath(Dict(template), plan.global, Text(roles[0].url));
              if global.Err? then Injected(template, roles, plan) == global
              else
                var placed := SetPath(global.value, plan.agents, Dict(map[]));
                if placed.Err? then Injected(template, roles, plan) == placed
                else
                  var agents := WithRoles(OriginalAgents(Dict(template), plan.lookup), roles, plan);
                  if agents.Err? then Injected(template, roles, plan) == Err(agents.error)
                  else Lookup(placed.value, plan.agents).Some? &&
                       Injected(template, roles, plan) == Ok(PutAt(placed.value, plan.agents, Dict(agents.value)))
  {
    if roles == [] {
      return;
    }
    var global := SetPath(Dict(template), plan.global, Text(roles[0].url));
    if global.Ok? && SetPath(global.value, plan.agents, Dict(map[])).Ok? {
      var agents := WithRoles(OriginalAgents(Dict(template), plan.lookup), roles, plan);
      if agents.Ok? {
        SetAgain(global.value, plan.agents, Dict(map[]), Dict(agents.value));
      }
    }
  }
}
