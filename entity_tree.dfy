/** `Entity.to_tree` and its inner `merge_list` of
    synthmap/models/synthmap.py: an entity becomes the path of its eleven
    location fields, from country down to its id, and the path is inserted
    into a nested dict that shares common prefixes. A dict node is a map
    from keys to nodes; a node is either a dict or a list leaf holding the
    rest of a path that nothing else shares yet. */
module EntityTree {
  import opened Wrappers

  /** A key of the tree: a location field's text, None, or the entity id. */
  datatype Label = Text(text: string) | Null | Id(id: int)

  datatype Entity = Entity(
    entityId: int,
    entityLabel: string,
    detail: Option<string>,
    wayNumber: Option<string>,
    wayName: Option<string>,
    localAreaName: Option<string>,
    postalId: Option<string>,
    townName: Option<string>,
    administrativeAreaName: Option<string>,
    greaterAdminAreaName: Option<string>,
    country: Option<string>)

  datatype Node = Leaf(rest: seq<Label>) | Branch(children: map<Label, Node>)

  /** `data[0]` or `old_val[0]` on an empty list. */
  datatype TreeError = IndexError

  const PATH_LENGTH: nat := 11

  function FieldLabel(f: Option<string>): Label {
    if f.Some? then Text(f.value) else Null
  }

  /** `[sd[k] for k in keys]`: the path, most general field first. */
  function PathOf(e: Entity): (path: seq<Label>)
    ensures |path| == PATH_LENGTH
    ensures path[0] == FieldLabel(e.country) && path[1] == FieldLabel(e.greaterAdminAreaName)
    ensures path[2] == FieldLabel(e.administrativeAreaName) && path[3] == FieldLabel(e.townName)
    ensures path[4] == FieldLabel(e.postalId) && path[5] == FieldLabel(e.localAreaName)
    ensures path[6] == FieldLabel(e.wayName) && path[7] == FieldLabel(e.wayNumber)
    ensures path[8] == FieldLabel(e.detail) && path[9] == Text(e.entityLabel) && path[10] == Id(e.entityId)
  {
    [FieldLabel(e.country), FieldLabel(e.greaterAdminAreaName), FieldLabel(e.administrativeAreaName),
     FieldLabel(e.townName), FieldLabel(e.postalId), FieldLabel(e.localAreaName), FieldLabel(e.wayName),
     FieldLabel(e.wayNumber), FieldLabel(e.detail), Text(e.entityLabel), Id(e.entityId)]
  }

  /** Two entities with different ids never share a path. */
  lemma PathsOfDistinctEntitiesDiffer(e1: Entity, e2: Entity)
    requires e1.entityId != e2.entityId
    ensures PathOf(e1) != PathOf(e2)
  {
    assert PathOf(e1)[10] != PathOf(e2)[10];
  }

  /** `merge_list(tree, data)`: a new first key takes the rest of the path
      as a list leaf; a list leaf already there becomes the dict
      `{old[0]: old[1:]}` with the rest merged into it; a dict already there
      has the rest merged into it. */
  function MergeList(tree: map<Label, Node>, data: seq<Label>): (r: Result<map<Label, Node>, TreeError>)
    decreases |data|
  {
    if data == [] then Err(IndexError)
    else if data[0] !in tree then Ok(tree[data[0] := Leaf(data[1..])])
    else
      match tree[data[0]]
      case Leaf(prev) =>
        if prev == [] then Err(IndexError)
        else
          (match MergeList(map[prev[0] := Leaf(prev[1..])], data[1..])
           case Err(e) => Err(e)
           case Ok(sub) => Ok(tree[data[0] := Branch(sub)]))
      case Branch(children) =>
        match MergeList(children, data[1..])
        case Err(e) => Err(e)
        case Ok(sub) => Ok(tree[data[0] := Branch(sub)])
  }

  /** Every path through the dict has `n` keys, and no dict node is empty:
      the shape `merge_list` builds from paths of one length. */
  ghost predicate Shaped(t: map<Label, Node>, n: nat)
    decreases n, 0
  {
    n >= 1 && forall k :: k in t ==> NodeShaped(t[k], n - 1)
  }

  ghost predicate NodeShaped(node: Node, m: nat)
    decreases m, 1
  {
    match node
    case Leaf(rest) => |rest| == m
    case Branch(c) => m >= 1 && c != map[] && Shaped(c, m)
  }

  /** The full paths a dict of depth `n` holds. */
  ghost function Paths(t: map<Label, Node>, n: nat): set<seq<Label>>
    decreases n, 0
  {
    if n == 0 then {}
    else set k, p | k in t && p in NodePaths(t[k], n - 1) :: [k] + p
  }

  ghost function NodePaths(node: Node, m: nat): set<seq<Label>>
    decreases m, 1
  {
    match node
    case Leaf(rest) => {rest}
    case Branch(c) => Paths(c, m)
  }

  /** A path is in the dict exactly when its first key is and the rest is
      under that key. */
  lemma PathsMember(t: map<Label, Node>, n: nat, k: Label, q: seq<Label>)
    requires n >= 1
    ensures [k] + q in Paths(t, n) <==> k in t && q in NodePaths(t[k], n - 1)
  {
    if [k] + q in Paths(t, n) {
      var k', p :| k' in t && p in NodePaths(t[k'], n - 1) && [k'] + p == [k] + q;
      assert ([k'] + p)[0] == k' && ([k] + q)[0] == k;
      assert ([k'] + p)[1..] == p && ([k] + q)[1..] == q;
    }
  }

  lemma PathsNonEmpty(t: map<Label, Node>, n: nat, x: seq<Label>)
    requires x in Paths(t, n)
    ensures |x| >= 1 && x == [x[0]] + x[1..]
  {
  }

  /** A dict holding one list leaf holds one path. */
  lemma SinglePath(path: seq<Label>, n: nat)
    requires n >= 1 && |path| == n
    ensures Paths(map[path[0] := Leaf(path[1..])], n) == {path}
  {
    var single := map[path[0] := Leaf(path[1..])];
    assert path == [path[0]] + path[1..];
    forall x ensures x in Paths(single, n) <==> x == path {
      if |x| >= 1 {
        assert x == [x[0]] + x[1..];
        PathsMember(single, n, x[0], x[1..]);
      } else if x in Paths(single, n) {
        PathsNonEmpty(single, n, x);
      }
    }
  }

  /** Replacing the node under key `k` changes only the paths that start
      with `k`. */
  lemma PathsAfterUpdate(t: map<Label, Node>, n: nat, k: Label, node: Node, x: seq<Label>)
    requires n >= 1 && |x| >= 1
    ensures x in Paths(t[k := node], n) <==>
              if x[0] == k then x[1..] in NodePaths(node, n - 1) else x in Paths(t, n)
  {
    assert x == [x[0]] + x[1..];
    PathsMember(t[k := node], n, x[0], x[1..]);
    PathsMember(t, n, x[0], x[1..]);
  }

  /** Writing `tree[data[0]] = node`, where node holds what was under
      `data[0]` and the rest of data, adds exactly the path data. */
  lemma ReplaceAddsPath(t: map<Label, Node>, data: seq<Label>, node: Node)
    requires |data| >= 1
    requires NodePaths(node, |data| - 1) ==
               (if data[0] in t then NodePaths(t[data[0]], |data| - 1) else {}) + {data[1..]}
    ensures Paths(t[data[0] := node], |data|) == Paths(t, |data|) + {data}
  {
    var n, d0 := |data|, data[0];
    var r := t[d0 := node];
    assert data == [d0] + data[1..];
    forall x ensures x in Paths(r, n) <==> x in Paths(t, n) + {data} {
      if |x| >= 1 {
        PathsAfterUpdate(t, n, d0, node, x);
        if x[0] == d0 {
          assert x == [x[0]] + x[1..];
          PathsMember(t, n, d0, x[1..]);
        }
      } else {
        if x in Paths(r, n) { PathsNonEmpty(r, n, x); }
        if x in Paths(t, n) { PathsNonEmpty(t, n, x); }
      }
    }
  }

  /** The main property of `merge_list`: into a dict of paths of the same
      length, inserting a path succeeds exactly when the path is new; the
      dict then holds its old paths and the new one, and keeps its shape.
      Inserting a path that is already there raises IndexError. */
  lemma {:induction false} MergeListAddsPath(t: map<Label, Node>, data: seq<Label>)
    requires |data| >= 1 && Shaped(t, |data|)
    ensures MergeList(t, data).Ok? <==> data !in Paths(t, |data|)
    ensures MergeList(t, data).Ok? ==>
              Shaped(MergeList(t, data).value, |data|)
              && Paths(MergeList(t, data).value, |data|) == Paths(t, |data|) + {data}
    decreases |data|
  {
    var n := |data|;
    var d0, rest := data[0], data[1..];
    assert data == [d0] + rest;
    PathsMember(t, n, d0, rest);
    if d0 !in t {
      ReplaceAddsPath(t, data, Leaf(rest));
    } else {
      match t[d0]
      case Leaf(prev) =>
        if prev != [] {
          var single := map[prev[0] := Leaf(prev[1..])];
          SinglePath(prev, n - 1);
          MergeListAddsPath(single, rest);
          if MergeList(single, rest).Ok? {
            var sub := MergeList(single, rest).value;
            assert sub != map[] by {
              assert rest in Paths(sub, n - 1);
            }
            ReplaceAddsPath(t, data, Branch(sub));
          }
        }
      case Branch(children) =>
        MergeListAddsPath(children, rest);
        if MergeList(children, rest).Ok? {
          var sub := MergeList(children, rest).value;
          assert sub != map[] by {
            assert rest in Paths(sub, n - 1);
          }
          ReplaceAddsPath(t, data, Branch(sub));
        }
    }
  }

  /** A dict node, updated in place. */
  class TreeDict {
    var entries: map<Label, Node>

    constructor ()
      ensures entries == map[]
    {
      entries := map[];
    }
  }

  /** The keys of a dict, with an absent dict read as `{}`. */
  function Entries(tree: TreeDict?): map<Label, Node>
    reads tree
  {
    if tree == null then map[] else tree.entries
  }

  /** `entity.to_tree(tree)`: an absent or empty tree is replaced by a new
      dict; otherwise the given dict itself is updated and returned. When
      `merge_list` raises, nothing has been written. */
  method ToTree(e: Entity, tree: TreeDict?) returns (r: Result<TreeDict, TreeError>)
    modifies tree
    ensures r.Ok? == MergeList(old(Entries(tree)), PathOf(e)).Ok?
    ensures r.Ok? ==> r.value.entries == MergeList(old(Entries(tree)), PathOf(e)).value
    ensures tree == null || old(tree.entries) == map[] ==>
              (tree != null ==> tree.entries == old(tree.entries))
              && r.Ok? == MergeList(map[], PathOf(e)).Ok?
              && (r.Ok? ==> fresh(r.value) && r.value.entries == MergeList(map[], PathOf(e)).value)
    ensures tree != null && old(tree.entries) != map[] ==>
              r.Ok? == MergeList(old(tree.entries), PathOf(e)).Ok?
              && (r.Ok? ==> r.value == tree && tree.entries == MergeList(old(tree.entries), PathOf(e)).value)
              && (r.Err? ==> tree.entries == old(tree.entries))
  {
    var t: TreeDict;
    if tree == null || tree.entries == map[] {
      t := new TreeDict();
    } else {
      t := tree;
    }
    var merged := MergeList(t.entries, PathOf(e));
    if merged.Err? {
      return Err(merged.error);
    }
    t.entries := merged.value;
    r := Ok(t);
  }

  /** The tree after inserting `es` one after another, starting empty. */
  function Accumulate(es: seq<Entity>): Result<map<Label, Node>, TreeError>
  {
    if es == [] then Ok(map[])
    else match Accumulate(es[..|es| - 1])
      case Err(e) => Err(e)
      case Ok(t) => MergeList(t, PathOf(es[|es| - 1]))
  }

  /** The paths of a sequence of entities. */
  function PathSet(es: seq<Entity>): set<seq<Label>> {
    set i | 0 <= i < |es| :: PathOf(es[i])
  }

  lemma PathSetSnoc(init: seq<Entity>, last: Entity)
    ensures PathSet(init + [last]) == PathSet(init) + {PathOf(last)}
  {
    var es := init + [last];
    forall x ensures x in PathSet(es) <==> x in PathSet(init) + {PathOf(last)} {
      if x in PathSet(es) {
        var i :| 0 <= i < |es| && PathOf(es[i]) == x;
        if i < |init| {
          assert es[i] == init[i];
        }
      }
      if x in PathSet(init) {
        var i :| 0 <= i < |init| && PathOf(init[i]) == x;
        assert es[i] == init[i];
      }
      if x == PathOf(last) {
        assert es[|init|] == last;
      }
    }
  }

  lemma NewEntityPathIsNew(es: seq<Entity>)
    requires es != []
    requires forall i, j :: 0 <= i < j < |es| ==> es[i].entityId != es[j].entityId
    ensures PathOf(es[|es| - 1]) !in PathSet(es[..|es| - 1])
  {
    var init, last := es[..|es| - 1], es[|es| - 1];
    forall i | 0 <= i < |init| ensures PathOf(init[i]) != PathOf(last) {
      assert init[i] == es[i];
      PathsOfDistinctEntitiesDiffer(init[i], last);
    }
  }

  /** One more call appends to the accumulated tree. */
  lemma AccumulateSnoc(init: seq<Entity>, last: Entity)
    requires Accumulate(init).Ok?
    ensures Accumulate(init + [last]) == MergeList(Accumulate(init).value, PathOf(last))
  {
    assert (init + [last])[..|init|] == init;
  }

  lemma AccumulateStep(init: seq<Entity>, last: Entity, n: nat)
    requires n == PATH_LENGTH
    requires Accumulate(init).Ok?
    requires Shaped(Accumulate(init).value, n)
    requires Paths(Accumulate(init).value, n) == PathSet(init)
    requires PathOf(last) !in PathSet(init)
    ensures Accumulate(init + [last]).Ok?
    ensures Shaped(Accumulate(init + [last]).value, n)
    ensures Paths(Accumulate(init + [last]).value, n) == PathSet(init + [last])
  {
    AccumulateSnoc(init, last);
    MergeListAddsPath(Accumulate(init).value, PathOf(last));
    PathSetSnoc(init, last);
  }

  /** Repeated `to_tree` calls accumulate: after inserting entities with
      distinct ids, the tree holds exactly their paths. */
  lemma {:induction false} AccumulateHoldsEntities(es: seq<Entity>, n: nat)
    requires n == PATH_LENGTH
    requires forall i, j :: 0 <= i < j < |es| ==> es[i].entityId != es[j].entityId
    ensures Accumulate(es).Ok?
    ensures Shaped(Accumulate(es).value, n)
    ensures Paths(Accumulate(es).value, n) == PathSet(es)
  {
    if es != [] {
      var init, last := es[..|es| - 1], es[|es| - 1];
      assert init + [last] == es;
      assert forall i, j :: 0 <= i < j < |init| ==> init[i].entityId != init[j].entityId by {
        forall i, j | 0 <= i < j < |init| ensures init[i].entityId != init[j].entityId {
          assert init[i] == es[i] && init[j] == es[j];
        }
      }
      AccumulateHoldsEntities(init, n);
      NewEntityPathIsNew(es);
      AccumulateStep(init, last, n);
    }
  }

  /** The same entity twice is refused the second time. */
  lemma DuplicateEntityRaises(e: Entity)
    ensures Accumulate([e]).Ok?
    ensures Accumulate([e, e]) == Err(IndexError)
  {
    var p := PathOf(e);
    assert [e][..0] == [];
    assert Accumulate([e]) == Ok(map[p[0] := Leaf(p[1..])]);
    assert [e, e][..1] == [e];
    SingleLeafRefuses(p);
  }

  /** A tree holding just one path refuses that path again. */
  lemma {:induction false} SingleLeafRefuses(p: seq<Label>)
    requires |p| >= 1
    ensures MergeList(map[p[0] := Leaf(p[1..])], p) == Err(IndexError)
    decreases |p|
  {
    if |p| > 1 {
      SingleLeafRefuses(p[1..]);
    }
  }

  /** The loop of the `show entity_tree` command: `tree = entity.to_tree(tree=tree)`
      for each entity in turn, starting from `{}`. */
  method BuildTree(es: seq<Entity>) returns (r: Result<TreeDict, TreeError>)
    ensures r.Ok? <==> Accumulate(es).Ok?
    ensures r.Ok? ==> r.value.entries == Accumulate(es).value
  {
    var tree := new TreeDict();
    var i := 0;
    while i < |es|
      invariant 0 <= i <= |es|
      invariant fresh(tree)
      invariant Accumulate(es[..i]) == Ok(tree.entries)
    {
      AccumulateOneMore(es, i);
      var next := ToTree(es[i], tree);
      if next.Err? {
        AccumulateFailureFinal(es, i + 1);
        return Err(next.error);
      }
      tree := next.value;
      i := i + 1;
    }
    assert es[..i] == es;
    r := Ok(tree);
  }

  lemma AccumulateOneMore(es: seq<Entity>, i: nat)
    requires i < |es| && Accumulate(es[..i]).Ok?
    ensures Accumulate(es[..i + 1]) == MergeList(Accumulate(es[..i]).value, PathOf(es[i]))
  {
    assert es[..i + 1][..i] == es[..i];
  }

  lemma {:induction false} AccumulateFailureFinal(es: seq<Entity>, n: nat)
    requires n <= |es| && Accumulate(es[..n]).Err?
    ensures Accumulate(es).Err?
    decreases |es|
  {
    if n < |es| {
      assert es[..|es| - 1][..n] == es[..n];
      AccumulateFailureFinal(es[..|es| - 1], n);
    } else {
      assert es[..n] == es;
    }
  }
}
