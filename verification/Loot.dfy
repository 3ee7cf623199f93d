/**
Loot resolution over a possibly cyclic reference graph
(scripts/gen-softres-catalog/generate.py:456-482): the recursion shares one `seen`
set across all its branches.
*/
module Loot {

  datatype TableName = CreatureLoot | GameObjectLoot | ReferenceLoot

  /** A loot row: an item, or a reference to a list of the reference table. */
  datatype LootRow = LootRow(target: int, isRef: bool, chance: real)

  /** A loot list, named by its table and its id. */
  datatype Node = Node(table: TableName, id: int)

  datatype Edition = Edition(tables: map<Node, seq<LootRow>>, worldDropRefs: set<int>)

  const MIN_REFERENCE_CHANCE := 1.0

  function RowsOf(e: Edition, n: Node): (r: seq<LootRow>)
  {
    if n in e.tables then e.tables[n] else []
  }

  /** A reference row that is followed: not a sub-1% roll, not a shared world-drop list. */
  predicate Followed(e: Edition, row: LootRow)
  {
    row.isRef && !(0.0 < row.chance < MIN_REFERENCE_CHANCE) && row.target !in e.worldDropRefs
  }

  function TargetOf(row: LootRow): (r: Node) { Node(ReferenceLoot, row.target) }

  ghost predicate Edge(e: Edition, m: Node, n: Node)
  {
    exists row :: row in RowsOf(e, m) && Followed(e, row) && TargetOf(row) == n
  }

  /** The direct items of a list; they are never filtered by chance. */
  ghost predicate DirectItem(e: Edition, n: Node, item: int)
  {
    exists row :: row in RowsOf(e, n) && !row.isRef && row.target == item
  }

  ghost predicate IsPath(e: Edition, p: seq<Node>)
  {
    p != [] && forall i :: 0 <= i < |p| - 1 ==> Edge(e, p[i], p[i + 1])
  }

  ghost predicate Reaches(e: Edition, m: Node, n: Node)
  {
    exists p :: IsPath(e, p) && p[0] == m && p[|p| - 1] == n
  }

  /**
  A list leads to another through a reference row that is rolled always (chance zero or less) or at one percent or
  more, unless the reference is a shared world-drop list; a list without rows leads nowhere.
  */
  lemma EdgeIff(e: Edition, m: Node, n: Node)
    ensures Edge(e, m, n) <==>
      && m in e.tables && n.table == ReferenceLoot && n.id !in e.worldDropRefs
      && exists row :: row in e.tables[m] && row.isRef && row.target == n.id && (row.chance <= 0.0 || row.chance >= 1.0)
  {
    if m in e.tables && n.table == ReferenceLoot && n.id !in e.worldDropRefs {
      forall row | row in e.tables[m] && row.isRef && row.target == n.id && (row.chance <= 0.0 || row.chance >= 1.0)
        ensures row in RowsOf(e, m) && Followed(e, row) && TargetOf(row) == n
      {
      }
    }
  }

  lemma ReachesSelf(e: Edition, n: Node)
    ensures Reaches(e, n, n)
  {
    assert IsPath(e, [n]);
  }

  lemma ReachesEdge(e: Edition, m: Node, n: Node, k: Node)
    requires Edge(e, m, n) && Reaches(e, n, k)
    ensures Reaches(e, m, k)
  {
    var p :| IsPath(e, p) && p[0] == n && p[|p| - 1] == k;
    var q := [m] + p;
    forall i | 0 <= i < |q| - 1 ensures Edge(e, q[i], q[i + 1]) {
      if i > 0 { assert q[i] == p[i - 1] && q[i + 1] == p[i]; }
    }
    assert IsPath(e, q) && q[|q| - 1] == k;
  }

  /** Every list a resolution can visit: the root and whatever any row refers to. */
  function Universe(e: Edition, root: Node): (r: set<Node>)
  {
    {root} + set n, row | n in e.tables && row in e.tables[n] :: TargetOf(row)
  }

  /** A closed set of nodes contains everything reachable from any of its members. */
  lemma {:induction false} ClosedHoldsPaths(e: Edition, s: set<Node>, p: seq<Node>)
    requires IsPath(e, p) && p[0] in s
    requires forall m, n :: m in s && Edge(e, m, n) ==> n in s
    ensures p[|p| - 1] in s
  {
    if |p| > 1 {
      var q := p[1..];
      assert Edge(e, p[0], p[1]);
      forall i | 0 <= i < |q| - 1 ensures Edge(e, q[i], q[i + 1]) {
        assert Edge(e, p[i + 1], p[i + 2]);
      }
      ClosedHoldsPaths(e, s, q);
    }
  }

  /** The direct items of a set of lists. */
  ghost function ItemsOf(e: Edition, nodes: set<Node>): set<int>
  {
    set n, row | n in nodes && row in RowsOf(e, n) && !row.isRef :: row.target
  }

  ghost function RowItems(rows: seq<LootRow>): set<int>
  {
    set row | row in rows && !row.isRef :: row.target
  }

  lemma ItemsUnion(e: Edition, a: set<Node>, b: set<Node>)
    ensures ItemsOf(e, a + b) == ItemsOf(e, a) + ItemsOf(e, b)
  {
  }

  lemma ItemsOfOne(e: Edition, n: Node)
    ensures ItemsOf(e, {n}) == RowItems(RowsOf(e, n))
  {
  }

  lemma RowItemsSnoc(rows: seq<LootRow>, i: nat)
    requires i < |rows|
    ensures RowItems(rows[..i + 1]) == RowItems(rows[..i]) + if rows[i].isRef then {} else {rows[i].target}
  {
    assert rows[..i + 1] == rows[..i] + [rows[i]];
  }

  // ----- one call of the recursion -----

  /** Everything reached and every followed reference of a new list is seen; the items are those of the new lists. */
  ghost predicate Visited(e: Edition, node: Node, before: set<Node>, after: set<Node>, result: set<int>)
  {
    before <= after && node in after &&
    (forall n :: n in after - before ==> Reaches(e, node, n)) &&
    (forall m, n :: m in after - before && Edge(e, m, n) ==> n in after) &&
    result == ItemsOf(e, after - before)
  }

  /** The same in the middle of the loop, with the first `i` rows of `node` done. */
  ghost predicate Visiting(e: Edition, node: Node, before: set<Node>, now: set<Node>, i: nat, result: set<int>)
  {
    var rows := RowsOf(e, node);
    i <= |rows| && node !in before && before + {node} <= now &&
    (forall n :: n in now - before ==> Reaches(e, node, n)) &&
    (forall m, n :: m in now - before - {node} && Edge(e, m, n) ==> n in now) &&
    (forall j :: 0 <= j < i && Followed(e, rows[j]) ==> TargetOf(rows[j]) in now) &&
    result == ItemsOf(e, now - before - {node}) + RowItems(rows[..i])
  }

  lemma VisitStart(e: Edition, node: Node, before: set<Node>)
    requires node !in before
    ensures Visiting(e, node, before, before + {node}, 0, {})
  {
    ReachesSelf(e, node);
    assert before + {node} - before - {node} == {};
    assert ItemsOf(e, {}) == {} && RowItems([]) == {};
  }

  lemma VisitReference(e: Edition, node: Node, before: set<Node>, now: set<Node>, i: nat, result: set<int>,
                       after: set<Node>, more: set<int>)
    requires Visiting(e, node, before, now, i, result) && i < |RowsOf(e, node)| && Followed(e, RowsOf(e, node)[i])
    requires Visited(e, TargetOf(RowsOf(e, node)[i]), now, after, more)
    ensures Visiting(e, node, before, after, i + 1, result + more)
  {
    var row := RowsOf(e, node)[i];
    assert Edge(e, node, TargetOf(row));
    forall n | n in after - now ensures Reaches(e, node, n) { ReachesEdge(e, node, TargetOf(row), n); }
    RowItemsSnoc(RowsOf(e, node), i);
    assert after - before - {node} == (now - before - {node}) + (after - now);
    ItemsUnion(e, now - before - {node}, after - now);
  }

  lemma VisitRow(e: Edition, node: Node, before: set<Node>, now: set<Node>, i: nat, result: set<int>)
    requires Visiting(e, node, before, now, i, result) && i < |RowsOf(e, node)| && !Followed(e, RowsOf(e, node)[i])
    ensures var row := RowsOf(e, node)[i];
      Visiting(e, node, before, now, i + 1, if row.isRef then result else result + {row.target})
  {
    RowItemsSnoc(RowsOf(e, node), i);
  }

  lemma VisitDone(e: Edition, node: Node, before: set<Node>, now: set<Node>, result: set<int>)
    requires Visiting(e, node, before, now, |RowsOf(e, node)|, result)
    ensures Visited(e, node, before, now, result)
  {
    var rows := RowsOf(e, node);
    forall n | Edge(e, node, n) ensures n in now {
      var row :| row in rows && Followed(e, row) && TargetOf(row) == n;
      var j :| 0 <= j < |rows| && rows[j] == row;
    }
    assert rows[..|rows|] == rows;
    assert now - before == (now - before - {node}) + {node};
    ItemsUnion(e, now - before - {node}, {node});
    ItemsOfOne(e, node);
  }

  /** The recursion's state: the edition it reads and the set its branches share. */
  class Resolver {
    const edition: Edition
    var seen: set<Node>

    constructor (edition: Edition)
      ensures this.edition == edition && seen == {}
    {
      this.edition := edition;
      seen := {};
    }

    /**
    `resolve_loot`. Whatever was seen before, it adds only lists reachable from `node`,
    leaves no followed reference of a list it added unseen, and returns exactly the
    direct items of the lists it added.
    */
    method Resolve(node: Node, ghost universe: set<Node>) returns (result: set<int>)
      requires node in universe
      requires forall m, row :: m in edition.tables && row in edition.tables[m] ==> TargetOf(row) in universe
      modifies this
      ensures Visited(edition, node, old(seen), seen, result)
      decreases |universe - seen|
    {
      if node in seen {
        assert seen - seen == {} && ItemsOf(edition, {}) == {};
        return {};
      }
      ghost var before := seen;
      seen := seen + {node};
      result := {};
      VisitStart(edition, node, before);
      var rows := RowsOf(edition, node);
      for i := 0 to |rows|
        invariant Visiting(edition, node, before, seen, i, result)
      {
        if Followed(edition, rows[i]) {
          ghost var now := seen;
          Smaller(universe, before, now, node);
          var more := Resolve(TargetOf(rows[i]), universe);
          VisitReference(edition, node, before, now, i, result, seen, more);
          result := result + more;
        } else {
          VisitRow(edition, node, before, seen, i, result);
          if !rows[i].isRef { result := result + {rows[i].target}; }
        }
      }
      VisitDone(edition, node, before, seen, result);
    }
  }

  lemma Smaller(universe: set<Node>, before: set<Node>, now: set<Node>, node: Node)
    requires node in universe && node !in before && before + {node} <= now
    ensures |universe - now| < |universe - before|
  {
    var small, big := universe - now, universe - before;
    assert big == (big - {node}) + {node};
    assert big - {node} == small + (big - {node} - small);
  }

  /**
  A resolution started afresh returns exactly the direct items of the lists reachable
  from the root through followed reference rows, cycles or not.
  */
  method ResolveLoot(edition: Edition, table: TableName, id: int) returns (result: set<int>)
    ensures forall item :: item in result <==>
      exists n :: Reaches(edition, Node(table, id), n) && DirectItem(edition, n, item)
  {
    var root := Node(table, id);
    var resolver := new Resolver(edition);
    result := resolver.Resolve(root, Universe(edition, root));
    var seen := resolver.seen;
    assert seen - {} == seen;
    forall n | Reaches(edition, root, n) ensures n in seen {
      var p :| IsPath(edition, p) && p[0] == root && p[|p| - 1] == n;
      ClosedHoldsPaths(edition, seen, p);
    }
    forall item ensures item in result <==> exists n :: Reaches(edition, root, n) && DirectItem(edition, n, item) {
      if item in result {
        var n, row :| n in seen && row in RowsOf(edition, n) && !row.isRef && row.target == item;
        assert Reaches(edition, root, n) && DirectItem(edition, n, item);
      }
      if n :| Reaches(edition, root, n) && DirectItem(edition, n, item) {
        var row :| row in RowsOf(edition, n) && !row.isRef && row.target == item;
      }
    }
  }
}
