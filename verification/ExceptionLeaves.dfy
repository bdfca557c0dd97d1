/**
 * mcp_probe.py: the work-list walk over an exception, its group members, causes and contexts,
 * and the two classifications that read its leaves.
 */
module ExceptionLeaves {
  import opened Texts
  import opened Wrappers

  type ExcId = nat

  /** What a link or a group member holds: an exception, or something that is not one. */
  datatype Linked = Exc(id: ExcId) | Other

  /**
   * One exception object. `text` is its lower-cased message, `revision` what the
   * unsupported-version pattern extracts from it. Members are only looked at on groups.
   */
  datatype Node = Node(isGroup: bool, members: seq<Linked>, cause: Linked, context: Linked,
                       text: string, revision: Option<string>)

  /** A finite object graph; cycles and sharing are allowed. */
  type Graph = map<ExcId, Node>

  function Links(n: Node): seq<Linked> {
    (if n.cause.Exc? then [n.cause] else []) + (if n.context.Exc? then [n.context] else [])
  }

  function Children(n: Node): seq<Linked> {
    if n.isGroup then n.members + Links(n) else Links(n)
  }

  ghost predicate InGraph(g: Graph, items: seq<Linked>) {
    forall l | l in items && l.Exc? :: l.id in g
  }

  ghost predicate IsClosed(g: Graph) {
    forall n {:trigger Children(g[n])} | n in g :: InGraph(g, Children(g[n]))
  }

  // -------------------------------------------------------------------------------------------
  // Reachability
  // -------------------------------------------------------------------------------------------

  ghost predicate IsChild(g: Graph, parent: ExcId, child: ExcId) {
    parent in g && Exc(child) in Children(g[parent])
  }

  ghost predicate IsPath(g: Graph, path: seq<ExcId>) {
    |path| > 0 && path[0] in g && (|path| > 1 ==> IsChild(g, path[0], path[1]) && IsPath(g, path[1..]))
  }

  /** `b` hangs off `a` through group members, causes and contexts. */
  ghost predicate Reaches(g: Graph, a: ExcId, b: ExcId) {
    exists path :: IsPath(g, path) && path[0] == a && path[|path| - 1] == b
  }

  ghost predicate IsReachableLeaf(g: Graph, root: ExcId, leaf: ExcId) {
    leaf in g && !g[leaf].isGroup && Reaches(g, root, leaf)
  }

  lemma ReachesItself(g: Graph, a: ExcId)
    requires a in g
    ensures Reaches(g, a, a)
  {
    assert IsPath(g, [a]);
  }

  lemma ReachesThroughChild(g: Graph, a: ExcId, child: ExcId, b: ExcId)
    requires IsChild(g, a, child) && Reaches(g, child, b)
    ensures Reaches(g, a, b)
  {
    var path :| IsPath(g, path) && path[0] == child && path[|path| - 1] == b;
    var longer := [a] + path;
    assert longer[1..] == path;
    assert IsPath(g, longer) && longer[|longer| - 1] == b;
  }

  // -------------------------------------------------------------------------------------------
  // The walk
  // -------------------------------------------------------------------------------------------

  /** The stack after visiting a node: a group's children go first, another node's go last. */
  function Visit(g: Graph, id: ExcId, rest: seq<Linked>): (stack: seq<Linked>)
    requires id in g
    ensures forall l :: l in stack <==> l in Children(g[id]) || l in rest
  {
    if g[id].isGroup then Children(g[id]) + rest else rest + Links(g[id])
  }

  /** What the walk still yields from a stack, given the nodes it has seen. */
  ghost function Walk(g: Graph, stack: seq<Linked>, seen: set<ExcId>): seq<ExcId>
    requires IsClosed(g) && InGraph(g, stack)
    decreases |g.Keys - seen|, |stack|
  {
    if |stack| == 0 then []
    else
      var rest := stack[1..];
      if stack[0].Other? || stack[0].id in seen then Walk(g, rest, seen)
      else
        var id := stack[0].id;
        SeenGrows(g, seen, id);
        (if g[id].isGroup then [] else [id]) + Walk(g, Visit(g, id, rest), seen + {id})
  }

  lemma SeenGrows(g: Graph, seen: set<ExcId>, id: ExcId)
    requires id in g && id !in seen
    ensures |g.Keys - (seen + {id})| < |g.Keys - seen|
  {
    assert g.Keys - (seen + {id}) == (g.Keys - seen) - {id};
  }

  lemma WalkSkips(g: Graph, stack: seq<Linked>, seen: set<ExcId>)
    requires IsClosed(g) && InGraph(g, stack) && |stack| > 0 && (stack[0].Other? || stack[0].id in seen)
    ensures InGraph(g, stack[1..])
    ensures Walk(g, stack, seen) == Walk(g, stack[1..], seen)
  {
  }

  lemma WalkVisits(g: Graph, stack: seq<Linked>, seen: set<ExcId>)
    requires IsClosed(g) && InGraph(g, stack) && |stack| > 0 && stack[0].Exc? && stack[0].id !in seen
    ensures var id := stack[0].id;
            && InGraph(g, Visit(g, id, stack[1..]))
            && |g.Keys - (seen + {id})| < |g.Keys - seen|
            && Walk(g, stack, seen)
            == (if g[id].isGroup then [] else [id]) + Walk(g, Visit(g, id, stack[1..]), seen + {id})
  {
    SeenGrows(g, seen, stack[0].id);
  }

  /** `leaves` was yielded, and the rest of `all` is what the stack still yields. */
  ghost predicate IsWalking(g: Graph, stack: seq<Linked>, seen: set<ExcId>, leaves: seq<ExcId>, all: seq<ExcId>)
    requires IsClosed(g)
  {
    InGraph(g, stack) && all == leaves + Walk(g, stack, seen)
  }

  lemma {:induction false} StepSkips(g: Graph, stack: seq<Linked>, seen: set<ExcId>, leaves: seq<ExcId>, all: seq<ExcId>)
    requires IsClosed(g) && IsWalking(g, stack, seen, leaves, all)
    requires |stack| > 0 && (stack[0].Other? || stack[0].id in seen)
    ensures IsWalking(g, stack[1..], seen, leaves, all)
  {
    WalkSkips(g, stack, seen);
  }

  lemma {:induction false} StepVisits(g: Graph, stack: seq<Linked>, seen: set<ExcId>, leaves: seq<ExcId>, all: seq<ExcId>)
    requires IsClosed(g) && IsWalking(g, stack, seen, leaves, all)
    requires |stack| > 0 && stack[0].Exc? && stack[0].id !in seen
    ensures var id := stack[0].id;
            && id in g
            && IsWalking(g, Visit(g, id, stack[1..]), seen + {id}, leaves + if g[id].isGroup then [] else [id], all)
            && |g.Keys - (seen + {id})| < |g.Keys - seen|
  {
    WalkVisits(g, stack, seen);
    var id := stack[0].id;
    var yielded, later := if g[id].isGroup then [] else [id], Walk(g, Visit(g, id, stack[1..]), seen + {id});
    Regroup(leaves, yielded, later);
  }

  lemma Regroup(a: seq<ExcId>, b: seq<ExcId>, c: seq<ExcId>)
    ensures a + (b + c) == (a + b) + c
  {
  }

  method IterExceptionLeaves(g: Graph, root: ExcId) returns (leaves: seq<ExcId>)
    requires IsClosed(g) && root in g
    ensures leaves == Walk(g, [Exc(root)], {})
  {
    var stack: seq<Linked> := [Exc(root)];
    var seen: set<ExcId> := {};
    leaves := [];
    ghost var all := Walk(g, stack, seen);
    while |stack| > 0
      invariant IsWalking(g, stack, seen, leaves, all)
      decreases |g.Keys - seen|, |stack|
    {
      var current := stack[0];
      var rest := stack[1..];
      if current.Other? || current.id in seen {
        StepSkips(g, stack, seen, leaves, all);
        stack := rest;
        continue;
      }
      var id := current.id;
      StepVisits(g, stack, seen, leaves, all);
      seen := seen + {id};
      if g[id].isGroup {
        stack := (g[id].members + Links(g[id])) + rest;
        assert stack == Visit(g, id, rest);
        assert leaves + [] == leaves;
        continue;
      }
      stack := rest + Links(g[id]);
      leaves := leaves + [id];
    }
  }

  /** From a root, the walk yields each leaf that hangs off it once, and nothing else. */
  lemma WalkIsExact(g: Graph, root: ExcId)
    requires IsClosed(g) && root in g
    ensures var w := Walk(g, [Exc(root)], {});
            && (forall i, j | 0 <= i < j < |w| :: w[i] != w[j])
            && forall leaf :: leaf in w <==> IsReachableLeaf(g, root, leaf)
  {
    WalkIsFresh(g, [Exc(root)], {});
    forall leaf | leaf in Walk(g, [Exc(root)], {}) ensures IsReachableLeaf(g, root, leaf) {
      WalkIsSound(g, [Exc(root)], {}, leaf);
    }
    forall leaf | IsReachableLeaf(g, root, leaf) ensures leaf in Walk(g, [Exc(root)], {}) {
      WalkIsComplete(g, [Exc(root)], {}, root, leaf);
    }
  }

  /** The walk repeats nothing, and yields no group and nothing already seen. */
  lemma {:induction false} WalkIsFresh(g: Graph, stack: seq<Linked>, seen: set<ExcId>)
    requires IsClosed(g) && InGraph(g, stack)
    ensures var w := Walk(g, stack, seen);
            && (forall i, j | 0 <= i < j < |w| :: w[i] != w[j])
            && (forall leaf | leaf in w :: leaf !in seen && leaf in g && !g[leaf].isGroup)
    decreases |g.Keys - seen|, |stack|
  {
    if |stack| > 0 {
      var rest := stack[1..];
      if stack[0].Other? || stack[0].id in seen {
        WalkIsFresh(g, rest, seen);
      } else {
        var id := stack[0].id;
        SeenGrows(g, seen, id);
        WalkIsFresh(g, Visit(g, id, rest), seen + {id});
      }
    }
  }

  ghost predicate HangsOff(g: Graph, stack: seq<Linked>, leaf: ExcId) {
    exists l :: l in stack && l.Exc? && Reaches(g, l.id, leaf)
  }

  /** The walk yields only what hangs off its stack. */
  lemma {:induction false} WalkIsSound(g: Graph, stack: seq<Linked>, seen: set<ExcId>, leaf: ExcId)
    requires IsClosed(g) && InGraph(g, stack) && leaf in Walk(g, stack, seen)
    ensures HangsOff(g, stack, leaf)
    decreases |g.Keys - seen|, |stack|
  {
    if |stack| > 0 {
      var rest := stack[1..];
      assert forall l | l in rest :: l in stack;
      if stack[0].Other? || stack[0].id in seen {
        WalkIsSound(g, rest, seen, leaf);
      } else {
        var id := stack[0].id;
        assert stack[0] in stack;
        SeenGrows(g, seen, id);
        ReachesItself(g, id);
        if leaf != id {
          WalkIsSound(g, Visit(g, id, rest), seen + {id}, leaf);
          var l :| l in Visit(g, id, rest) && l.Exc? && Reaches(g, l.id, leaf);
          if l !in rest {
            ReachesThroughChild(g, id, l.id, leaf);
          }
        }
      }
    }
  }

  /** Every child of a seen node is seen or still on the stack. */
  ghost predicate NothingForgotten(g: Graph, stack: seq<Linked>, seen: set<ExcId>) {
    forall a, b | a in seen && IsChild(g, a, b) :: b in seen || Exc(b) in stack
  }

  lemma {:induction false} SeenIsClosedUnderPaths(g: Graph, seen: set<ExcId>, path: seq<ExcId>)
    requires NothingForgotten(g, [], seen) && IsPath(g, path) && path[0] in seen
    ensures path[|path| - 1] in seen
  {
    if |path| > 1 {
      assert IsChild(g, path[0], path[1]);
      SeenIsClosedUnderPaths(g, seen, path[1..]);
    }
  }

  lemma NothingIsForgotten(g: Graph, stack: seq<Linked>, seen: set<ExcId>, id: ExcId)
    requires id in g && |stack| > 0 && stack[0] == Exc(id) && NothingForgotten(g, stack, seen)
    ensures NothingForgotten(g, Visit(g, id, stack[1..]), seen + {id})
  {
    assert stack == [stack[0]] + stack[1..];
  }

  /** The walk misses no leaf, however the graph loops back on itself. */
  lemma {:induction false} WalkIsComplete(g: Graph, stack: seq<Linked>, seen: set<ExcId>, a: ExcId, leaf: ExcId)
    requires IsClosed(g) && InGraph(g, stack) && NothingForgotten(g, stack, seen)
    requires (Exc(a) in stack || a in seen) && IsReachableLeaf(g, a, leaf)
    ensures leaf in seen || leaf in Walk(g, stack, seen)
    decreases |g.Keys - seen|, |stack|
  {
    if |stack| == 0 {
      var path :| IsPath(g, path) && path[0] == a && path[|path| - 1] == leaf;
      SeenIsClosedUnderPaths(g, seen, path);
    } else {
      var rest := stack[1..];
      assert stack == [stack[0]] + rest;
      if stack[0].Other? || stack[0].id in seen {
        assert NothingForgotten(g, rest, seen);
        WalkIsComplete(g, rest, seen, a, leaf);
      } else {
        var id := stack[0].id;
        SeenGrows(g, seen, id);
        var next := Visit(g, id, rest);
        NothingIsForgotten(g, stack, seen, id);
        WalkIsComplete(g, next, seen + {id}, a, leaf);
      }
    }
  }

  // -------------------------------------------------------------------------------------------
  // The order of the walk
  // -------------------------------------------------------------------------------------------

  function LinksOf(g: Graph, ids: seq<ExcId>): seq<Linked>
    requires forall id | id in ids :: id in g
  {
    if |ids| == 0 then [] else Links(g[ids[0]]) + LinksOf(g, ids[1..])
  }

  lemma {:induction false} LinksAreInGraph(g: Graph, ids: seq<ExcId>)
    requires IsClosed(g) && forall id | id in ids :: id in g
    ensures InGraph(g, LinksOf(g, ids))
  {
    if |ids| > 0 {
      ChildrenAreInGraph(g, ids[0]);
      LinksAreInGraph(g, ids[1..]);
    }
  }

  lemma ChildrenAreInGraph(g: Graph, id: ExcId)
    requires IsClosed(g) && id in g
    ensures InGraph(g, g[id].members) || !g[id].isGroup
    ensures InGraph(g, Links(g[id]))
  {
    assert InGraph(g, Children(g[id]));
    forall l | l in Links(g[id]) ensures l in Children(g[id]) {
    }
    forall l | l in g[id].members && g[id].isGroup ensures l in Children(g[id]) {
    }
  }

  /** The nodes of a level are in the graph, are no groups, and were not seen before. */
  ghost predicate IsLevel(g: Graph, found: seq<ExcId>, seen: set<ExcId>, next: set<ExcId>) {
    && seen <= next
    && (forall id | id in found :: id in g && !g[id].isGroup && id !in seen && id in next)
  }

  /**
   * One level: the leaves among `items`, depth first through groups and through groups only, where a
   * group stands for its members, its cause and its context; and what has been seen after that.
   */
  ghost function Level(g: Graph, items: seq<Linked>, seen: set<ExcId>): (r: (seq<ExcId>, set<ExcId>))
    requires IsClosed(g) && InGraph(g, items)
    ensures IsLevel(g, r.0, seen, r.1)
    decreases |g.Keys - seen|, |items|
  {
    if |items| == 0 then ([], seen)
    else
      var rest := items[1..];
      if items[0].Other? || items[0].id in seen then Level(g, rest, seen)
      else
        var id := items[0].id;
        SeenGrows(g, seen, id);
        ChildrenAreInGraph(g, id);
        if g[id].isGroup then Level(g, g[id].members + Links(g[id]) + rest, seen + {id})
        else
          var later := Level(g, rest, seen + {id});
          ([id] + later.0, later.1)
  }

  lemma LevelShrinks(g: Graph, found: seq<ExcId>, seen: set<ExcId>, next: set<ExcId>)
    requires IsLevel(g, found, seen, next) && |found| > 0
    ensures |g.Keys - next| < |g.Keys - seen|
  {
    assert found[0] in found;
    ProperSubset(g.Keys - next, g.Keys - seen, found[0]);
  }

  lemma ProperSubset(a: set<ExcId>, b: set<ExcId>, x: ExcId)
    requires a <= b && x in b && x !in a
    ensures |a| < |b|
  {
    assert b == a + (b - a);
    assert x in b - a;
  }

  /** Level after level: the next one begins from the causes and contexts of the leaves of this one. */
  ghost function ByLevels(g: Graph, items: seq<Linked>, seen: set<ExcId>): seq<ExcId>
    requires IsClosed(g) && InGraph(g, items)
    decreases |g.Keys - seen|
  {
    var (found, next) := Level(g, items, seen);
    if |found| == 0 then []
    else
      LevelShrinks(g, found, seen, next);
      LinksAreInGraph(g, found);
      found + ByLevels(g, LinksOf(g, found), next)
  }

  lemma {:induction false} LinksOfConcat(g: Graph, a: seq<ExcId>, b: seq<ExcId>)
    requires (forall i | i in a :: i in g) && forall i | i in b :: i in g
    ensures forall i | i in a + b :: i in g
    ensures LinksOf(g, a + b) == LinksOf(g, a) + LinksOf(g, b)
  {
    if |a| == 0 {
      assert a + b == b;
    } else {
      assert (a + b)[0] == a[0] && (a + b)[1..] == a[1..] + b;
      LinksOfConcat(g, a[1..], b);
    }
  }

  lemma LinksOfMore(g: Graph, ids: seq<ExcId>, id: ExcId)
    requires id in g && forall i | i in ids :: i in g
    ensures LinksOf(g, ids + [id]) == LinksOf(g, ids) + Links(g[id])
  {
    LinksOfConcat(g, ids, [id]);
    assert [id][1..] == [];
  }

  /** `found` are the leaves of this level so far, and `items` what is left of it. */
  ghost predicate FinishesLevel(g: Graph, items: seq<Linked>, found: seq<ExcId>, seen: set<ExcId>)
    requires IsClosed(g) && InGraph(g, items) && forall id | id in found :: id in g
  {
    var (more, next) := Level(g, items, seen);
    && InGraph(g, items + LinksOf(g, found)) && InGraph(g, LinksOf(g, found + more))
    && Walk(g, items + LinksOf(g, found), seen) == more + ByLevels(g, LinksOf(g, found + more), next)
  }

  lemma {:induction false} WalkFinishesLevel(g: Graph, items: seq<Linked>, found: seq<ExcId>, seen: set<ExcId>)
    requires IsClosed(g) && InGraph(g, items) && forall id | id in found :: id in g
    ensures FinishesLevel(g, items, found, seen)
    decreases |g.Keys - seen|, |items| + |LinksOf(g, found)|, |LinksOf(g, found)|
  {
    if |items| == 0 && |LinksOf(g, found)| == 0 {
      LevelIsDone(g, found, seen);
    } else if |items| == 0 {
      WalkFinishesLevel(g, LinksOf(g, found), [], seen) by { LinksAreInGraph(g, found); }
      LevelIsStarted(g, found, seen);
    } else if items[0].Other? || items[0].id in seen {
      WalkFinishesLevel(g, items[1..], found, seen);
      LevelSkips(g, items, found, seen);
    } else {
      var id, rest := items[0].id, items[1..];
      ChildrenAreInGraph(g, id);
      SeenGrows(g, seen, id);
      if g[id].isGroup {
        WalkFinishesLevel(g, g[id].members + Links(g[id]) + rest, found, seen + {id});
        LevelUnfolds(g, items, found, seen);
      } else {
        WalkFinishesLevel(g, rest, found + [id], seen + {id});
        LevelFinds(g, items, found, seen);
      }
    }
  }

  lemma LevelIsDone(g: Graph, found: seq<ExcId>, seen: set<ExcId>)
    requires IsClosed(g) && (forall id | id in found :: id in g) && LinksOf(g, found) == []
    ensures FinishesLevel(g, [], found, seen)
  {
    assert found + [] == found;
  }

  lemma LevelIsStarted(g: Graph, found: seq<ExcId>, seen: set<ExcId>)
    requires IsClosed(g) && (forall id | id in found :: id in g) && InGraph(g, LinksOf(g, found))
    requires FinishesLevel(g, LinksOf(g, found), [], seen)
    ensures FinishesLevel(g, [], found, seen)
  {
    var links := LinksOf(g, found);
    var (more, next) := Level(g, links, seen);
    assert found + [] == found && [] + links == links && links + LinksOf(g, []) == links && [] + more == more;
  }

  lemma LevelSkips(g: Graph, items: seq<Linked>, found: seq<ExcId>, seen: set<ExcId>)
    requires IsClosed(g) && InGraph(g, items) && forall id | id in found :: id in g
    requires |items| > 0 && (items[0].Other? || items[0].id in seen) && FinishesLevel(g, items[1..], found, seen)
    ensures FinishesLevel(g, items, found, seen)
  {
    LinksAreInGraph(g, found);
    SkipInLevel(g, items[0], items[1..], LinksOf(g, found), seen);
    assert items == [items[0]] + items[1..];
  }

  lemma SkipInLevel(g: Graph, item: Linked, rest: seq<Linked>, links: seq<Linked>, seen: set<ExcId>)
    requires IsClosed(g) && InGraph(g, [item] + rest) && InGraph(g, links) && (item.Other? || item.id in seen)
    ensures InGraph(g, [item] + rest + links) && InGraph(g, rest + links)
    ensures Walk(g, [item] + rest + links, seen) == Walk(g, rest + links, seen)
  {
    var stack := [item] + rest + links;
    assert stack[0] == item && stack[1..] == rest + links;
    WalkSkips(g, stack, seen);
  }

  lemma LevelUnfolds(g: Graph, items: seq<Linked>, found: seq<ExcId>, seen: set<ExcId>)
    requires IsClosed(g) && InGraph(g, items) && forall id | id in found :: id in g
    requires |items| > 0 && items[0].Exc? && items[0].id !in seen && g[items[0].id].isGroup
    requires var n := g[items[0].id];
             InGraph(g, n.members + Links(n) + items[1..])
             && FinishesLevel(g, n.members + Links(n) + items[1..], found, seen + {items[0].id})
    ensures FinishesLevel(g, items, found, seen)
  {
    LinksAreInGraph(g, found);
    UnfoldInLevel(g, items[0].id, items[1..], LinksOf(g, found), seen);
    assert items == [items[0]] + items[1..];
  }

  lemma UnfoldInLevel(g: Graph, id: ExcId, rest: seq<Linked>, links: seq<Linked>, seen: set<ExcId>)
    requires IsClosed(g) && InGraph(g, rest) && InGraph(g, links) && id in g && g[id].isGroup && id !in seen
    ensures InGraph(g, [Exc(id)] + rest + links) && InGraph(g, g[id].members + Links(g[id]) + rest + links)
    ensures Walk(g, [Exc(id)] + rest + links, seen) == Walk(g, g[id].members + Links(g[id]) + rest + links, seen + {id})
  {
    var stack := [Exc(id)] + rest + links;
    assert stack[1..] == rest + links;
    WalkVisits(g, stack, seen);
    assert Visit(g, id, stack[1..]) == g[id].members + Links(g[id]) + rest + links;
  }

  lemma LevelFinds(g: Graph, items: seq<Linked>, found: seq<ExcId>, seen: set<ExcId>)
    requires IsClosed(g) && InGraph(g, items) && forall id | id in found :: id in g
    requires |items| > 0 && items[0].Exc? && items[0].id !in seen && !g[items[0].id].isGroup
    requires FinishesLevel(g, items[1..], found + [items[0].id], seen + {items[0].id})
    ensures FinishesLevel(g, items, found, seen)
  {
    var id, rest := items[0].id, items[1..];
    var (later, next) := Level(g, rest, seen + {id});
    LinksAreInGraph(g, found);
    VisitInLevel(g, id, rest, found, seen);
    assert items == [Exc(id)] + rest;
    Regroup(found, [id], later);
    Regroup([id], later, ByLevels(g, LinksOf(g, found + ([id] + later)), next));
  }

  lemma VisitInLevel(g: Graph, id: ExcId, rest: seq<Linked>, found: seq<ExcId>, seen: set<ExcId>)
    requires IsClosed(g) && InGraph(g, rest) && (forall i | i in found :: i in g) && id in g && !g[id].isGroup && id !in seen
    ensures InGraph(g, [Exc(id)] + rest + LinksOf(g, found)) && InGraph(g, rest + LinksOf(g, found + [id]))
    ensures Walk(g, [Exc(id)] + rest + LinksOf(g, found), seen) == [id] + Walk(g, rest + LinksOf(g, found + [id]), seen + {id})
  {
    var stack := [Exc(id)] + rest + LinksOf(g, found);
    LinksAreInGraph(g, found);
    assert stack[1..] == rest + LinksOf(g, found);
    WalkVisits(g, stack, seen);
    LinksOfMore(g, found, id);
    assert Visit(g, id, stack[1..]) == rest + LinksOf(g, found + [id]);
  }

  /**
   * The walk goes level by level: a leaf comes before every leaf that hangs further down, by causes
   * and contexts of leaves, and each level is taken depth first through the groups in it.
   */
  lemma WalkIsByLevels(g: Graph, root: ExcId)
    requires IsClosed(g) && root in g
    ensures Walk(g, [Exc(root)], {}) == ByLevels(g, [Exc(root)], {})
  {
    var items := [Exc(root)];
    WalkFinishesLevel(g, items, [], {});
    assert items + LinksOf(g, []) == items;
    var (more, next) := Level(g, items, {});
    assert [] + more == more;
  }

  function Items(ids: seq<ExcId>): seq<Linked> {
    seq(|ids|, i requires 0 <= i < |ids| => Exc(ids[i]))
  }

  /** Different exceptions that are no groups and were not seen. */
  predicate AreFreshLeaves(g: Graph, ids: seq<ExcId>, seen: set<ExcId>) {
    && (forall i | 0 <= i < |ids| :: ids[i] in g && !g[ids[i]].isGroup && ids[i] !in seen)
    && (forall i, j | 0 <= i < j < |ids| :: ids[i] != ids[j])
  }

  function IdsOf(ids: seq<ExcId>): set<ExcId> {
    set id | id in ids
  }

  /** What lies on the stack is yielded as it lies there, before any cause or context of it. */
  lemma {:induction false} StackedLeavesComeFirst(g: Graph, ids: seq<ExcId>, rest: seq<Linked>, seen: set<ExcId>)
    requires IsClosed(g) && InGraph(g, rest) && AreFreshLeaves(g, ids, seen)
    ensures InGraph(g, Items(ids) + rest) && InGraph(g, rest + LinksOf(g, ids))
    ensures Walk(g, Items(ids) + rest, seen) == ids + Walk(g, rest + LinksOf(g, ids), seen + IdsOf(ids))
    decreases |ids|
  {
    LinksAreInGraph(g, ids);
    if |ids| == 0 {
      assert Items(ids) + rest == rest && rest + LinksOf(g, ids) == rest && seen + IdsOf(ids) == seen;
    } else {
      var id, later := ids[0], ids[1..];
      ChildrenAreInGraph(g, id);
      LaterAreFresh(g, ids, seen);
      StackedLeavesComeFirst(g, later, rest + Links(g[id]), seen + {id});
      OneStackedLeaf(g, id, Items(later), rest, seen);
      FirstApart(g, ids, rest, seen);
      FirstId(ids);
      Regroup([id], later, Walk(g, rest + LinksOf(g, ids), seen + IdsOf(ids)));
    }
  }

  lemma LaterAreFresh(g: Graph, ids: seq<ExcId>, seen: set<ExcId>)
    requires |ids| > 0 && AreFreshLeaves(g, ids, seen)
    ensures AreFreshLeaves(g, ids[1..], seen + {ids[0]})
  {
  }

  lemma FirstApart(g: Graph, ids: seq<ExcId>, rest: seq<Linked>, seen: set<ExcId>)
    requires |ids| > 0 && forall id | id in ids :: id in g
    ensures Items(ids) + rest == [Exc(ids[0])] + (Items(ids[1..]) + rest)
    ensures (rest + Links(g[ids[0]])) + LinksOf(g, ids[1..]) == rest + LinksOf(g, ids)
    ensures (seen + {ids[0]}) + IdsOf(ids[1..]) == seen + IdsOf(ids)
  {
    FirstItem(ids);
    RegroupItems([Exc(ids[0])], Items(ids[1..]), rest);
    RegroupItems(rest, Links(g[ids[0]]), LinksOf(g, ids[1..]));
    FirstId(ids);
  }

  lemma FirstItem(ids: seq<ExcId>)
    requires |ids| > 0
    ensures Items(ids) == [Exc(ids[0])] + Items(ids[1..])
  {
  }

  lemma FirstId(ids: seq<ExcId>)
    requires |ids| > 0
    ensures IdsOf(ids) == {ids[0]} + IdsOf(ids[1..]) && ids == [ids[0]] + ids[1..]
  {
    assert ids == [ids[0]] + ids[1..];
  }

  lemma RegroupItems(a: seq<Linked>, b: seq<Linked>, c: seq<Linked>)
    ensures a + (b + c) == (a + b) + c
  {
  }

  lemma OneStackedLeaf(g: Graph, id: ExcId, later: seq<Linked>, rest: seq<Linked>, seen: set<ExcId>)
    requires IsClosed(g) && InGraph(g, rest) && InGraph(g, later) && id in g && !g[id].isGroup && id !in seen
    ensures InGraph(g, [Exc(id)] + (later + rest)) && InGraph(g, later + (rest + Links(g[id])))
    ensures Walk(g, [Exc(id)] + (later + rest), seen) == [id] + Walk(g, later + (rest + Links(g[id])), seen + {id})
  {
    var stack := [Exc(id)] + (later + rest);
    assert stack[1..] == later + rest;
    ChildrenAreInGraph(g, id);
    WalkVisits(g, stack, seen);
    assert Visit(g, id, stack[1..]) == later + (rest + Links(g[id]));
  }

  /** An exception, the older ones, and only then its cause and after that its context. */
  lemma CauseComesBeforeContext(g: Graph, id: ExcId, older: seq<ExcId>, cause: ExcId, context: ExcId, seen: set<ExcId>)
    requires IsClosed(g) && AreFreshLeaves(g, [id] + older, seen)
    requires AreFreshLeaves(g, [cause, context], seen + IdsOf([id] + older))
    requires g[([id] + older)[0]].cause == Exc(cause) && g[([id] + older)[0]].context == Exc(context)
    requires forall i | 1 <= i < |[id] + older| :: g[([id] + older)[i]].cause.Other? && g[([id] + older)[i]].context.Other?
    ensures InGraph(g, Items([id] + older))
    ensures ([id] + older) + [cause, context] <= Walk(g, Items([id] + older), seen)
  {
    var first := [id] + older;
    var last := [cause, context];
    assert first[1..] == older;
    forall i | 0 <= i < |older| ensures older[i] in g && g[older[i]].cause.Other? && g[older[i]].context.Other? {
      assert older[i] == first[i + 1];
    }
    NoLinks(g, older);
    assert LinksOf(g, first) == Items(last);
    StackedLeavesComeFirst(g, first, [], seen);
    StackedLeavesComeFirst(g, last, [], seen + IdsOf(first));
    assert Items(first) + [] == Items(first) && [] + Items(last) == Items(last) + [];
  }

  lemma {:induction false} NoLinks(g: Graph, ids: seq<ExcId>)
    requires forall id | id in ids :: id in g && g[id].cause.Other? && g[id].context.Other?
    ensures LinksOf(g, ids) == []
  {
    if |ids| > 0 {
      assert ids[0] in ids;
      NoLinks(g, ids[1..]);
    }
  }

  /** A group's members, in their order, then its own cause and context, and then the older work. */
  lemma GroupComesBeforeOlderWork(g: Graph, id: ExcId, members: seq<ExcId>, cause: ExcId, context: ExcId,
                                  rest: seq<Linked>, seen: set<ExcId>)
    requires IsClosed(g) && InGraph(g, rest) && id in g && id !in seen && g[id].isGroup
    requires g[id].members == Items(members) && g[id].cause == Exc(cause) && g[id].context == Exc(context)
    requires AreFreshLeaves(g, members + [cause, context], seen + {id})
    ensures InGraph(g, [Exc(id)] + rest) && InGraph(g, rest + LinksOf(g, members + [cause, context]))
    ensures Walk(g, [Exc(id)] + rest, seen)
         == members + [cause, context]
            + Walk(g, rest + LinksOf(g, members + [cause, context]), seen + {id} + IdsOf(members + [cause, context]))
  {
    var stack := [Exc(id)] + rest;
    var all := members + [cause, context];
    assert stack[1..] == rest;
    WalkVisits(g, stack, seen);
    assert Items(all) == Items(members) + [Exc(cause), Exc(context)];
    assert Children(g[id]) == Items(all);
    StackedLeavesComeFirst(g, all, rest, seen + {id});
  }

  ghost predicate IsFirstMember(g: Graph, group: ExcId, member: ExcId) {
    group in g && g[group].isGroup && |g[group].members| > 0 && g[group].members[0] == Exc(member)
  }

  /**
   * The order that the failure summary relies on: the first leaf of a group is found by going
   * down through first members, ahead of every cause, context and older work.
   */
  lemma {:induction false} FirstMembersComeFirst(g: Graph, chain: seq<ExcId>, rest: seq<Linked>, seen: set<ExcId>)
    requires IsClosed(g) && InGraph(g, rest) && |chain| > 0
    requires forall i | 0 <= i < |chain| :: chain[i] in g && chain[i] !in seen
    requires forall i, j | 0 <= i < j < |chain| :: chain[i] != chain[j]
    requires forall i | 0 <= i < |chain| - 1 :: IsFirstMember(g, chain[i], chain[i + 1])
    requires !g[chain[|chain| - 1]].isGroup
    ensures var w := Walk(g, [Exc(chain[0])] + rest, seen); |w| > 0 && w[0] == chain[|chain| - 1]
    decreases |chain|
  {
    var id := chain[0];
    var stack := [Exc(id)] + rest;
    assert stack[1..] == rest;
    if |chain| > 1 {
      assert IsFirstMember(g, id, chain[1]);
      var next := Visit(g, id, rest);
      assert next == [Exc(chain[1])] + next[1..];
      forall l | l in next[1..] ensures l in next {}
      FirstMembersComeFirst(g, chain[1..], next[1..], seen + {id});
    }
  }

  // -------------------------------------------------------------------------------------------
  // Classification
  // -------------------------------------------------------------------------------------------

  /** Lower-cased wording of a session the server has dropped. */
  const STALE_SESSION_MARKERS: seq<string> := ["session terminated", "session not found"]

  ghost predicate MentionsAny(text: string, markers: seq<string>) {
    exists m | m in markers :: Contains(text, m)
  }

  method AnyMentions(texts: seq<string>, markers: seq<string>) returns (found: bool)
    ensures found <==> exists i :: 0 <= i < |texts| && MentionsAny(texts[i], markers)
  {
    found := false;
    for i := 0 to |texts|
      invariant !found && forall j | 0 <= j < i :: !MentionsAny(texts[j], markers)
    {
      for k := 0 to |markers|
        invariant !found && forall h | 0 <= h < k :: !Contains(texts[i], markers[h])
      {
        found := Includes(texts[i], markers[k]);
        if found {
          assert markers[k] in markers && MentionsAny(texts[i], markers);
          return;
        }
      }
    }
  }

  ghost predicate IsStale(g: Graph, root: ExcId, markers: seq<string>) {
    exists leaf :: IsReachableLeaf(g, root, leaf) && MentionsAny(g[leaf].text, markers)
  }

  lemma StaleIffSomeLeafMentions(g: Graph, root: ExcId, markers: seq<string>)
    requires IsClosed(g) && root in g
    ensures var w := Walk(g, [Exc(root)], {});
            && (forall i | 0 <= i < |w| :: w[i] in g)
            && (IsStale(g, root, markers) <==> exists i :: 0 <= i < |w| && MentionsAny(g[w[i]].text, markers))
  {
    WalkIsExact(g, root);
    var w := Walk(g, [Exc(root)], {});
    forall i | 0 <= i < |w| ensures IsReachableLeaf(g, root, w[i]) {
      assert w[i] in w;
    }
  }

  /** True exactly when some leaf of the exception's tree mentions a dead server-side session. */
  method IsStaleSessionError(g: Graph, root: ExcId) returns (stale: bool)
    requires IsClosed(g) && root in g
    ensures stale <==> IsStale(g, root, STALE_SESSION_MARKERS)
  {
    StaleIffSomeLeafMentions(g, root, STALE_SESSION_MARKERS);
    var leaves := IterExceptionLeaves(g, root);
    var texts := seq(|leaves|, i requires 0 <= i < |leaves| => g[leaves[i]].text);
    assert forall i | 0 <= i < |leaves| ::
        MentionsAny(texts[i], STALE_SESSION_MARKERS) <==> MentionsAny(g[leaves[i]].text, STALE_SESSION_MARKERS);
    stale := AnyMentions(texts, STALE_SESSION_MARKERS);
  }

  /** `i` is the first leaf of a walk that carries a revision. */
  ghost predicate IsFirstRevision(g: Graph, w: seq<ExcId>, i: nat)
    requires forall k | 0 <= k < |w| :: w[k] in g
  {
    i < |w| && g[w[i]].revision.Some? && forall j | 0 <= j < i :: g[w[j]].revision.None?
  }

  lemma LeavesAreNodes(g: Graph, root: ExcId)
    requires IsClosed(g) && root in g
    ensures var w := Walk(g, [Exc(root)], {}); forall i | 0 <= i < |w| :: w[i] in g
  {
    StaleIffSomeLeafMentions(g, root, []);
  }

  /**
   * The revision an unsupported-revision failure names: the one of the first leaf, in walk order,
   * that carries any. Without one the failure is an ordinary connection failure.
   */
  method ClassifyRevision(g: Graph, root: ExcId) returns (revision: Option<string>)
    requires IsClosed(g) && root in g
    ensures revision.None? <==> forall leaf | IsReachableLeaf(g, root, leaf) :: g[leaf].revision.None?
    ensures var w := Walk(g, [Exc(root)], {});
            && (forall k | 0 <= k < |w| :: w[k] in g)
            && (revision.Some? ==> exists i: nat :: IsFirstRevision(g, w, i) && g[w[i]].revision == revision)
  {
    LeavesAreNodes(g, root);
    WalkIsExact(g, root);
    var leaves := IterExceptionLeaves(g, root);
    revision := None;
    for i := 0 to |leaves|
      invariant revision.None?
      invariant forall j | 0 <= j < i :: g[leaves[j]].revision.None?
    {
      if g[leaves[i]].revision.Some? {
        assert IsFirstRevision(g, leaves, i);
        assert leaves[i] in leaves;
        revision := g[leaves[i]].revision;
        return;
      }
    }
    forall leaf | IsReachableLeaf(g, root, leaf) ensures g[leaf].revision.None? {
      assert leaf in leaves;
    }
  }
}
