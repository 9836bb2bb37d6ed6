/** The depth-first search for the roots above a node. */
module FindRoots {
  import opened Content
  import opened Digraph

  /** An entry of the search stack: a node and the depth at which it was found. */
  datatype NodeInfo = NodeInfo(node: Descriptor, depth: int)

  /** `FindPredecessors`: the nodes that point to a node, or an error. */
  type Finder = Key -> Result<seq<Descriptor>>

  function Above(find: Finder, k: Key): set<Key> {
    var r := find(k);
    if r.Ok? then SetOf(Keys(r.value)) else {}
  }

  /** The predecessor graph on the nodes `all` that the storage knows. */
  function Up(find: Finder, all: set<Key>): Graph<Key> {
    map k | k in all :: Above(find, k)
  }

  /** The storage is finite: predecessors of known nodes are known. */
  ghost predicate Known(find: Finder, all: set<Key>, node: Key) {
    node in all && forall k :: k in all ==> Above(find, k) <= all
  }

  /** `k` is found from `node` after `d` steps upwards. */
  ghost predicate AtDepth(g: Graph<Key>, node: Key, k: Key, d: int) {
    exists p :: PathBetween(g, p, node, k) && |p| - 1 == d
  }

  lemma AtDepthStep(g: Graph<Key>, node: Key, k: Key, d: int, k': Key)
    requires AtDepth(g, node, k, d) && k' in Out(g, k)
    ensures AtDepth(g, node, k', d + 1)
  {
    var p :| PathBetween(g, p, node, k) && |p| - 1 == d;
    assert PathBetween(g, p + [k'], node, k');
  }

  lemma AtDepthReach(g: Graph<Key>, node: Key, k: Key, d: int)
    requires AtDepth(g, node, k, d)
    ensures Reach(g, node, k)
  {
  }

  // ----- the search -----

  /** An entry was reached along a path as long as its depth, and not below the limit. */
  ghost predicate GoodEntry(g: Graph<Key>, node: Key, limit: int, e: NodeInfo) {
    AtDepth(g, node, KeyOf(e.node), e.depth) && (limit > 0 ==> e.depth <= limit)
  }

  ghost predicate GoodStack(g: Graph<Key>, node: Key, limit: int, all: set<Key>, stack: seq<NodeInfo>) {
    forall i :: 0 <= i < |stack| ==> GoodEntry(g, node, limit, stack[i]) && KeyOf(stack[i].node) in all
  }

  /** A root has no predecessors, or lies at the depth limit. */
  ghost predicate GoodRoot(find: Finder, g: Graph<Key>, node: Key, limit: int, k: Key) {
    exists d :: AtDepth(g, node, k, d) &&
      (limit > 0 ==> d <= limit) && (find(k) == Ok([]) || (limit > 0 && d == limit))
  }

  ghost predicate GoodRoots(find: Finder, g: Graph<Key>, node: Key, limit: int, roots: map<Key, Descriptor>) {
    forall k :: k in roots ==> KeyOf(roots[k]) == k && GoodRoot(find, g, node, limit, k)
  }

  /** `k` was found below the depth limit, so its predecessors are looked for. */
  ghost predicate LookedUp(find: Finder, g: Graph<Key>, node: Key, limit: int, k: Key, d: int) {
    AtDepth(g, node, k, d) && (limit > 0 ==> d < limit)
  }

  predicate OnStack(stack: seq<NodeInfo>, k: Key) {
    exists i :: 0 <= i < |stack| && KeyOf(stack[i].node) == k
  }

  /** A visited node is a root, or its predecessors have been visited or wait on the stack. */
  ghost predicate Pending(find: Finder, visited: set<Key>, stack: seq<NodeInfo>, roots: map<Key, Descriptor>) {
    forall k :: k in visited && k !in roots ==>
      find(k).Ok? && find(k).value != [] && forall p :: p in Above(find, k) ==> p in visited || OnStack(stack, p)
  }

  /** A closed search: each visited node is a root or has only visited predecessors, and has some. */
  ghost predicate Complete(find: Finder, visited: set<Key>, roots: map<Key, Descriptor>) {
    forall k :: k in visited && k !in roots ==>
      find(k).Ok? && find(k).value != [] && Above(find, k) <= visited
  }

  /** Pushes the predecessors that have not been visited. */
  method PushUnvisited(stack: seq<NodeInfo>, preds: seq<Descriptor>, visited: set<Key>, depth: int)
    returns (stack': seq<NodeInfo>)
    ensures stack <= stack'
    ensures forall i :: |stack| <= i < |stack'| ==> stack'[i].node in preds && stack'[i].depth == depth
    ensures forall p :: p in preds ==> KeyOf(p) in visited || OnStack(stack', KeyOf(p))
  {
    stack' := stack;
    for n := 0 to |preds|
      invariant stack <= stack'
      invariant forall i :: |stack| <= i < |stack'| ==> stack'[i].node in preds && stack'[i].depth == depth
      invariant forall m :: 0 <= m < n ==> KeyOf(preds[m]) in visited || OnStack(stack', KeyOf(preds[m]))
    {
      if KeyOf(preds[n]) !in visited {
        ghost var before := stack';
        stack' := stack' + [NodeInfo(preds[n], depth)];
        assert stack'[|before|].node == preds[n];
        forall m | 0 <= m < n && OnStack(before, KeyOf(preds[m]))
          ensures OnStack(stack', KeyOf(preds[m]))
        {
          var i :| 0 <= i < |before| && KeyOf(before[i].node) == KeyOf(preds[m]);
          assert stack'[i] == before[i];
        }
      }
    }
  }

  /**
   Depth-first search upwards from `node`. The roots are kept by key, so there is one per key. `limit` is the
   depth limit, none when it is not positive; `all` is the finite set of nodes the storage knows.
   */
  method FindRootMap(find: Finder, node: Descriptor, limit: int, ghost all: set<Key>)
    returns (r: Result<map<Key, Descriptor>>, ghost visited: set<Key>)
    requires Known(find, all, KeyOf(node))
    ensures r.Err? ==> exists k :: Reach(Up(find, all), KeyOf(node), k) && find(k).Err?
    ensures r.Err? ==> exists k, d :: LookedUp(find, Up(find, all), KeyOf(node), limit, k, d) && find(k) == Err(r.error)
    ensures r.Ok? ==>
      && KeyOf(node) in visited && r.value.Keys <= visited <= all
      && GoodRoots(find, Up(find, all), KeyOf(node), limit, r.value)
      && Complete(find, visited, r.value)
  {
    ghost var start := KeyOf(node);
    var seen: set<Key> := {};
    var roots: map<Key, Descriptor> := map[];
    var stack := [NodeInfo(node, 0)];
    StartSearch(find, all, limit, node);
    while |stack| > 0
      invariant Search(find, all, start, limit, seen, stack, roots)
      decreases |all - seen|, |stack|
    {
      var current := stack[|stack| - 1];
      var key := KeyOf(current.node);
      ghost var before := stack;
      stack := stack[..|stack| - 1];
      if key in seen {
        SkipSeen(find, all, start, limit, seen, before, roots);
        continue;
      }
      FewerUnseen(find, all, start, limit, seen, before, roots);
      if limit > 0 && current.depth == limit {
        FoundRoot(find, all, start, limit, seen, before, roots);
        seen, roots := seen + {key}, roots[key := current.node];
        continue;
      }
      var preds := find(key);
      if preds.Err? {
        AtDepthReach(Up(find, all), start, key, current.depth);
        assert LookedUp(find, Up(find, all), start, limit, key, current.depth);
        r, visited := Err(preds.error), seen;
        return;
      }
      if |preds.value| == 0 {
        FoundRoot(find, all, start, limit, seen, before, roots);
        seen, roots := seen + {key}, roots[key := current.node];
        continue;
      }
      ghost var popped := stack;
      stack := PushUnvisited(stack, preds.value, seen + {key}, current.depth + 1);
      PushedPredecessors(find, all, start, limit, seen, before, roots, popped, stack);
      seen := seen + {key};
    }
    r, visited := Ok(roots), seen;
  }

  /** The invariant of the search. */
  ghost predicate Search(find: Finder, all: set<Key>, start: Key, limit: int, seen: set<Key>,
                         stack: seq<NodeInfo>, roots: map<Key, Descriptor>)
  {
    && seen <= all && roots.Keys <= seen
    && (start in seen || OnStack(stack, start))
    && GoodStack(Up(find, all), start, limit, all, stack)
    && GoodRoots(find, Up(find, all), start, limit, roots)
    && Pending(find, seen, stack, roots)
  }

  lemma StartSearch(find: Finder, all: set<Key>, limit: int, node: Descriptor)
    requires Known(find, all, KeyOf(node))
    ensures Search(find, all, KeyOf(node), limit, {}, [NodeInfo(node, 0)], map[])
  {
    var start, stack := KeyOf(node), [NodeInfo(node, 0)];
    assert PathBetween(Up(find, all), [start], start, start) && KeyOf(stack[0].node) == start;
  }

  lemma SkipSeen(find: Finder, all: set<Key>, start: Key, limit: int, seen: set<Key>, stack: seq<NodeInfo>,
                 roots: map<Key, Descriptor>)
    requires Search(find, all, start, limit, seen, stack, roots) && |stack| > 0
    requires KeyOf(stack[|stack| - 1].node) in seen
    ensures Search(find, all, start, limit, seen, stack[..|stack| - 1], roots)
  {
    var key, rest := KeyOf(stack[|stack| - 1].node), stack[..|stack| - 1];
    PopKeeps(stack, key, rest);
    KeepPending(find, seen, stack, roots, key, rest, roots);
    assert seen + {key} == seen;
  }

  lemma FewerUnseen(find: Finder, all: set<Key>, start: Key, limit: int, seen: set<Key>, stack: seq<NodeInfo>,
                    roots: map<Key, Descriptor>)
    requires Search(find, all, start, limit, seen, stack, roots) && |stack| > 0
    requires KeyOf(stack[|stack| - 1].node) !in seen
    ensures |all - (seen + {KeyOf(stack[|stack| - 1].node)})| < |all - seen|
  {
    var key := KeyOf(stack[|stack| - 1].node);
    assert all - (seen + {key}) == (all - seen) - {key};
  }

  lemma FoundRoot(find: Finder, all: set<Key>, start: Key, limit: int, seen: set<Key>, stack: seq<NodeInfo>,
                  roots: map<Key, Descriptor>)
    requires Search(find, all, start, limit, seen, stack, roots) && |stack| > 0
    requires var e := stack[|stack| - 1]; find(KeyOf(e.node)) == Ok([]) || (limit > 0 && e.depth == limit)
    ensures var e := stack[|stack| - 1];
      Search(find, all, start, limit, seen + {KeyOf(e.node)}, stack[..|stack| - 1], roots[KeyOf(e.node) := e.node])
  {
    var e, rest := stack[|stack| - 1], stack[..|stack| - 1];
    var key := KeyOf(e.node);
    PopKeeps(stack, key, rest);
    KeepPending(find, seen, stack, roots, key, rest, roots[key := e.node]);
    AddRoot(find, Up(find, all), start, limit, roots, e);
  }

  lemma PushedPredecessors(find: Finder, all: set<Key>, start: Key, limit: int, seen: set<Key>, stack: seq<NodeInfo>,
                           roots: map<Key, Descriptor>, popped: seq<NodeInfo>, stack': seq<NodeInfo>)
    requires Known(find, all, start) && Search(find, all, start, limit, seen, stack, roots)
    requires |stack| > 0 && popped == stack[..|stack| - 1] && popped <= stack'
    requires var e := stack[|stack| - 1];
      var preds := find(KeyOf(e.node));
      && preds.Ok? && preds.value != [] && !(limit > 0 && e.depth == limit)
      && (forall i :: |popped| <= i < |stack'| ==> stack'[i].node in preds.value && stack'[i].depth == e.depth + 1)
      && (forall p :: p in preds.value ==> KeyOf(p) in seen + {KeyOf(e.node)} || OnStack(stack', KeyOf(p)))
    ensures Search(find, all, start, limit, seen + {KeyOf(stack[|stack| - 1].node)}, stack', roots)
  {
    var e := stack[|stack| - 1];
    var key := KeyOf(e.node);
    PopKeeps(stack, key, popped);
    PushedEntries(find, all, start, limit, e, find(key).value, popped, stack');
    PushKeeps(stack, key, popped, stack');
    PushedAll(find, key, seen + {key}, stack');
    KeepPending(find, seen, stack, roots, key, stack', roots);
  }

  /** The search is kept: an entry leaves the stack only when its key has been visited. */
  lemma KeepPending(find: Finder, visited: set<Key>, stack: seq<NodeInfo>, roots: map<Key, Descriptor>, key: Key,
                    stack': seq<NodeInfo>, roots': map<Key, Descriptor>)
    requires Pending(find, visited, stack, roots) && roots.Keys <= roots'.Keys
    requires KeepsAllBut(stack, key, stack')
    requires key in visited || key in roots' ||
      (find(key).Ok? && find(key).value != [] &&
       forall p :: p in Above(find, key) ==> p in visited + {key} || OnStack(stack', p))
    ensures Pending(find, visited + {key}, stack', roots')
  {
  }

  lemma AddRoot(find: Finder, g: Graph<Key>, start: Key, limit: int, roots: map<Key, Descriptor>, e: NodeInfo)
    requires GoodRoots(find, g, start, limit, roots) && GoodEntry(g, start, limit, e)
    requires find(KeyOf(e.node)) == Ok([]) || (limit > 0 && e.depth == limit)
    ensures GoodRoots(find, g, start, limit, roots[KeyOf(e.node) := e.node])
  {
    assert GoodRoot(find, g, start, limit, KeyOf(e.node));
  }

  lemma PushedAll(find: Finder, key: Key, visited: set<Key>, stack: seq<NodeInfo>)
    requires find(key).Ok?
    requires forall p :: p in find(key).value ==> KeyOf(p) in visited || OnStack(stack, KeyOf(p))
    ensures forall p :: p in Above(find, key) ==> p in visited || OnStack(stack, p)
  {
    forall p | p in Above(find, key)
      ensures p in visited || OnStack(stack, p)
    {
      var ds := find(key).value;
      var i :| 0 <= i < |ds| && Keys(ds)[i] == p;
      assert ds[i] in ds;
    }
  }

  /** What is on `stack` is on `stack'`, except perhaps `key`. */
  ghost predicate KeepsAllBut(stack: seq<NodeInfo>, key: Key, stack': seq<NodeInfo>) {
    forall k :: OnStack(stack, k) ==> k == key || OnStack(stack', k)
  }

  lemma PopKeeps(stack: seq<NodeInfo>, key: Key, rest: seq<NodeInfo>)
    requires |stack| > 0 && key == KeyOf(stack[|stack| - 1].node) && rest == stack[..|stack| - 1]
    ensures KeepsAllBut(stack, key, rest)
  {
    forall k | OnStack(stack, k) && k != key
      ensures OnStack(rest, k)
    {
      var i :| 0 <= i < |stack| && KeyOf(stack[i].node) == k;
      assert rest[i] == stack[i];
    }
  }

  lemma PushKeeps(before: seq<NodeInfo>, key: Key, stack: seq<NodeInfo>, stack': seq<NodeInfo>)
    requires KeepsAllBut(before, key, stack) && stack <= stack'
    ensures KeepsAllBut(before, key, stack')
  {
    forall k | OnStack(before, k) && k != key
      ensures OnStack(stack', k)
    {
      var i :| 0 <= i < |stack| && KeyOf(stack[i].node) == k;
      assert stack'[i] == stack[i];
    }
  }

  /** What is pushed above a good entry is good, as the entry was not at the limit. */
  lemma PushedEntries(find: Finder, all: set<Key>, start: Key, limit: int, current: NodeInfo, preds: seq<Descriptor>,
                      stack: seq<NodeInfo>, stack': seq<NodeInfo>)
    requires Known(find, all, start) && KeyOf(current.node) in all && find(KeyOf(current.node)) == Ok(preds)
    requires GoodEntry(Up(find, all), start, limit, current) && !(limit > 0 && current.depth == limit)
    requires stack <= stack'
    requires forall i :: |stack| <= i < |stack'| ==> stack'[i].node in preds && stack'[i].depth == current.depth + 1
    requires GoodStack(Up(find, all), start, limit, all, stack)
    ensures GoodStack(Up(find, all), start, limit, all, stack')
  {
    var g := Up(find, all);
    forall i | 0 <= i < |stack'|
      ensures GoodEntry(g, start, limit, stack'[i]) && KeyOf(stack'[i].node) in all
    {
      if i < |stack| {
        assert stack'[i] == stack[i];
      } else {
        var m :| 0 <= m < |preds| && preds[m] == stack'[i].node;
        assert Keys(preds)[m] == KeyOf(preds[m]);
        assert KeyOf(preds[m]) in Above(find, KeyOf(current.node));
        AtDepthStep(g, start, KeyOf(current.node), current.depth, KeyOf(preds[m]));
      }
    }
  }

  // ----- what the search finds -----

  /** The roots above `node`: itself or ancestors of it, without predecessors. */
  ghost predicate IsRootAbove(find: Finder, all: set<Key>, node: Key, k: Key) {
    Reach(Up(find, all), node, k) && find(k) == Ok([])
  }

  /** A complete search without a depth limit has visited all ancestors and found all roots. */
  lemma UnlimitedIsExact(find: Finder, all: set<Key>, node: Key, visited: set<Key>, roots: map<Key, Descriptor>, k: Key)
    requires Known(find, all, node) && node in visited && roots.Keys <= visited <= all
    requires GoodRoots(find, Up(find, all), node, 0, roots)
    requires Complete(find, visited, roots)
    ensures k in roots <==> IsRootAbove(find, all, node, k)
    ensures Reach(Up(find, all), node, k) ==> k in visited && find(k).Ok?
  {
    var g := Up(find, all);
    assert Closed(g, visited) by {
      forall v | v in visited
        ensures Out(g, v) <= visited
      {
        if v in roots {
          assert find(v) == Ok([]);
        }
      }
    }
    if Reach(g, node, k) {
      ClosedReach(g, visited, node, k);
    }
  }

  lemma UnlimitedRoots(find: Finder, all: set<Key>, node: Key, limit: int, visited: set<Key>,
                       roots: map<Key, Descriptor>)
    requires Known(find, all, node) && node in visited && roots.Keys <= visited <= all && limit <= 0
    requires GoodRoots(find, Up(find, all), node, limit, roots) && Complete(find, visited, roots)
    ensures forall k :: k in roots <==> IsRootAbove(find, all, node, k)
    ensures forall k :: Reach(Up(find, all), node, k) ==> find(k).Ok?
  {
    assert forall k :: GoodRoot(find, Up(find, all), node, limit, k) ==> GoodRoot(find, Up(find, all), node, 0, k);
    forall k
      ensures k in roots <==> IsRootAbove(find, all, node, k)
      ensures Reach(Up(find, all), node, k) ==> find(k).Ok?
    {
      UnlimitedIsExact(find, all, node, visited, roots, k);
    }
  }

  /** `findRoots`: the values of the root map, in an order that is not determined. */
  method FindAllRoots(find: Finder, node: Descriptor, limit: int, ghost all: set<Key>)
    returns (r: Result<seq<Descriptor>>, ghost visited: set<Key>, ghost roots: map<Key, Descriptor>)
    requires Known(find, all, KeyOf(node))
    ensures r.Err? ==> exists k :: Reach(Up(find, all), KeyOf(node), k) && find(k).Err?
    ensures r.Err? ==> exists k, d :: LookedUp(find, Up(find, all), KeyOf(node), limit, k, d) && find(k) == Err(r.error)
    ensures r.Ok? ==> NoRepeats(Keys(r.value)) && SetOf(Keys(r.value)) == roots.Keys
    ensures r.Ok? ==>
      && KeyOf(node) in visited && roots.Keys <= visited <= all
      && GoodRoots(find, Up(find, all), KeyOf(node), limit, roots)
      && Complete(find, visited, roots)
    ensures limit <= 0 ==> (r.Ok? <==> forall k :: Reach(Up(find, all), KeyOf(node), k) ==> find(k).Ok?)
    ensures limit <= 0 && r.Ok? ==> forall k :: k in SetOf(Keys(r.value)) <==> IsRootAbove(find, all, KeyOf(node), k)
  {
    var rm;
    rm, visited := FindRootMap(find, node, limit, all);
    if rm.Err? {
      return Err(rm.error), visited, map[];
    }
    var rootMap := rm.value;
    roots := rootMap;
    if limit <= 0 {
      UnlimitedRoots(find, all, KeyOf(node), limit, visited, roots);
    }
    var list: seq<Descriptor> := [];
    var rest := rootMap.Keys;
    while rest != {}
      invariant rest <= rootMap.Keys
      invariant SetOf(Keys(list)) == rootMap.Keys - rest && NoRepeats(Keys(list))
      decreases rest
    {
      var k :| k in rest;
      ListRoot(list, rootMap, k);
      list := list + [rootMap[k]];
      rest := rest - {k};
    }
    r := Ok(list);
  }

  lemma ListRoot(list: seq<Descriptor>, roots: map<Key, Descriptor>, k: Key)
    requires k in roots && KeyOf(roots[k]) == k && k !in SetOf(Keys(list)) && NoRepeats(Keys(list))
    ensures SetOf(Keys(list + [roots[k]])) == SetOf(Keys(list)) + {k} && NoRepeats(Keys(list + [roots[k]]))
  {
    assert Keys(list + [roots[k]]) == Keys(list) + [k];
    assert forall i :: 0 <= i < |list| ==> Keys(list)[i] in SetOf(Keys(list));
  }

  // ----- on an acyclic graph every visited node lies below a root -----

  lemma {:induction false} Highest(s: set<Key>, rank: Key -> nat) returns (top: Key)
    requires s != {}
    ensures top in s && forall k :: k in s ==> rank(k) <= rank(top)
  {
    top :| top in s;
    var rest := s - {top};
    assert s == rest + {top};
    if rest != {} {
      var other := Highest(rest, rank);
      var first := top;
      top := if rank(first) < rank(other) then other else first;
      forall k | k in s
        ensures rank(k) <= rank(top)
      {
        assert k == first || k in rest;
      }
    }
  }

  /**
   With or without a depth limit, when the rank grows along predecessors every visited node lies below a
   returned root.
   */
  lemma VisitedBelowRoot(find: Finder, all: set<Key>, visited: set<Key>, roots: map<Key, Descriptor>,
                         rank: Key -> nat, v: Key)
    requires roots.Keys <= visited <= all && Complete(find, visited, roots) && v in visited
    requires forall k, p :: p in Above(find, k) ==> rank(k) < rank(p)
    ensures exists r :: r in roots && Reach(Up(find, all), v, r)
  {
    var g := Up(find, all);
    ghost var up := set k | k in visited && Reach(g, v, k);
    ReachSelf(g, v);
    assert v in up;
    var top := Highest(up, rank);
    if top !in roots {
      assert KeyOf(find(top).value[0]) == Keys(find(top).value)[0];
      assert KeyOf(find(top).value[0]) in Above(find, top);
      NoneHigher(g, visited, v, top, rank);
    }
  }

  lemma NoneHigher(g: Graph<Key>, s: set<Key>, v: Key, top: Key, rank: Key -> nat)
    requires Reach(g, v, top) && Out(g, top) <= s && forall k :: k in s && Reach(g, v, k) ==> rank(k) <= rank(top)
    ensures forall p :: p in Out(g, top) ==> rank(p) <= rank(top)
  {
    forall p | p in Out(g, top)
      ensures rank(p) <= rank(top)
    {
      ReachStep(g, v, top, p);
    }
  }
}
