/** The in-memory graph index: nodes, their successors, and the inverse predecessor map. */
module GraphMemory {
  import opened Content
  import opened Digraph

  /** The nodes that point to `s`. */
  function Sources(succ: map<Key, set<Key>>, s: Key): set<Key> {
    set n | n in succ && s in succ[n]
  }

  /** `pred` is the inverse of `succ`, without empty entries. */
  ghost predicate Inverted(succ: map<Key, set<Key>>, pred: map<Key, set<Key>>) {
    (forall s :: Out(pred, s) == Sources(succ, s)) && (forall s :: s in pred ==> pred[s] != {})
  }

  /** An edge is recorded from one side if and only if it is recorded from the other. */
  lemma EdgeBothWays(succ: map<Key, set<Key>>, pred: map<Key, set<Key>>, n: Key, s: Key)
    requires Inverted(succ, pred)
    ensures n in succ && s in succ[n] <==> s in pred && n in pred[s]
    ensures s in pred <==> exists m :: m in succ && s in succ[m]
  {
    assert Out(pred, s) == Sources(succ, s);
    assert s in pred <==> Out(pred, s) != {};
    if s in pred {
      var m :| m in pred[s];
      assert m in Sources(succ, s);
    }
    if m :| m in succ && s in succ[m] {
      assert m in Sources(succ, s);
    }
  }

  lemma SourcesUpdate(succ: map<Key, set<Key>>, n: Key, out: set<Key>, s: Key)
    ensures Sources(succ[n := out], s) == (Sources(succ, s) - {n}) + if s in out then {n} else {}
  {
  }

  lemma SourcesRemove(succ: map<Key, set<Key>>, n: Key, s: Key)
    ensures Sources(succ - {n}, s) == Sources(succ, s) - {n}
  {
  }

  ghost predicate LinkedAt(pred: map<Key, set<Key>>, pred': map<Key, set<Key>>, keys: seq<Key>, n: Key, s: Key) {
    && Out(pred', s) == Out(pred, s) + (if s in keys then {n} else {})
    && (s in pred' ==> s in pred || pred'[s] != {})
  }

  /** `pred'` is `pred` with `n` added below each of `keys`. */
  ghost predicate Linked(pred: map<Key, set<Key>>, pred': map<Key, set<Key>>, keys: seq<Key>, n: Key) {
    forall s :: LinkedAt(pred, pred', keys, n, s)
  }

  lemma LinkOne(pred: map<Key, set<Key>>, pred': map<Key, set<Key>>, keys: seq<Key>, n: Key, k: Key)
    requires Linked(pred, pred', keys, n)
    ensures Linked(pred, pred'[k := Out(pred', k) + {n}], keys + [k], n)
  {
    var next := pred'[k := Out(pred', k) + {n}];
    forall s
      ensures LinkedAt(pred, next, keys + [k], n, s)
    {
      assert LinkedAt(pred, pred', keys, n, s);
      assert s in keys + [k] <==> s in keys || s == k;
    }
  }

  /** The maps stay inverse to each other if and only if `n` keeps the successors it had. */
  lemma LinkedInverted(succ: map<Key, set<Key>>, pred: map<Key, set<Key>>, pred': map<Key, set<Key>>, keys: seq<Key>,
                       n: Key)
    requires Inverted(succ, pred) && Linked(pred, pred', keys, n)
    ensures Inverted(succ[n := SetOf(keys)], pred') <==> Out(succ, n) <= SetOf(keys)
  {
    var out := SetOf(keys);
    if s :| s in Out(succ, n) && s !in out {
      assert LinkedAt(pred, pred', keys, n, s);
      assert n in Sources(succ, s) && Sources(succ, s) == Out(pred, s);
      SourcesUpdate(succ, n, out, s);
      assert Out(pred', s) != Sources(succ[n := out], s);
    } else {
      forall s
        ensures Out(pred', s) == Sources(succ[n := out], s) && (s in pred' ==> pred'[s] != {})
      {
        assert LinkedAt(pred, pred', keys, n, s);
        assert Out(pred, s) == Sources(succ, s);
        SourcesUpdate(succ, n, out, s);
        if s in pred' && s in pred {
          assert pred[s] != {} && Out(pred', s) >= Out(pred, s);
        }
      }
    }
  }

  ghost predicate UnlinkedAt(pred: map<Key, set<Key>>, pred': map<Key, set<Key>>, done: set<Key>, n: Key, s: Key) {
    && Out(pred', s) == (if s in done then Out(pred, s) - {n} else Out(pred, s))
    && (s in pred' ==> pred'[s] != {})
  }

  /** `pred'` is `pred` with `n` taken out below each of `done`, and entries that became empty dropped. */
  ghost predicate Unlinked(pred: map<Key, set<Key>>, pred': map<Key, set<Key>>, done: set<Key>, n: Key) {
    forall s :: UnlinkedAt(pred, pred', done, n, s)
  }

  lemma UnlinkOne(pred: map<Key, set<Key>>, pred': map<Key, set<Key>>, done: set<Key>, n: Key, k: Key)
    requires Unlinked(pred, pred', done, n) && k !in done
    ensures var entry := Out(pred', k) - {n};
      Unlinked(pred, if entry == {} then pred' - {k} else pred'[k := entry], done + {k}, n)
  {
    var entry := Out(pred', k) - {n};
    var next := if entry == {} then pred' - {k} else pred'[k := entry];
    forall s
      ensures UnlinkedAt(pred, next, done + {k}, n, s)
    {
      assert UnlinkedAt(pred, pred', done, n, s);
    }
  }

  lemma UnlinkedInverted(succ: map<Key, set<Key>>, pred: map<Key, set<Key>>, pred': map<Key, set<Key>>, n: Key)
    requires Inverted(succ, pred) && Unlinked(pred, pred', Out(succ, n), n)
    ensures Inverted(succ - {n}, pred')
  {
    forall s
      ensures Out(pred', s) == Sources(succ - {n}, s) && (s in pred' ==> pred'[s] != {})
    {
      assert UnlinkedAt(pred, pred', Out(succ, n), n, s);
      assert Out(pred, s) == Sources(succ, s);
      SourcesRemove(succ, n, s);
    }
  }

  lemma SuccessorLinked(succ: map<Key, set<Key>>, pred: map<Key, set<Key>>, pred': map<Key, set<Key>>, done: set<Key>,
                        n: Key, s: Key)
    requires Inverted(succ, pred) && Unlinked(pred, pred', done, n) && s in Out(succ, n) && s !in done
    ensures s in pred' && pred'[s] == Out(pred, s) && n in pred'[s]
  {
    assert n in Sources(succ, s);
    assert UnlinkedAt(pred, pred', done, n, s);
    assert Out(pred', s) == Out(pred, s) == Sources(succ, s);
  }

  /** `s` is listed exactly if it is an indexed node among `done` whose only predecessor is `n`. */
  ghost predicate DanglingAt(ds: seq<Descriptor>, nodes: map<Key, Descriptor>, pred: map<Key, set<Key>>,
                             done: set<Key>, n: Key, s: Key)
  {
    s in SetOf(Keys(ds)) <==> s in done && s in nodes && Out(pred, s) == {n}
  }

  /** The descriptors of the indexed nodes among `done` whose only predecessor is `n`, once each. */
  ghost predicate Danglings(ds: seq<Descriptor>, nodes: map<Key, Descriptor>, pred: map<Key, set<Key>>, done: set<Key>,
                            n: Key)
  {
    && (forall i :: 0 <= i < |ds| ==> KeyOf(ds[i]) in nodes && ds[i] == nodes[KeyOf(ds[i])])
    && (forall s :: DanglingAt(ds, nodes, pred, done, n, s))
    && (forall i, j :: 0 <= i < j < |ds| ==> KeyOf(ds[i]) != KeyOf(ds[j]))
  }

  lemma AddDangling(ds: seq<Descriptor>, nodes: map<Key, Descriptor>, pred: map<Key, set<Key>>, done: set<Key>, n: Key,
                    k: Key)
    requires Danglings(ds, nodes, pred, done, n) && k !in done
    requires k in nodes && KeyOf(nodes[k]) == k && Out(pred, k) == {n}
    ensures Danglings(ds + [nodes[k]], nodes, pred, done + {k}, n)
  {
    var next := ds + [nodes[k]];
    assert Keys(next) == Keys(ds) + [k];
    assert SetOf(Keys(next)) == SetOf(Keys(ds)) + {k};
    assert DanglingAt(ds, nodes, pred, done, n, k);
    forall i | 0 <= i < |ds|
      ensures KeyOf(ds[i]) != k
    {
      assert Keys(ds)[i] in SetOf(Keys(ds));
    }
    forall s
      ensures DanglingAt(next, nodes, pred, done + {k}, n, s)
    {
      assert DanglingAt(ds, nodes, pred, done, n, s);
    }
  }

  lemma SkipDangling(ds: seq<Descriptor>, nodes: map<Key, Descriptor>, pred: map<Key, set<Key>>, done: set<Key>,
                     n: Key, k: Key)
    requires Danglings(ds, nodes, pred, done, n) && !(k in nodes && Out(pred, k) == {n})
    ensures Danglings(ds, nodes, pred, done + {k}, n)
  {
    forall s
      ensures DanglingAt(ds, nodes, pred, done + {k}, n, s)
    {
      assert DanglingAt(ds, nodes, pred, done, n, s);
    }
  }

  /** Takes `n` out of the predecessor sets of its successors, one successor after the other. */
  method Unlink(nodes: map<Key, Descriptor>, succ: map<Key, set<Key>>, pred: map<Key, set<Key>>, n: Key)
    returns (pred': map<Key, set<Key>>, danglings: seq<Descriptor>)
    requires Inverted(succ, pred) && forall k :: k in nodes ==> KeyOf(nodes[k]) == k
    ensures Unlinked(pred, pred', Out(succ, n), n)
    ensures Danglings(danglings, nodes, pred, Out(succ, n), n)
  {
    pred', danglings := pred, [];
    var done, rest := {}, Out(succ, n);
    while rest != {}
      invariant done !! rest && done + rest == Out(succ, n)
      invariant Unlinked(pred, pred', done, n) && Danglings(danglings, nodes, pred, done, n)
      decreases rest
    {
      var s :| s in rest;
      SuccessorLinked(succ, pred, pred', done, n, s);
      UnlinkOne(pred, pred', done, n, s);
      var entry := pred'[s] - {n};
      pred' := if entry == {} then pred' - {s} else pred'[s := entry];
      if entry == {} && s in nodes {
        AddDangling(danglings, nodes, pred, done, n, s);
        danglings := danglings + [nodes[s]];
      } else {
        SkipDangling(danglings, nodes, pred, done, n, s);
      }
      done, rest := done + {s}, rest - {s};
    }
  }

  class Memory {
    var nodes: map<Key, Descriptor>
    var predecessors: map<Key, set<Key>>
    var successors: map<Key, set<Key>>

    ghost predicate Valid()
      reads this
    {
      && nodes.Keys == successors.Keys
      && (forall k :: k in nodes ==> KeyOf(nodes[k]) == k)
      && Inverted(successors, predecessors)
    }

    constructor ()
      ensures Valid() && nodes == map[] && successors == map[]
    {
      nodes, predecessors, successors := map[], map[], map[];
    }

    /**
     Records `node` with the successors its content names. A node that is indexed again replaces its successors, and
     stays among the predecessors of those it had; the content of a key never changes, so none of them are lost.
     */
    method Index(node: Descriptor, children: seq<Descriptor>)
      requires Valid()
      modifies this
      ensures Valid() <==> Out(old(successors), KeyOf(node)) <= SetOf(Keys(children))
      ensures Linked(old(predecessors), predecessors, Keys(children), KeyOf(node))
      ensures nodes == old(nodes)[KeyOf(node) := node]
      ensures successors == old(successors)[KeyOf(node) := SetOf(Keys(children))]
    {
      var nodeKey := KeyOf(node);
      nodes := nodes[nodeKey := node];
      var keys := Keys(children);
      var successorSet: set<Key> := {};
      ghost var succ, pred := successors, predecessors;
      for i := 0 to |keys|
        modifies this`predecessors
        invariant successorSet == SetOf(keys[..i])
        invariant Linked(pred, predecessors, keys[..i], nodeKey)
      {
        var successorKey := keys[i];
        assert keys[..i + 1] == keys[..i] + [successorKey];
        successorSet := successorSet + {successorKey};
        var entry := if successorKey in predecessors then predecessors[successorKey] else {};
        LinkOne(pred, predecessors, keys[..i], nodeKey, successorKey);
        predecessors := predecessors[successorKey := entry + {nodeKey}];
      }
      assert keys[..|keys|] == keys;
      successors := successors[nodeKey := successorSet];
      LinkedInverted(succ, pred, predecessors, keys, nodeKey);
    }

    /** The nodes that point to `node`: each a stored descriptor, one per predecessor. */
    method Predecessors(node: Descriptor) returns (res: seq<Descriptor>)
      requires Valid()
      ensures SetOf(Keys(res)) == Out(predecessors, KeyOf(node))
      ensures forall i :: 0 <= i < |res| ==> KeyOf(res[i]) in nodes && res[i] == nodes[KeyOf(res[i])]
      ensures forall i, j :: 0 <= i < j < |res| ==> KeyOf(res[i]) != KeyOf(res[j])
    {
      res := [];
      var rest := Out(predecessors, KeyOf(node));
      while rest != {}
        invariant rest <= Out(predecessors, KeyOf(node))
        invariant SetOf(Keys(res)) == Out(predecessors, KeyOf(node)) - rest
        invariant forall i :: 0 <= i < |res| ==>
          KeyOf(res[i]) in Out(predecessors, KeyOf(node)) - rest && KeyOf(res[i]) in nodes
            && res[i] == nodes[KeyOf(res[i])]
        invariant forall i, j :: 0 <= i < j < |res| ==> KeyOf(res[i]) != KeyOf(res[j])
        decreases rest
      {
        var k :| k in rest;
        assert k in Sources(successors, KeyOf(node));
        assert Keys(res + [nodes[k]]) == Keys(res) + [k];
        assert SetOf(Keys(res) + [k]) == SetOf(Keys(res)) + {k};
        res := res + [nodes[k]];
        rest := rest - {k};
      }
    }

    /** Removes a node and returns the indexed nodes whose only predecessor it was. */
    method Remove(node: Descriptor) returns (danglings: seq<Descriptor>)
      requires Valid()
      modifies this
      ensures Valid()
      ensures nodes == old(nodes) - {KeyOf(node)}
      ensures successors == old(successors) - {KeyOf(node)}
      ensures Danglings(danglings, old(nodes), old(predecessors), old(Out(successors, KeyOf(node))), KeyOf(node))
    {
      predecessors, danglings := Unlink(nodes, successors, predecessors, KeyOf(node));
      UnlinkedInverted(successors, old(predecessors), predecessors, KeyOf(node));
      successors := successors - {KeyOf(node)};
      nodes := nodes - {KeyOf(node)};
    }
  }
}
