/** Applying referrer changes to a referrers list: the position-map algorithm against a plain list fold. */
module Referrers {
  import opened Content

  datatype Change = Add(referrer: Descriptor) | Remove(referrer: Descriptor)

  function ZeroDescriptor(): Descriptor {
    Plain(EMPTY_KEY)
  }

  predicate IsEmpty(d: Descriptor) {
    KeyOf(d) == EMPTY_KEY
  }

  function KeySet(ds: seq<Descriptor>): set<Key> {
    set d | d in ds :: KeyOf(d)
  }

  // ----- the reference: a fold over lists -----

  /** The list without its empty entries. */
  function Strip(ds: seq<Descriptor>): seq<Descriptor> {
    if ds == [] then []
    else if IsEmpty(ds[|ds| - 1]) then Strip(ds[..|ds| - 1])
    else Strip(ds[..|ds| - 1]) + [ds[|ds| - 1]]
  }

  /** The list without empty entries and later duplicates. */
  function Clean(ds: seq<Descriptor>): seq<Descriptor> {
    if ds == [] then []
    else
      var c := Clean(ds[..|ds| - 1]);
      var d := ds[|ds| - 1];
      if IsEmpty(d) || KeyOf(d) in KeySet(c) then c else c + [d]
  }

  function Without(ds: seq<Descriptor>, k: Key): seq<Descriptor> {
    if ds == [] then []
    else if KeyOf(ds[|ds| - 1]) == k then Without(ds[..|ds| - 1], k)
    else Without(ds[..|ds| - 1], k) + [ds[|ds| - 1]]
  }

  function ApplyOne(ds: seq<Descriptor>, c: Change): seq<Descriptor> {
    match c
    case Add(d) => if KeyOf(d) in KeySet(ds) then ds else ds + [d]
    case Remove(d) => Without(ds, KeyOf(d))
  }

  function ApplyAll(ds: seq<Descriptor>, cs: seq<Change>): seq<Descriptor> {
    if cs == [] then ds else ApplyOne(ApplyAll(ds, cs[..|cs| - 1]), cs[|cs| - 1])
  }

  // ----- the meaning: a fold over key sets -----

  function FoldOne(ks: set<Key>, c: Change): set<Key> {
    match c
    case Add(d) => ks + {KeyOf(d)}
    case Remove(d) => ks - {KeyOf(d)}
  }

  function FoldKeys(ks: set<Key>, cs: seq<Change>): set<Key> {
    if cs == [] then ks else FoldOne(FoldKeys(ks, cs[..|cs| - 1]), cs[|cs| - 1])
  }

  ghost predicate Distinct(ds: seq<Descriptor>) {
    forall i, j :: 0 <= i < j < |ds| ==> KeyOf(ds[i]) != KeyOf(ds[j])
  }

  /** No empty entries and no duplicates. */
  ghost predicate IsClean(ds: seq<Descriptor>) {
    Distinct(ds) && EMPTY_KEY !in KeySet(ds)
  }

  lemma KeySetAppend(ds: seq<Descriptor>, d: Descriptor)
    ensures KeySet(ds + [d]) == KeySet(ds) + {KeyOf(d)}
  {
    assert forall x :: x in ds + [d] <==> x in ds || x == d;
    assert d in ds + [d];
  }

  lemma KeySetSplit(ds: seq<Descriptor>)
    requires ds != []
    ensures KeySet(ds) == KeySet(ds[..|ds| - 1]) + {KeyOf(ds[|ds| - 1])}
  {
    assert ds == ds[..|ds| - 1] + [ds[|ds| - 1]];
    KeySetAppend(ds[..|ds| - 1], ds[|ds| - 1]);
  }

  lemma KeySetIndex(ds: seq<Descriptor>, k: Key) returns (i: nat)
    requires k in KeySet(ds)
    ensures i < |ds| && KeyOf(ds[i]) == k
  {
    var d :| d in ds && KeyOf(d) == k;
    i :| 0 <= i < |ds| && ds[i] == d;
  }

  lemma DistinctAppend(ds: seq<Descriptor>, d: Descriptor)
    ensures Distinct(ds + [d]) <==> Distinct(ds) && KeyOf(d) !in KeySet(ds)
  {
    var all := ds + [d];
    assert forall i :: 0 <= i < |ds| ==> all[i] == ds[i];
    assert all[|ds|] == d;
    if KeyOf(d) in KeySet(ds) {
      var i := KeySetIndex(ds, KeyOf(d));
      assert KeyOf(all[i]) == KeyOf(all[|ds|]);
    } else {
      assert forall i :: 0 <= i < |ds| ==> ds[i] in ds;
    }
  }

  lemma DistinctSplit(ds: seq<Descriptor>)
    requires ds != []
    ensures Distinct(ds) <==> Distinct(ds[..|ds| - 1]) && KeyOf(ds[|ds| - 1]) !in KeySet(ds[..|ds| - 1])
  {
    assert ds == ds[..|ds| - 1] + [ds[|ds| - 1]];
    DistinctAppend(ds[..|ds| - 1], ds[|ds| - 1]);
  }

  lemma {:induction false} StripFacts(ds: seq<Descriptor>)
    ensures KeySet(Strip(ds)) == KeySet(ds) - {EMPTY_KEY}
    ensures Distinct(ds) ==> Distinct(Strip(ds))
  {
    if ds != [] {
      var front, d := ds[..|ds| - 1], ds[|ds| - 1];
      StripFacts(front);
      KeySetSplit(ds);
      KeySetAppend(Strip(front), d);
      DistinctSplit(ds);
      DistinctAppend(Strip(front), d);
    }
  }

  lemma {:induction false} CleanFacts(ds: seq<Descriptor>)
    ensures Distinct(Clean(ds)) && KeySet(Clean(ds)) == KeySet(ds) - {EMPTY_KEY}
    ensures |Clean(ds)| <= |ds|
  {
    if ds != [] {
      var front, d := ds[..|ds| - 1], ds[|ds| - 1];
      CleanFacts(front);
      KeySetSplit(ds);
      KeySetAppend(Clean(front), d);
      DistinctAppend(Clean(front), d);
    }
  }

  /** Cleaning a list does nothing exactly when there is nothing to clean. */
  lemma {:induction false} CleanIdentity(ds: seq<Descriptor>)
    ensures |Clean(ds)| == |ds| <==> IsClean(ds)
    ensures IsClean(ds) ==> Clean(ds) == ds
  {
    if ds != [] {
      var front, d := ds[..|ds| - 1], ds[|ds| - 1];
      CleanFacts(front);
      CleanIdentity(front);
      CleanSplit(ds, front, d);
      assert ds == front + [d];
    }
  }

  /** A list is clean if its front is and its last entry is neither empty nor a repetition. */
  lemma CleanSplit(ds: seq<Descriptor>, front: seq<Descriptor>, d: Descriptor)
    requires ds != [] && front == ds[..|ds| - 1] && d == ds[|ds| - 1]
    ensures IsClean(ds) <==> IsClean(front) && !IsEmpty(d) && KeyOf(d) !in KeySet(front)
  {
    KeySetSplit(ds);
    DistinctSplit(ds);
  }

  lemma {:induction false} WithoutFacts(ds: seq<Descriptor>, k: Key)
    ensures KeySet(Without(ds, k)) == KeySet(ds) - {k}
    ensures Distinct(ds) ==> Distinct(Without(ds, k))
  {
    if ds != [] {
      var front, d := ds[..|ds| - 1], ds[|ds| - 1];
      WithoutFacts(front, k);
      KeySetSplit(ds);
      KeySetAppend(Without(front, k), d);
      DistinctSplit(ds);
      DistinctAppend(Without(front, k), d);
    }
  }

  /** The list fold computes the set fold and keeps lists free of duplicates. */
  lemma {:induction false} ApplyAllFacts(ds: seq<Descriptor>, cs: seq<Change>)
    ensures KeySet(ApplyAll(ds, cs)) == FoldKeys(KeySet(ds), cs)
    ensures Distinct(ds) ==> Distinct(ApplyAll(ds, cs))
  {
    if cs != [] {
      var mid := ApplyAll(ds, cs[..|cs| - 1]);
      ApplyAllFacts(ds, cs[..|cs| - 1]);
      match cs[|cs| - 1] {
        case Add(d) =>
          KeySetAppend(mid, d);
          DistinctAppend(mid, d);
        case Remove(d) => WithoutFacts(mid, KeyOf(d));
      }
    }
  }

  // ----- the algorithm -----

  lemma {:induction false} StripPrefix(ds: seq<Descriptor>, i: nat)
    requires i <= |ds|
    ensures Strip(ds[..i]) <= Strip(ds)
  {
    if i == |ds| {
      assert ds[..i] == ds;
    } else {
      var front := ds[..|ds| - 1];
      assert front[..i] == ds[..i];
      StripPrefix(front, i);
    }
  }

  /** What `RemoveEmptyDescriptors` leaves of a list: it stops as soon as as many entries are left as the hint says. */
  function Cut(ds: seq<Descriptor>, hint: int): seq<Descriptor> {
    if hint == 0 && ds != [] && IsEmpty(ds[0]) then []
    else if 0 < hint < |Strip(ds)| then Strip(ds)[..hint]
    else Strip(ds)
  }

  lemma StripFirst(ds: seq<Descriptor>)
    requires ds != []
    ensures Strip(ds[..1]) == if IsEmpty(ds[0]) then [] else [ds[0]]
  {
    assert ds[..1][..0] == [];
  }

  lemma CutHere(ds: seq<Descriptor>, i: nat, hint: int)
    requires i < |ds| && |Strip(ds[..i + 1])| == hint && (hint == 0 ==> i == 0)
    ensures Cut(ds, hint) == Strip(ds[..i + 1])
  {
    StripPrefix(ds, i + 1);
    StripFirst(ds);
  }

  lemma CutNowhere(ds: seq<Descriptor>, hint: int)
    requires (0 < hint ==> |Strip(ds)| < hint) && (hint == 0 && ds != [] ==> !IsEmpty(ds[0]))
    ensures Cut(ds, hint) == Strip(ds)
  {
  }

  /** Removes the empty entries in place. */
  method RemoveEmptyDescriptors(descs: array<Descriptor>, hint: int) returns (j: nat)
    modifies descs
    ensures j <= descs.Length
    ensures descs[..j] == Cut(old(descs[..]), hint)
  {
    ghost var before := descs[..];
    j := 0;
    for i := 0 to descs.Length
      invariant Packed(descs[..], before, i, j, Strip(before[..i]))
      invariant (0 < hint ==> j < hint) && (hint == 0 && i > 0 ==> j > 0 && !IsEmpty(before[0]))
    {
      var r := descs[i];
      ghost var a, m := descs[..], j;
      if !IsEmpty(r) {
        if i > j {
          descs[j] := r;
        }
        j := j + 1;
      }
      PackStep(a, before, i, m, Strip(before[..i]), IsEmpty(r), descs[..], j);
      if j == hint {
        CutHere(before, i, hint);
        return;
      }
      StripFirst(before);
    }
    assert before[..|before|] == before;
    CutNowhere(before, hint);
  }

  /** The recorded position of `k` holds `k`. */
  ghost predicate Recorded(u: seq<Descriptor>, pos: map<Key, nat>, k: Key) {
    k in pos ==> pos[k] < |u| && KeyOf(u[pos[k]]) == k
  }

  /** Position `i` is blank, or is the recorded one of its key. */
  ghost predicate Indexed(u: seq<Descriptor>, pos: map<Key, nat>, i: int) {
    0 <= i < |u| && !IsEmpty(u[i]) ==> KeyOf(u[i]) in pos && pos[KeyOf(u[i])] == i
  }

  ghost predicate Positions(u: seq<Descriptor>, pos: map<Key, nat>) {
    (forall k :: Recorded(u, pos, k)) && (forall i :: Indexed(u, pos, i))
  }

  lemma StripAppend(u: seq<Descriptor>, d: Descriptor)
    ensures Strip(u + [d]) == if IsEmpty(d) then Strip(u) else Strip(u) + [d]
  {
    assert (u + [d])[..|u|] == u;
  }

  lemma WithoutAppend(u: seq<Descriptor>, d: Descriptor, k: Key)
    ensures Without(u + [d], k) == if KeyOf(d) == k then Without(u, k) else Without(u, k) + [d]
  {
    assert (u + [d])[..|u|] == u;
  }

  lemma {:induction false} StripWithout(u: seq<Descriptor>, k: Key)
    ensures Strip(Without(u, k)) == Without(Strip(u), k)
  {
    if u != [] {
      var front, d := u[..|u| - 1], u[|u| - 1];
      StripWithout(front, k);
      StripAppend(Without(front, k), d);
      WithoutAppend(Strip(front), d, k);
    }
  }

  lemma {:induction false} WithoutAbsent(u: seq<Descriptor>, k: Key)
    requires forall i :: 0 <= i < |u| ==> KeyOf(u[i]) != k
    ensures Without(u, k) == u
  {
    if u != [] {
      var m := |u| - 1;
      assert u == u[..m] + [u[m]];
      WithoutAbsent(u[..m], k);
      WithoutAppend(u[..m], u[m], k);
    }
  }

  lemma {:induction false} StripBlank(u: seq<Descriptor>, p: nat)
    requires p < |u| && IsEmpty(u[p])
    ensures Strip(u[p := ZeroDescriptor()]) == Strip(u)
  {
    var m := |u| - 1;
    if p == m {
      assert u[p := ZeroDescriptor()][..m] == u[..m];
    } else {
      assert u[p := ZeroDescriptor()][..m] == u[..m][p := ZeroDescriptor()];
      StripBlank(u[..m], p);
    }
  }

  /** Blanking the last entry, the only one of its key. */
  lemma BlankLast(front: seq<Descriptor>, d: Descriptor, k: Key)
    requires KeyOf(d) == k && k != EMPTY_KEY && forall i :: 0 <= i < |front| ==> KeyOf(front[i]) != k
    ensures Strip(front + [ZeroDescriptor()]) == Without(Strip(front + [d]), k)
  {
    StripAppend(front, d);
    StripAppend(front, ZeroDescriptor());
    WithoutAppend(Strip(front), d, k);
    WithoutAbsent(front, k);
    StripWithout(front, k);
  }

  /** Blanking the one entry of a key removes the key from the stripped list. */
  lemma {:induction false} BlankStrips(u: seq<Descriptor>, p: nat, k: Key)
    requires p < |u| && KeyOf(u[p]) == k && k != EMPTY_KEY
    requires forall i :: 0 <= i < |u| && i != p ==> KeyOf(u[i]) != k
    ensures Strip(u[p := ZeroDescriptor()]) == Without(Strip(u), k)
  {
    var m := |u| - 1;
    var front, d := u[..m], u[m];
    assert u == front + [d];
    if p == m {
      assert u[p := ZeroDescriptor()] == front + [ZeroDescriptor()];
      BlankLast(front, d, k);
    } else {
      BlankStrips(front, p, k);
      assert u[p := ZeroDescriptor()] == front[p := ZeroDescriptor()] + [d];
      StripAppend(front[p := ZeroDescriptor()], d);
      StripAppend(front, d);
      WithoutAppend(Strip(front), d, k);
    }
  }

  /** Removing the empty key does not change a stripped list. */
  lemma StripWithoutEmpty(u: seq<Descriptor>)
    ensures Without(Strip(u), EMPTY_KEY) == Strip(u)
  {
    StripFacts(u);
    assert forall i :: 0 <= i < |Strip(u)| ==> Strip(u)[i] in Strip(u);
    WithoutAbsent(Strip(u), EMPTY_KEY);
  }

  lemma KeyCount(ds: seq<Descriptor>)
    requires Distinct(ds)
    ensures |KeySet(ds)| == |ds|
  {
    var keys := Keys(ds);
    forall k
      ensures k in KeySet(ds) <==> k in SetOf(keys)
    {
      if d :| d in ds && KeyOf(d) == k {
        var i :| 0 <= i < |ds| && ds[i] == d;
        assert keys[i] == k;
      }
    }
    assert KeySet(ds) == SetOf(keys);
    DistinctCount(keys);
  }

  ghost predicate Cleaning(done: seq<Descriptor>, u: seq<Descriptor>, pos: map<Key, nat>, dropped: bool) {
    u == Clean(done) && Positions(u, pos) && pos.Keys == KeySet(u) && |u| <= |done| && (dropped <==> |u| < |done|)
  }

  lemma CleanOne(done: seq<Descriptor>, u: seq<Descriptor>, pos: map<Key, nat>, dropped: bool, r: Descriptor)
    requires Cleaning(done, u, pos, dropped)
    ensures if IsEmpty(r) || KeyOf(r) in pos then Cleaning(done + [r], u, pos, true)
            else Cleaning(done + [r], u + [r], pos[KeyOf(r) := |u|], dropped)
  {
    assert (done + [r])[..|done|] == done;
    KeySetAppend(u, r);
    if !(IsEmpty(r) || KeyOf(r) in pos) {
      AddPositions(u, pos, r);
      assert pos[KeyOf(r) := |u|].Keys == pos.Keys + {KeyOf(r)};
    }
  }

  /** The first pass: drop empty entries and duplicates, and note whether there were any. */
  method CleanReferrers(referrers: seq<Descriptor>)
    returns (u: seq<Descriptor>, pos: map<Key, nat>, updateRequired: bool)
    ensures u == Clean(referrers)
    ensures Positions(u, pos) && pos.Keys == KeySet(u)
    ensures updateRequired <==> !IsClean(referrers)
  {
    u, pos, updateRequired := [], map[], false;
    for i := 0 to |referrers|
      invariant Cleaning(referrers[..i], u, pos, updateRequired)
    {
      var r := referrers[i];
      assert referrers[..i + 1] == referrers[..i] + [r];
      CleanOne(referrers[..i], u, pos, updateRequired, r);
      if IsEmpty(r) || KeyOf(r) in pos {
        updateRequired := true;
      } else {
        u := u + [r];
        pos := pos[KeyOf(r) := |u| - 1];
      }
    }
    assert referrers[..|referrers|] == referrers;
    CleanIdentity(referrers);
  }

  lemma AddPositions(u: seq<Descriptor>, pos: map<Key, nat>, d: Descriptor)
    requires Positions(u, pos) && KeyOf(d) !in pos
    ensures Positions(u + [d], pos[KeyOf(d) := |u|])
  {
    var u', pos' := u + [d], pos[KeyOf(d) := |u|];
    forall k
      ensures Recorded(u', pos', k)
    {
      assert Recorded(u, pos, k);
    }
    forall i
      ensures Indexed(u', pos', i)
    {
      assert Indexed(u, pos, i);
    }
  }

  lemma AddStrips(u: seq<Descriptor>, list: seq<Descriptor>, d: Descriptor)
    requires Strip(u) == Strip(list)
    ensures Strip(u + [d]) == Strip(list + [d])
  {
    StripAppend(list, d);
    StripAppend(u, d);
  }

  lemma RemovePositions(u: seq<Descriptor>, pos: map<Key, nat>, k: Key)
    requires Positions(u, pos) && k in pos
    ensures pos[k] < |u| && Positions(u[pos[k] := ZeroDescriptor()], pos - {k})
  {
    assert Recorded(u, pos, k);
    var u', pos' := u[pos[k] := ZeroDescriptor()], pos - {k};
    forall j
      ensures Recorded(u', pos', j)
    {
      assert Recorded(u, pos, j);
    }
    forall i
      ensures Indexed(u', pos', i)
    {
      assert Indexed(u, pos, i);
    }
  }

  lemma RemoveStrips(u: seq<Descriptor>, pos: map<Key, nat>, list: seq<Descriptor>, k: Key)
    requires Positions(u, pos) && Strip(u) == Strip(list) && k in pos
    ensures pos[k] < |u| && Strip(u[pos[k] := ZeroDescriptor()]) == Strip(Without(list, k))
  {
    assert Recorded(u, pos, k);
    StripWithout(list, k);
    if k == EMPTY_KEY {
      StripBlank(u, pos[k]);
      StripWithoutEmpty(u);
    } else {
      forall i | 0 <= i < |u| && i != pos[k]
        ensures KeyOf(u[i]) != k
      {
        assert Indexed(u, pos, i);
      }
      BlankStrips(u, pos[k], k);
    }
  }

  /** The list with blanks and its position map stand for the plain list `list`. */
  ghost predicate Tracks(u: seq<Descriptor>, pos: map<Key, nat>, list: seq<Descriptor>) {
    Positions(u, pos) && pos.Keys == KeySet(list) && Strip(u) == Strip(list)
  }

  /** One change at the recorded position. */
  method ApplyAtPosition(u: seq<Descriptor>, pos: map<Key, nat>, c: Change, ghost list: seq<Descriptor>)
    returns (u': seq<Descriptor>, pos': map<Key, nat>)
    requires Tracks(u, pos, list)
    ensures Tracks(u', pos', ApplyOne(list, c))
  {
    u', pos' := u, pos;
    var key := KeyOf(c.referrer);
    match c {
      case Add(d) =>
        if key !in pos {
          AddPositions(u, pos, d);
          AddStrips(u, list, d);
          KeySetAppend(list, d);
          u' := u + [d];
          pos' := pos[key := |u|];
        }
      case Remove(d) =>
        if key in pos {
          RemovePositions(u, pos, key);
          RemoveStrips(u, pos, list, key);
          WithoutFacts(list, key);
          u' := u[pos[key] := ZeroDescriptor()];
          pos' := pos - {key};
        } else {
          assert forall j :: 0 <= j < |list| ==> list[j] in list;
          WithoutAbsent(list, key);
        }
    }
  }

  /** The second pass: all changes, one after the other. */
  method ApplyAtPositions(u0: seq<Descriptor>, pos0: map<Key, nat>, changes: seq<Change>)
    returns (u: seq<Descriptor>, pos: map<Key, nat>)
    requires Positions(u0, pos0) && pos0.Keys == KeySet(u0)
    ensures Strip(u) == Strip(ApplyAll(u0, changes)) && pos.Keys == FoldKeys(KeySet(u0), changes)
  {
    u, pos := u0, pos0;
    for i := 0 to |changes|
      invariant Tracks(u, pos, ApplyAll(u0, changes[..i]))
    {
      assert changes[..i + 1][..i] == changes[..i];
      u, pos := ApplyAtPosition(u, pos, changes[i], ApplyAll(u0, changes[..i]));
    }
    assert changes[..|changes|] == changes;
    ApplyAllFacts(u0, changes);
  }

  /** Whether the keys of the result are still those of a clean list of referrers. */
  method SameKeys(referrers: seq<Descriptor>, pos: map<Key, nat>) returns (same: bool)
    requires IsClean(referrers)
    ensures same <==> pos.Keys == KeySet(referrers)
  {
    KeyCount(referrers);
    if |pos| != |referrers| {
      return false;
    }
    same := true;
    for i := 0 to |referrers|
      invariant same <==> forall j :: 0 <= j < i ==> KeyOf(referrers[j]) in pos
    {
      if KeyOf(referrers[i]) !in pos {
        same := false;
      }
    }
    if same {
      assert KeySet(referrers) <= pos.Keys;
      SubsetOfSameSize(KeySet(referrers), pos.Keys);
    }
    assert forall j :: 0 <= j < |referrers| ==> referrers[j] in referrers;
  }

  lemma SubsetOfSameSize<T>(a: set<T>, b: set<T>)
    requires a <= b && |a| == |b|
    ensures a == b
  {
    assert |b - a| == |b| - |a|;
  }

  /**
   `applyReferrerChanges`. No result stands for the answer that no update is needed, given exactly when the list
   is clean already and the changes leave its key set as it is. Otherwise the result is the plain fold of the
   changes over the cleaned list.
   */
  method ApplyReferrerChanges(referrers: seq<Descriptor>, changes: seq<Change>) returns (r: Option<seq<Descriptor>>)
    ensures r.None? <==> IsClean(referrers) && FoldKeys(KeySet(referrers), changes) == KeySet(referrers)
    ensures r.Some? ==> r.value == Strip(ApplyAll(Clean(referrers), changes))
  {
    var u, pos, updateRequired := CleanReferrers(referrers);
    CleanFacts(referrers);
    CleanIdentity(referrers);
    u, pos := ApplyAtPositions(u, pos, changes);
    if !updateRequired {
      var same := SameKeys(referrers, pos);
      if same {
        return None;
      }
    }
    var descs := new Descriptor[|u|](i requires 0 <= i < |u| => u[i]);
    assert descs[..] == u;
    ghost var list := ApplyAll(Clean(referrers), changes);
    ApplyAllFacts(Clean(referrers), changes);
    StripFacts(list);
    KeyCount(Strip(list));
    KeyCount(list);
    SubsetCount(KeySet(Strip(list)), pos.Keys);
    var j := RemoveEmptyDescriptors(descs, |pos|);
    return Some(descs[..j]);
  }

  lemma SubsetCount<T>(a: set<T>, b: set<T>)
    requires a <= b
    ensures |a| <= |b|
  {
    assert |b - a| == |b| - |a|;
  }

  // ----- where the entries come from -----

  predicate FirstAt(ds: seq<Descriptor>, i: nat, d: Descriptor) {
    i < |ds| && ds[i] == d && !IsEmpty(d) && forall j :: 0 <= j < i ==> KeyOf(ds[j]) != KeyOf(d)
  }

  /** Cleaning keeps the first entry of each key. */
  lemma {:induction false} CleanMembers(ds: seq<Descriptor>, d: Descriptor)
    ensures d in Clean(ds) <==> exists i: nat :: FirstAt(ds, i, d)
  {
    if ds != [] {
      var front, n := ds[..|ds| - 1], |ds| - 1;
      CleanMembers(front, d);
      CleanFacts(front);
      assert forall i: nat :: i < n ==> (FirstAt(ds, i, d) <==> FirstAt(front, i, d));
      assert KeyOf(ds[n]) in KeySet(front) <==> exists j :: 0 <= j < n && KeyOf(ds[j]) == KeyOf(ds[n]) by {
        if j :| 0 <= j < n && KeyOf(ds[j]) == KeyOf(ds[n]) {
          assert front[j] in front;
        }
      }
      assert FirstAt(ds, n, d) <==> d == ds[n] && !IsEmpty(d) && KeyOf(d) !in KeySet(front);
    }
  }

  lemma {:induction false} WithoutMembers(ds: seq<Descriptor>, k: Key, d: Descriptor)
    ensures d in Without(ds, k) <==> d in ds && KeyOf(d) != k
  {
    if ds != [] {
      WithoutMembers(ds[..|ds| - 1], k, d);
      assert ds == ds[..|ds| - 1] + [ds[|ds| - 1]];
    }
  }

  lemma {:induction false} StripMembers(ds: seq<Descriptor>, d: Descriptor)
    ensures d in Strip(ds) <==> d in ds && !IsEmpty(d)
  {
    if ds != [] {
      StripMembers(ds[..|ds| - 1], d);
      assert ds == ds[..|ds| - 1] + [ds[|ds| - 1]];
    }
  }

  /** No change from `i` on removes the key. */
  predicate NotRemoved(cs: seq<Change>, i: nat, k: Key) {
    forall j :: i <= j < |cs| && cs[j].Remove? ==> KeyOf(cs[j].referrer) != k
  }

  /** Change `i` adds `d`, whose key was not there, and no later change removes it. */
  predicate AddedAt(ks: set<Key>, cs: seq<Change>, i: nat, d: Descriptor) {
    i < |cs| && cs[i] == Add(d) && KeyOf(d) !in FoldKeys(ks, cs[..i]) && NotRemoved(cs, i + 1, KeyOf(d))
  }

  /** `d` was there and was not removed, or it was added. */
  ghost predicate Stays(ds: seq<Descriptor>, cs: seq<Change>, d: Descriptor) {
    (d in ds && NotRemoved(cs, 0, KeyOf(d))) || exists i: nat :: AddedAt(KeySet(ds), cs, i, d)
  }

  lemma AddedBefore(ks: set<Key>, cs: seq<Change>, i: nat, d: Descriptor)
    requires i < |cs| - 1
    ensures var n := |cs| - 1;
      AddedAt(ks, cs, i, d) <==> AddedAt(ks, cs[..n], i, d) && !(cs[n].Remove? && KeyOf(cs[n].referrer) == KeyOf(d))
  {
    assert cs[..|cs| - 1][..i] == cs[..i];
  }

  predicate Removes(c: Change, d: Descriptor) {
    c.Remove? && KeyOf(c.referrer) == KeyOf(d)
  }

  /** What the last change does to what stays. */
  lemma StaysStep(ds: seq<Descriptor>, cs: seq<Change>, d: Descriptor)
    requires cs != []
    ensures var n := |cs| - 1;
      Stays(ds, cs, d) <==>
        (Stays(ds, cs[..n], d) && !Removes(cs[n], d)) || (cs[n] == Add(d) && KeyOf(d) !in FoldKeys(KeySet(ds), cs[..n]))
  {
    var n, ks := |cs| - 1, KeySet(ds);
    var front := cs[..n];
    forall i: nat | i < n
      ensures AddedAt(ks, cs, i, d) <==> AddedAt(ks, front, i, d) && !Removes(cs[n], d)
    {
      AddedBefore(ks, cs, i, d);
    }
    assert NotRemoved(cs, 0, KeyOf(d)) <==> NotRemoved(front, 0, KeyOf(d)) && !Removes(cs[n], d);
    assert AddedAt(ks, cs, n, d) <==> cs[n] == Add(d) && KeyOf(d) !in FoldKeys(ks, front);
    if i: nat :| AddedAt(ks, front, i, d) && !Removes(cs[n], d) {
      assert AddedAt(ks, cs, i, d);
    }
  }

  lemma ApplyOneMembers(ds: seq<Descriptor>, c: Change, d: Descriptor)
    ensures d in ApplyOne(ds, c) <==> (d in ds && !Removes(c, d)) || (c == Add(d) && KeyOf(d) !in KeySet(ds))
  {
    if c.Remove? {
      WithoutMembers(ds, KeyOf(c.referrer), d);
    }
  }

  lemma {:induction false} ApplyAllMembers(ds: seq<Descriptor>, cs: seq<Change>, d: Descriptor)
    ensures d in ApplyAll(ds, cs) <==> Stays(ds, cs, d)
  {
    if cs != [] {
      var front := cs[..|cs| - 1];
      ApplyAllMembers(ds, front, d);
      ApplyAllFacts(ds, front);
      ApplyOneMembers(ApplyAll(ds, front), cs[|cs| - 1], d);
      StaysStep(ds, cs, d);
    }
  }

  /**
   The entries of an updated list, as whole descriptors: the first of each key that was listed, unless it is removed,
   and what a change adds whose key is not there at that time, unless it is removed later.
   */
  lemma UpdatedMembers(referrers: seq<Descriptor>, changes: seq<Change>, d: Descriptor)
    requires Updated(referrers, changes).Some?
    ensures d in Updated(referrers, changes).value <==>
      !IsEmpty(d) &&
      (|| ((exists i: nat :: FirstAt(referrers, i, d)) && NotRemoved(changes, 0, KeyOf(d)))
       || (exists i: nat :: AddedAt(KeySet(referrers) - {EMPTY_KEY}, changes, i, d)))
  {
    var clean := Clean(referrers);
    CleanFacts(referrers);
    CleanMembers(referrers, d);
    StripMembers(ApplyAll(clean, changes), d);
    ApplyAllMembers(clean, changes, d);
  }

  // ----- what an update means -----

  /** The result of a list with changes, as a function. */
  ghost function Updated(referrers: seq<Descriptor>, changes: seq<Change>): Option<seq<Descriptor>> {
    if IsClean(referrers) && FoldKeys(KeySet(referrers), changes) == KeySet(referrers) then None
    else Some(Strip(ApplyAll(Clean(referrers), changes)))
  }

  /** No change adds the empty descriptor. */
  ghost predicate Proper(changes: seq<Change>) {
    forall i :: 0 <= i < |changes| && changes[i].Add? ==> !IsEmpty(changes[i].referrer)
  }

  lemma {:induction false} FoldProper(ks: set<Key>, cs: seq<Change>)
    requires Proper(cs)
    ensures EMPTY_KEY !in ks ==> EMPTY_KEY !in FoldKeys(ks, cs)
  {
    if cs != [] {
      assert Proper(cs[..|cs| - 1]);
      FoldProper(ks, cs[..|cs| - 1]);
    }
  }

  lemma FoldOneIgnoresEmpty(a: set<Key>, b: set<Key>, c: Change)
    requires a - {EMPTY_KEY} == b - {EMPTY_KEY}
    ensures FoldOne(a, c) - {EMPTY_KEY} == FoldOne(b, c) - {EMPTY_KEY}
  {
    var r, t := FoldOne(a, c) - {EMPTY_KEY}, FoldOne(b, c) - {EMPTY_KEY};
    forall k
      ensures k in r <==> k in t
    {
      assert k in a - {EMPTY_KEY} <==> k in b - {EMPTY_KEY};
    }
  }

  /** The empty key does not influence the others. */
  lemma {:induction false} FoldIgnoresEmpty(ks: set<Key>, cs: seq<Change>)
    ensures FoldKeys(ks - {EMPTY_KEY}, cs) - {EMPTY_KEY} == FoldKeys(ks, cs) - {EMPTY_KEY}
  {
    if cs != [] {
      FoldIgnoresEmpty(ks, cs[..|cs| - 1]);
      FoldOneIgnoresEmpty(FoldKeys(ks - {EMPTY_KEY}, cs[..|cs| - 1]), FoldKeys(ks, cs[..|cs| - 1]), cs[|cs| - 1]);
    }
  }

  lemma {:induction false} FoldConcat(ks: set<Key>, cs: seq<Change>, ds: seq<Change>)
    ensures FoldKeys(ks, cs + ds) == FoldKeys(FoldKeys(ks, cs), ds)
  {
    if ds == [] {
      assert cs + ds == cs;
    } else {
      assert (cs + ds)[..|cs + ds| - 1] == cs + ds[..|ds| - 1];
      FoldConcat(ks, cs, ds[..|ds| - 1]);
    }
  }

  /** The updated list is clean, and its keys are the set fold of the changes over the old keys. */
  lemma UpdatedMeaning(referrers: seq<Descriptor>, changes: seq<Change>)
    ensures var r := Updated(referrers, changes);
      var list := if r.Some? then r.value else referrers;
      && IsClean(list)
      && KeySet(list) == FoldKeys(KeySet(referrers), changes) - {EMPTY_KEY}
  {
    CleanFacts(referrers);
    ApplyAllFacts(Clean(referrers), changes);
    StripFacts(ApplyAll(Clean(referrers), changes));
    FoldIgnoresEmpty(KeySet(referrers), changes);
  }

  /** With proper changes an updated list differs from the old one, so the new index is not the old index. */
  lemma UpdateIsNew(referrers: seq<Descriptor>, changes: seq<Change>)
    requires Proper(changes) && Updated(referrers, changes).Some?
    ensures Updated(referrers, changes).value != referrers
  {
    UpdatedMeaning(referrers, changes);
    if IsClean(referrers) {
      FoldProper(KeySet(referrers), changes);
    }
  }

  /** The last change of the empty key adds it. */
  ghost predicate EndsWithEmpty(changes: seq<Change>) {
    exists i :: EmptyAddedAt(changes, i) && forall j :: i < j < |changes| ==> !IsEmpty(changes[j].referrer)
  }

  ghost predicate EmptyAddedAt(changes: seq<Change>, i: int) {
    0 <= i < |changes| && changes[i].Add? && IsEmpty(changes[i].referrer)
  }

  lemma {:induction false} FoldEmpty(ks: set<Key>, cs: seq<Change>)
    requires EMPTY_KEY !in ks
    ensures EMPTY_KEY in FoldKeys(ks, cs) <==> EndsWithEmpty(cs)
  {
    if cs != [] {
      var front, n := cs[..|cs| - 1], |cs| - 1;
      FoldEmpty(ks, front);
      if IsEmpty(cs[n].referrer) {
        assert cs[n].Add? ==> EmptyAddedAt(cs, n);
      } else {
        assert forall i :: 0 <= i < n ==> (EmptyAddedAt(cs, i) <==> EmptyAddedAt(front, i)) && cs[i] == front[i];
      }
    }
  }

  /**
   An update of a clean list leaves its key set as it was if and only if the changes leave all other keys alone and the
   last change of the empty key adds it.
   */
  lemma UpdateRepeatsKeys(referrers: seq<Descriptor>, changes: seq<Change>)
    requires IsClean(referrers) && Updated(referrers, changes).Some?
    ensures KeySet(Updated(referrers, changes).value) == KeySet(referrers) <==>
      FoldKeys(KeySet(referrers), changes) - {EMPTY_KEY} == KeySet(referrers) && EndsWithEmpty(changes)
  {
    UpdatedMeaning(referrers, changes);
    FoldEmpty(KeySet(referrers), changes);
    assert EMPTY_KEY !in FoldKeys(KeySet(referrers), changes) ==>
      FoldKeys(KeySet(referrers), changes) - {EMPTY_KEY} == FoldKeys(KeySet(referrers), changes);
  }

  /** Adding the empty descriptor makes the update return the very list it started from. */
  lemma EmptyAddRepeatsList(d: Descriptor)
    requires !IsEmpty(d)
    ensures Updated([d], [Add(ZeroDescriptor())]) == Some([d])
  {
    var changes := [Add(ZeroDescriptor())];
    assert changes[..0] == [];
    assert KeySet([d]) == {KeyOf(d)};
    assert EMPTY_KEY in FoldKeys(KeySet([d]), changes);
    CleanIdentity([d]);
    assert ApplyAll([d], changes) == ApplyOne([d], changes[0]) == [d] + [ZeroDescriptor()];
    StripAppend([d], ZeroDescriptor());
    assert [d] == [] + [d];
    StripAppend([], d);
  }
}
