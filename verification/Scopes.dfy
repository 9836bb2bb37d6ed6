/** Access scopes and their canonical form. */
module Scopes {
  import opened Content
  import opened Strings

  // ----- what a list of scopes grants -----

  /** A scope `type:name:actions`; the name may contain colons. */
  predicate WellFormed(scope: string) {
    ':' in scope && ':' in scope[First(scope, ':') + 1..]
  }

  function TypeOf(scope: string): string
    requires WellFormed(scope)
  {
    scope[..First(scope, ':')]
  }

  function Rest(scope: string): string
    requires WellFormed(scope)
  {
    scope[First(scope, ':') + 1..]
  }

  function NameOf(scope: string): string
    requires WellFormed(scope)
  {
    Rest(scope)[..Last(Rest(scope), ':')]
  }

  function ActionsText(scope: string): string
    requires WellFormed(scope)
  {
    Rest(scope)[Last(Rest(scope), ':') + 1..]
  }

  datatype Resource = Resource(kind: string, name: string)

  function ResourceOf(scope: string): Resource
    requires WellFormed(scope)
  {
    Resource(TypeOf(scope), NameOf(scope))
  }

  function ActionsOf(scope: string): set<string>
    requires WellFormed(scope)
  {
    SetOf(Split(ActionsText(scope), ',')) - {""}
  }

  predicate AllWellFormed(scopes: seq<string>) {
    forall scope :: scope in scopes ==> WellFormed(scope)
  }

  /** The scopes that have this form, and the others, each in their order. */
  function Good(scopes: seq<string>): (r: seq<string>)
    ensures AllWellFormed(r)
  {
    if scopes == [] then []
    else
      var front, scope := Good(scopes[..|scopes| - 1]), scopes[|scopes| - 1];
      if WellFormed(scope) then front + [scope] else front
  }

  function Bad(scopes: seq<string>): seq<string> {
    if scopes == [] then []
    else
      var front, scope := Bad(scopes[..|scopes| - 1]), scopes[|scopes| - 1];
      if WellFormed(scope) then front else front + [scope]
  }

  lemma {:induction false} AllGood(scopes: seq<string>)
    requires AllWellFormed(scopes)
    ensures Good(scopes) == scopes && Bad(scopes) == []
  {
    if scopes != [] {
      assert scopes == scopes[..|scopes| - 1] + [scopes[|scopes| - 1]];
      AllGood(scopes[..|scopes| - 1]);
    }
  }

  /** The actions a list of scopes names for a resource. */
  function Named(scopes: seq<string>, r: Resource): set<string>
    requires AllWellFormed(scopes)
  {
    set scope, action | scope in scopes && ResourceOf(scope) == r && action in ActionsOf(scope) :: action
  }

  /** The wildcard absorbs the other actions. */
  function Absorb(actions: set<string>): set<string> {
    if "*" in actions then {"*"} else actions
  }

  /** What a list of scopes grants on a resource. */
  function Granted(scopes: seq<string>, r: Resource): set<string>
    requires AllWellFormed(scopes)
  {
    Absorb(Named(scopes, r))
  }

  // ----- the canonical form -----

  ghost function Rendered(r: Resource, actions: set<string>): string {
    r.kind + ":" + (r.name + ":" + Join(SortedOf(actions), ','))
  }

  function Resources(scopes: seq<string>): set<Resource>
    requires AllWellFormed(scopes)
  {
    set scope | scope in scopes :: ResourceOf(scope)
  }

  ghost function CleanSet(scopes: seq<string>): set<string>
    requires AllWellFormed(scopes)
  {
    set r | r in Resources(scopes) && Granted(scopes, r) != {} :: Rendered(r, Granted(scopes, r))
  }

  /** One scope per resource with a grant, its actions sorted, all scopes sorted. */
  ghost function Clean(scopes: seq<string>): seq<string>
    requires AllWellFormed(scopes)
  {
    SortedOf(CleanSet(scopes))
  }

  // ----- parsing what was rendered -----

  /** Actions as they come out of a scope: not empty, without comma or colon. */
  predicate Plain(actions: set<string>) {
    forall a :: a in actions ==> a != "" && ',' !in a && ':' !in a
  }

  lemma ActionsPlain(scope: string)
    requires WellFormed(scope)
    ensures Plain(ActionsOf(scope)) && ':' !in TypeOf(scope)
  {
    forall a | a in ActionsOf(scope)
      ensures ',' !in a && ':' !in a
    {
      SplitPart(ActionsText(scope), ',', a, ':');
    }
  }

  lemma NamedPlain(scopes: seq<string>, r: Resource)
    requires AllWellFormed(scopes)
    ensures Plain(Named(scopes, r)) && Plain(Granted(scopes, r))
  {
    forall a | a in Named(scopes, r)
      ensures a != "" && ',' !in a && ':' !in a
    {
      var scope :| scope in scopes && ResourceOf(scope) == r && a in ActionsOf(scope);
      ActionsPlain(scope);
    }
  }

  lemma ParseParts(kind: string, name: string, text: string, rest: string, scope: string)
    requires ':' !in kind && ':' !in text && rest == name + [':'] + text && scope == kind + [':'] + rest
    ensures WellFormed(scope) && ResourceOf(scope) == Resource(kind, name) && ActionsText(scope) == text
  {
    FirstAfter(kind, ':', rest, scope);
    LastBefore(name, ':', text, rest);
  }

  /** A rendered scope parses to its resource and its actions. */
  lemma ParseRendered(r: Resource, actions: set<string>)
    requires ':' !in r.kind && Plain(actions) && actions != {}
    ensures var scope := Rendered(r, actions);
      WellFormed(scope) && ResourceOf(scope) == r && ActionsOf(scope) == actions
  {
    var l := SortedOf(actions);
    ListPlain(l, actions);
    var rest := r.name + ":" + Join(l, ',');
    ParseParts(r.kind, r.name, Join(l, ','), rest, Rendered(r, actions));
    assert SetOf(l) - {""} == actions;
  }

  lemma ListPlain(l: seq<string>, actions: set<string>)
    requires SetOf(l) == actions && Plain(actions) && actions != {}
    ensures ':' !in Join(l, ',') && Split(Join(l, ','), ',') == l
  {
    forall x | x in l
      ensures ':' !in x && ',' !in x
    {
      assert x in SetOf(l);
    }
    JoinWithout(l, ',', ':');
    assert l != [];
    SplitJoin(l, ',');
  }

  /** Each scope of the canonical form is the rendering of a resource with what is granted on it. */
  lemma CleanMember(scopes: seq<string>, scope: string)
    requires AllWellFormed(scopes) && scope in Clean(scopes)
    ensures WellFormed(scope) && var r := ResourceOf(scope);
      r in Resources(scopes) && Granted(scopes, r) != {} && ActionsOf(scope) == Granted(scopes, r)
        && scope == Rendered(r, Granted(scopes, r))
  {
    assert scope in SetOf(Clean(scopes));
    var r :| r in Resources(scopes) && Granted(scopes, r) != {} && scope == Rendered(r, Granted(scopes, r));
    var from :| from in scopes && ResourceOf(from) == r;
    ActionsPlain(from);
    NamedPlain(scopes, r);
    ParseRendered(r, Granted(scopes, r));
  }

  lemma CleanWellFormed(scopes: seq<string>)
    requires AllWellFormed(scopes)
    ensures AllWellFormed(Clean(scopes))
  {
    forall scope | scope in Clean(scopes)
      ensures WellFormed(scope)
    {
      CleanMember(scopes, scope);
    }
  }

  /** A resource with a grant is named by some scope. */
  lemma GrantedIsNamed(scopes: seq<string>, r: Resource)
    requires AllWellFormed(scopes) && Granted(scopes, r) != {}
    ensures r in Resources(scopes) && ':' !in r.kind
  {
    var a :| a in Named(scopes, r);
    var scope :| scope in scopes && ResourceOf(scope) == r && a in ActionsOf(scope);
    ActionsPlain(scope);
  }

  /** Canonicalisation keeps what is granted on every resource. */
  lemma CleanKeepsGrants(scopes: seq<string>, r: Resource)
    requires AllWellFormed(scopes)
    ensures AllWellFormed(Clean(scopes)) && Granted(Clean(scopes), r) == Granted(scopes, r)
  {
    CleanWellFormed(scopes);
    var clean, granted := Clean(scopes), Granted(scopes, r);
    forall a
      ensures a in Named(clean, r) <==> a in granted
    {
      if a in Named(clean, r) {
        var scope :| scope in clean && ResourceOf(scope) == r && a in ActionsOf(scope);
        CleanMember(scopes, scope);
      }
      if a in granted {
        GrantedIsNamed(scopes, r);
        NamedPlain(scopes, r);
        ParseRendered(r, granted);
        assert Rendered(r, granted) in SetOf(clean);
      }
    }
    assert Named(clean, r) == granted;
  }

  ghost predicate SameGrants(a: seq<string>, b: seq<string>)
    requires AllWellFormed(a) && AllWellFormed(b)
  {
    forall r :: Granted(a, r) == Granted(b, r)
  }

  lemma CleanSetIncluded(a: seq<string>, b: seq<string>)
    requires AllWellFormed(a) && AllWellFormed(b) && SameGrants(a, b)
    ensures CleanSet(a) <= CleanSet(b)
  {
    forall scope | scope in CleanSet(a)
      ensures scope in CleanSet(b)
    {
      var r :| r in Resources(a) && Granted(a, r) != {} && scope == Rendered(r, Granted(a, r));
      assert Granted(a, r) == Granted(b, r);
      GrantedIsNamed(b, r);
    }
  }

  /** Two lists have the same canonical form if and only if they grant the same. */
  lemma CanonicalForm(a: seq<string>, b: seq<string>)
    requires AllWellFormed(a) && AllWellFormed(b)
    ensures Clean(a) == Clean(b) <==> SameGrants(a, b)
  {
    if SameGrants(a, b) {
      CleanSetIncluded(a, b);
      CleanSetIncluded(b, a);
      assert CleanSet(a) == CleanSet(b);
    }
    if Clean(a) == Clean(b) {
      forall r
        ensures Granted(a, r) == Granted(b, r)
      {
        CleanKeepsGrants(a, r);
        CleanKeepsGrants(b, r);
      }
    }
  }

  lemma CleanIdempotent(scopes: seq<string>)
    requires AllWellFormed(scopes)
    ensures AllWellFormed(Clean(scopes)) && Clean(Clean(scopes)) == Clean(scopes)
  {
    CleanWellFormed(scopes);
    forall r
      ensures Granted(Clean(scopes), r) == Granted(scopes, r)
    {
      CleanKeepsGrants(scopes, r);
    }
    CanonicalForm(Clean(scopes), scopes);
  }

  // ----- cleaning the actions of one scope, in place -----

  lemma SortedSingle(x: string)
    ensures SortedOf({x}) == [x]
  {
    SortedUnique(SortedOf({x}), [x]);
  }

  lemma SortedEmpty(s: set<string>)
    ensures SortedOf(s) == [] <==> s == {}
  {
    if s == {} {
      SortedUnique([], SortedOf(s));
    }
  }

  /** `n` is the last place written while the first `i` of the sorted actions `s` have been compacted. */
  ghost predicate Compacted(a: seq<string>, s: seq<string>, i: nat, n: nat) {
    && |a| == |s| && n < |a| && (i == 0 ==> n == 0) && (i > 0 ==> n < i <= |a|)
    && a[i..] == s[i..]
    && (i > 0 ==> StrictlySorted(a[..n + 1]) && SetOf(a[..n + 1]) == SetOf(s[..i]) && a[n] == s[i - 1])
    && "*" !in s[..i]
  }

  lemma CompactStep(a: seq<string>, s: seq<string>, i: nat, n: nat, a': seq<string>, n': nat)
    requires Sorted(s) && i < |s| && Compacted(a, s, i, n) && a[i] != "*"
    requires if a[i] != a[n] then n' == n + 1 && a' == a[n + 1 := a[i]] else n' == n && a' == a
    ensures Compacted(a', s, i + 1, n')
  {
    assert a[i..][0] == s[i..][0];
    assert s[..i + 1] == s[..i] + [s[i]];
    assert a'[i + 1..] == a[i..][1..] == s[i..][1..] == s[i + 1..];
    if i == 0 {
      assert a'[..1] == [s[0]];
    } else if a[i] != a[n] {
      assert a'[..n + 2] == a[..n + 1] + [s[i]];
      assert s[i - 1] == s[i] || Less(s[i - 1], s[i]);
      forall j | 0 <= j < n + 1
        ensures Less(a[j], s[i])
      {
        if j < n {
          assert Less(a[..n + 1][j], a[..n + 1][n]);
          LessTransitive(a[j], a[n], s[i]);
        }
      }
      assert StrictlySorted(a[..n + 1] + [s[i]]) by {
        assert forall j :: 0 <= j < n + 1 ==> a[..n + 1][j] == a[j];
      }
      assert SetOf(a'[..n' + 1]) == SetOf(a[..n + 1]) + {s[i]};
      assert SetOf(s[..i + 1]) == SetOf(s[..i]) + {s[i]};
    }
  }

  /** Sorts the actions, drops repetitions and the empty one, and lets the wildcard absorb the others. */
  method CleanActions(actions: array<string>) returns (r: seq<string>)
    modifies actions
    ensures r == SortedOf(Absorb(SetOf(old(actions[..])) - {""}))
  {
    ghost var all := SetOf(actions[..]);
    if actions.Length == 0 {
      SortedEmpty(Absorb(all - {""}));
      return [];
    } else if actions.Length == 1 {
      assert actions[..] == [actions[0]] && all == {actions[0]};
      r := if actions[0] == "" then [] else [actions[0]];
      SortedUnique(r, SortedOf(Absorb(all - {""})));
      return;
    }
    var s := Sort(actions[..]);
    SameMembers(s, actions[..]);
    forall i | 0 <= i < actions.Length {
      actions[i] := s[i];
    }
    assert actions[..] == s;
    var n := 0;
    for i := 0 to actions.Length
      invariant Compacted(actions[..], s, i, n)
    {
      if actions[i] == "*" {
        assert s[i] in SetOf(s);
        SortedSingle("*");
        return ["*"];
      }
      ghost var before, m := actions[..], n;
      if actions[i] != actions[n] {
        n := n + 1;
        actions[n] := actions[i];
      }
      CompactStep(before, s, i, m, actions[..], n);
    }
    assert s[..|s|] == s;
    r := DropEmpty(actions[..n + 1]);
    assert "*" !in SetOf(s);
  }

  /** The empty action, if there is one, is the first of the sorted actions. */
  method DropEmpty(l: seq<string>) returns (r: seq<string>)
    requires StrictlySorted(l) && l != []
    ensures r == SortedOf(SetOf(l) - {""})
  {
    r := if l[0] == "" then l[1..] else l;
    NotInTail(l);
    assert SetOf(l) == {l[0]} + SetOf(l[1..]);
    if l[0] != "" {
      forall i | 0 <= i < |l|
        ensures l[i] != ""
      {
        assert i > 0 ==> Less(l[0], l[i]);
      }
    }
    SortedUnique(r, SortedOf(SetOf(l) - {""}));
  }

  // ----- cleaning a list of scopes -----

  type Merged = map<Resource, set<string>>

  function At(merged: Merged, r: Resource): set<string> {
    if r in merged then merged[r] else {}
  }

  /** The map holds parsed scopes: types without colon, plain actions. */
  ghost predicate Parsed(merged: Merged) {
    forall r :: r in merged ==> ':' !in r.kind && Plain(merged[r])
  }

  /** The map holds what the scopes name. */
  ghost predicate Collected(merged: Merged, scopes: seq<string>)
    requires AllWellFormed(scopes)
  {
    forall r {:trigger At(merged, r)} :: At(merged, r) == Named(scopes, r)
  }

  lemma NamedAppend(scopes: seq<string>, scope: string, r: Resource)
    requires AllWellFormed(scopes) && WellFormed(scope)
    ensures AllWellFormed(scopes + [scope])
    ensures Named(scopes + [scope], r) == Named(scopes, r) + if ResourceOf(scope) == r then ActionsOf(scope) else {}
  {
    var all := scopes + [scope];
    assert forall x :: x in all <==> x in scopes || x == scope;
  }

  lemma Collect(merged: Merged, scopes: seq<string>, scope: string, merged': Merged)
    requires AllWellFormed(scopes) && WellFormed(scope) && Collected(merged, scopes)
    requires merged' == merged[ResourceOf(scope) := At(merged, ResourceOf(scope)) + ActionsOf(scope)]
      || (merged' == merged && ActionsOf(scope) == {})
    ensures AllWellFormed(scopes + [scope]) && Collected(merged', scopes + [scope])
  {
    forall r
      ensures AllWellFormed(scopes + [scope]) && At(merged', r) == Named(scopes + [scope], r)
    {
      NamedAppend(scopes, scope, r);
      assert At(merged, r) == Named(scopes, r);
    }
  }

  /** An empty action text names no action. */
  lemma NoActions(scope: string)
    requires WellFormed(scope) && ActionsText(scope) == ""
    ensures ActionsOf(scope) == {}
  {
    assert Split("", ',') == [""];
  }

  ghost predicate Merging(scopes: seq<string>, i: nat, raw: seq<string>, merged: Merged) {
    i <= |scopes| && Parsed(merged) && raw == Bad(scopes[..i]) && Collected(merged, Good(scopes[..i]))
  }

  lemma MergeStep(scopes: seq<string>, i: nat, raw: seq<string>, merged: Merged, merged': Merged)
    requires Merging(scopes, i, raw, merged) && i < |scopes|
    requires var scope := scopes[i];
      if !WellFormed(scope) then merged' == merged
      else if ActionsText(scope) == "" then merged' == merged
      else merged' == merged[ResourceOf(scope) := At(merged, ResourceOf(scope)) + ActionsOf(scope)]
    ensures Merging(scopes, i + 1, if WellFormed(scopes[i]) then raw else raw + [scopes[i]], merged')
  {
    var scope := scopes[i];
    assert scopes[..i + 1][..i] == scopes[..i];
    if WellFormed(scope) {
      ActionsPlain(scope);
      if ActionsText(scope) == "" {
        NoActions(scope);
      }
      Collect(merged, Good(scopes[..i]), scope, merged');
    }
  }

  /** The first loop: recognised scopes are merged by resource, the others are kept as they are. */
  method Merge(scopes: seq<string>) returns (raw: seq<string>, merged: Merged)
    ensures Parsed(merged) && raw == Bad(scopes) && Collected(merged, Good(scopes))
  {
    raw, merged := [], map[];
    for i := 0 to |scopes|
      invariant Merging(scopes, i, raw, merged)
    {
      var scope := scopes[i];
      if !WellFormed(scope) {
        MergeStep(scopes, i, raw, merged, merged);
        raw := raw + [scope];
        continue;
      }
      ghost var before := merged;
      if ActionsText(scope) != "" {
        merged := merged[ResourceOf(scope) := At(merged, ResourceOf(scope)) + ActionsOf(scope)];
      }
      MergeStep(scopes, i, raw, before, merged);
    }
    assert scopes[..|scopes|] == scopes;
  }

  /** The actions of a set as a list, cut short by the wildcard. */
  method ListActions(actions: set<string>) returns (l: seq<string>)
    ensures l == SortedOf(Absorb(actions))
  {
    l := [];
    var rest := actions;
    while rest != {}
      invariant rest <= actions && NoRepeats(l) && SetOf(l) == actions - rest && "*" !in l
      decreases rest
    {
      var action :| action in rest;
      if action == "*" {
        SortedSingle("*");
        return ["*"];
      }
      assert forall i :: 0 <= i < |l| ==> l[i] in SetOf(l);
      assert SetOf(l + [action]) == SetOf(l) + {action};
      l := l + [action];
      rest := rest - {action};
    }
    assert SetOf(l) == actions && "*" !in SetOf(l);
    var sorted := Sort(l);
    SortedDistinct(l, sorted);
    l := sorted;
  }

  ghost function RenderedSet(merged: Merged, done: set<Resource>): set<string> {
    set r | r in done && At(merged, r) != {} :: Rendered(r, Absorb(At(merged, r)))
  }

  lemma RenderedMore(merged: Merged, done: set<Resource>, r: Resource)
    requires r in merged
    ensures RenderedSet(merged, {}) == {}
    ensures RenderedSet(merged, done + {r}) ==
      RenderedSet(merged, done) + if merged[r] == {} then {} else {Rendered(r, Absorb(merged[r]))}
  {
  }

  /** Different resources are rendered differently. */
  lemma RenderedApart(merged: Merged, done: set<Resource>, r: Resource)
    requires Parsed(merged) && r in merged && merged[r] != {} && r !in done && done <= merged.Keys
    ensures Rendered(r, Absorb(merged[r])) !in RenderedSet(merged, done)
  {
    ParseRendered(r, Absorb(merged[r]));
    forall q | q in done && At(merged, q) != {}
      ensures Rendered(q, Absorb(merged[q])) != Rendered(r, Absorb(merged[r]))
    {
      ParseRendered(q, Absorb(merged[q]));
    }
  }

  /** The second loop: one scope for each resource with an action. */
  method Render(merged: Merged) returns (l: seq<string>)
    requires Parsed(merged)
    ensures NoRepeats(l) && SetOf(l) == RenderedSet(merged, merged.Keys)
  {
    l := [];
    var rest, done := merged.Keys, {};
    while rest != {}
      invariant done !! rest && done + rest == merged.Keys
      invariant NoRepeats(l) && SetOf(l) == RenderedSet(merged, done)
      decreases rest
    {
      var r :| r in rest;
      if merged[r] != {} {
        var actions := ListActions(merged[r]);
        var scope := r.kind + ":" + (r.name + ":" + Join(actions, ','));
        RenderedApart(merged, done, r);
        assert forall i :: 0 <= i < |l| ==> l[i] in SetOf(l);
        assert SetOf(l + [scope]) == SetOf(l) + {scope};
        l := l + [scope];
      }
      RenderedMore(merged, done, r);
      rest, done := rest - {r}, done + {r};
    }
  }

  lemma RenderedIsClean(scopes: seq<string>, merged: Merged)
    requires AllWellFormed(scopes) && Collected(merged, scopes)
    ensures RenderedSet(merged, merged.Keys) == CleanSet(scopes)
  {
    forall r
      ensures (r in merged && At(merged, r) != {}) <==> (r in Resources(scopes) && Granted(scopes, r) != {})
      ensures Absorb(At(merged, r)) == Granted(scopes, r)
    {
      assert At(merged, r) == Named(scopes, r);
      if Granted(scopes, r) != {} {
        GrantedIsNamed(scopes, r);
      }
    }
  }

  lemma CutAtLast(kind: string, name: string, text: string, rest: string, scope: string)
    requires ':' !in text && rest == name + [':'] + text && scope == kind + [':'] + rest
    ensures ':' in scope && scope[Last(scope, ':') + 1..] == text
    ensures scope[..Last(scope, ':') + 1] == kind + [':'] + (name + [':'])
  {
    var front := kind + [':'] + name;
    assert scope == front + [':'] + text;
    LastBefore(front, ':', text, scope);
  }

  /** The last colon of a scope is the one before its actions. */
  lemma LastOfRest(scope: string)
    requires WellFormed(scope)
    ensures scope[Last(scope, ':') + 1..] == ActionsText(scope)
    ensures scope[..Last(scope, ':') + 1] == TypeOf(scope) + [':'] + (NameOf(scope) + [':'])
  {
    Cut(scope, First(scope, ':'));
    var rest := Rest(scope);
    Cut(rest, Last(rest, ':'));
    CutAtLast(TypeOf(scope), NameOf(scope), ActionsText(scope), rest, scope);
  }

  lemma SingleSet(one: seq<string>, scope: string, r: Resource, granted: set<string>)
    requires WellFormed(scope) && one == [scope] && r == ResourceOf(scope) && granted == Absorb(ActionsOf(scope))
    ensures CleanSet(one) == if granted == {} then {} else {Rendered(r, granted)}
  {
    var merged := map[r := ActionsOf(scope)];
    forall q
      ensures At(merged, q) == Named(one, q)
    {
      NamedAppend([], scope, q);
    }
    RenderedIsClean(one, merged);
    assert merged.Keys == {} + {r};
    RenderedMore(merged, {}, r);
  }

  lemma CleanSingle(one: seq<string>, scope: string, r: Resource, granted: set<string>)
    requires WellFormed(scope) && one == [scope] && r == ResourceOf(scope) && granted == Absorb(ActionsOf(scope))
    ensures Clean(one) == if granted == {} then [] else [Rendered(r, granted)]
  {
    SingleSet(one, scope, r, granted);
    var line := Rendered(r, granted);
    SortedEmpty({});
    SortedSingle(line);
  }

  /** `head` followed by the actions in `text`, cleaned, or nothing if there are none. */
  ghost function WithActions(head: string, text: string): seq<string> {
    var actions := Absorb(SetOf(Split(text, ',')) - {""});
    if actions == {} then [] else [head + Join(SortedOf(actions), ',')]
  }

  /** What a single scope becomes: cut at its last colon, and its actions cleaned. */
  ghost predicate CleanedAlone(scope: string, r: seq<string>) {
    if ':' !in scope then r == [scope]
    else r == WithActions(scope[..Last(scope, ':') + 1], scope[Last(scope, ':') + 1..])
  }

  /** For a scope with two colons that is the canonical form. */
  lemma FastPath(scope: string, cleaned: seq<string>, r: seq<string>)
    requires WellFormed(scope) && cleaned == SortedOf(Absorb(ActionsOf(scope)))
    requires r == if cleaned == [] then [] else [scope[..Last(scope, ':') + 1] + Join(cleaned, ',')]
    ensures r == Clean([scope])
  {
    var granted := Absorb(ActionsOf(scope));
    LastOfRest(scope);
    SortedEmpty(granted);
    CleanSingle([scope], scope, ResourceOf(scope), granted);
    Reassociate(TypeOf(scope), NameOf(scope), Join(cleaned, ','));
  }

  lemma Reassociate(kind: string, name: string, text: string)
    ensures kind + [':'] + (name + [':']) + text == kind + [':'] + (name + [':'] + text)
  {
  }

  /**
   For a scope with one colon it is not what a longer list makes of it: such a list keeps it as it is, and alone its
   last part is taken for actions. The two agree if and only if that part is a sorted list of actions already.
   */
  lemma OneColon(kind: string, text: string, r: seq<string>, actions: set<string>)
    requires ':' !in kind && ':' !in text && CleanedAlone(kind + [':'] + text, r)
    requires actions == Absorb(SetOf(Split(text, ',')) - {""})
    ensures var scope := kind + [':'] + text;
      && !WellFormed(scope) && Bad([scope]) == [scope]
      && (r == [scope] <==> actions != {} && Join(SortedOf(actions), ',') == text)
  {
    var scope := kind + [':'] + text;
    FirstAfter(kind, ':', text, scope);
    LastBefore(kind, ':', text, scope);
    assert Bad([scope][..0]) == [];
    assert scope[..|kind| + 1] == kind + [':'];
    var joined := Join(SortedOf(actions), ',');
    assert kind + [':'] + joined == scope ==> joined == scope[|kind| + 1..];
  }

  lemma CleanedHere(scope: string, i: nat, list: seq<string>, cleaned: seq<string>, r: seq<string>)
    requires ':' in scope && i == Last(scope, ':') && list == Split(scope[i + 1..], ',')
    requires cleaned == SortedOf(Absorb(SetOf(list) - {""}))
    requires r == if cleaned == [] then [] else [scope[..i + 1] + Join(cleaned, ',')]
    ensures CleanedAlone(scope, r)
  {
    SortedEmpty(Absorb(SetOf(list) - {""}));
  }

  lemma CleanedWhole(scope: string, i: nat, list: seq<string>, cleaned: seq<string>, r: seq<string>)
    requires WellFormed(scope) && i == Last(scope, ':') && list == Split(scope[i + 1..], ',')
    requires cleaned == SortedOf(Absorb(SetOf(list) - {""}))
    requires r == if cleaned == [] then [] else [scope[..i + 1] + Join(cleaned, ',')]
    ensures r == Clean([scope])
  {
    LastOfRest(scope);
    FastPath(scope, cleaned, r);
  }

  /** The fast path: a single scope, cut at its last colon. */
  method CleanOne(scope: string) returns (r: seq<string>)
    ensures CleanedAlone(scope, r)
    ensures WellFormed(scope) ==> r == Clean([scope])
  {
    if ':' !in scope {
      return [scope];
    }
    var i := Last(scope, ':');
    var list := Split(scope[i + 1..], ',');
    var actions := new string[|list|](k requires 0 <= k < |list| => list[k]);
    assert actions[..] == list;
    var cleaned := CleanActions(actions);
    r := if cleaned == [] then [] else [scope[..i + 1] + Join(cleaned, ',')];
    CleanedHere(scope, i, list, cleaned, r);
    if WellFormed(scope) {
      CleanedWhole(scope, i, list, cleaned, r);
    }
  }

  /**
   On scopes of the form `type:name:actions` both paths compute the canonical form. Two or more scopes become the
   canonical form of those that have this form, together with the others as they are, all sorted.
   */
  method CleanScopes(scopes: seq<string>) returns (result: seq<string>)
    ensures AllWellFormed(scopes) ==> result == Clean(scopes)
    ensures |scopes| == 1 ==> CleanedAlone(scopes[0], result)
    ensures |scopes| != 1 ==>
      Sorted(result) && multiset(result) == multiset(Bad(scopes)) + multiset(Clean(Good(scopes)))
  {
    if |scopes| == 0 {
      SortedEmpty(CleanSet(scopes));
      return [];
    } else if |scopes| == 1 {
      result := CleanOne(scopes[0]);
      assert scopes == [scopes[0]];
      return;
    }
    var raw, merged := Merge(scopes);
    var rendered := Render(merged);
    result := Sort(raw + rendered);
    RenderedIsClean(Good(scopes), merged);
    DistinctMultiset(rendered);
    if AllWellFormed(scopes) {
      AllGood(scopes);
      assert raw + rendered == rendered;
      SortedDistinct(rendered, result);
    }
  }
}
