/** The token cache: concurrent `Set` calls that share one fetch per status key, and what `GetToken` can return. */
module TokenCache {
  import opened Content
  import O = Once

  datatype Scheme = UnknownScheme | Basic | Bearer

  function SchemeString(s: Scheme): string {
    match s
    case Basic => "Basic"
    case Bearer => "Bearer"
    case UnknownScheme => "Unknown"
  }

  /** What a token is asked for. */
  datatype Request = Request(registry: string, scheme: Scheme, key: string)

  /** A token remembers what it was fetched for; no step looks at that. */
  datatype Token = Token(request: Request, text: string)

  function StatusKey(r: Request): string {
    r.registry + " " + SchemeString(r.scheme) + " " + r.key
  }

  predicate NoSpace(s: string) {
    ' ' !in s
  }

  /** What precedes the first space is determined by the whole. */
  lemma FirstWord(a: string, b: string, x: string, y: string)
    requires NoSpace(a) && NoSpace(b) && a + " " + x == b + " " + y
    ensures a == b && x == y
  {
    var s, t := a + " " + x, b + " " + y;
    assert s[|a|] == ' ' && forall i :: 0 <= i < |a| ==> s[i] == a[i];
    assert t[|b|] == ' ' && forall i :: 0 <= i < |b| ==> t[i] == b[i];
    assert |a| == |b|;
    assert a == s[..|a|] && b == t[..|b|];
    assert x == s[|a| + 1..] && y == t[|b| + 1..];
  }

  /** `b` is `a` followed by a space and the name of a scheme, and perhaps another space and more. */
  ghost predicate Extends(a: string, b: string) {
    exists s: Scheme :: b == a + " " + SchemeString(s) || a + " " + SchemeString(s) + " " <= b
  }

  lemma SchemeNames(p: Scheme, q: Scheme)
    ensures NoSpace(SchemeString(p)) && (SchemeString(p) == SchemeString(q) ==> p == q)
  {
    assert |SchemeString(p)| == match p case Basic => 5 case Bearer => 6 case UnknownScheme => 7;
    assert |SchemeString(q)| == match q case Basic => 5 case Bearer => 6 case UnknownScheme => 7;
  }

  /** What follows the registry in a status key. */
  function Tail(r: Request): string {
    SchemeString(r.scheme) + " " + r.key
  }

  lemma KeyParts(r: Request)
    ensures StatusKey(r) == r.registry + " " + Tail(r) == r.registry + (" " + Tail(r))
  {
  }

  lemma SameTail(p: Request, q: Request)
    requires p.registry == q.registry && StatusKey(p) == StatusKey(q)
    ensures p == q
  {
    KeyParts(p);
    KeyParts(q);
    var n := |p.registry| + 1;
    assert Tail(p) == StatusKey(p)[n..] && Tail(q) == StatusKey(q)[n..];
    SchemeNames(p.scheme, q.scheme);
    SchemeNames(q.scheme, p.scheme);
    FirstWord(SchemeString(p.scheme), SchemeString(q.scheme), p.key, q.key);
  }

  /** A tail that begins inside a longer registry name: the name goes on with the scheme of the other request. */
  lemma TailInside(scheme: string, key: string, x: string, rest: string)
    requires NoSpace(scheme) && scheme + " " + key == x + " " + rest
    ensures x == scheme || scheme + " " <= x
  {
    if NoSpace(x) {
      FirstWord(scheme, x, key, rest);
    } else {
      var i := FirstSpace(x);
      assert x == x[..i] + " " + x[i + 1..];
      assert x + " " + rest == x[..i] + " " + (x[i + 1..] + " " + rest);
      FirstWord(scheme, x[..i], key, x[i + 1..] + " " + rest);
    }
  }

  lemma {:induction false} FirstSpace(x: string) returns (i: nat)
    requires !NoSpace(x)
    ensures i < |x| && x[i] == ' ' && NoSpace(x[..i])
  {
    if x[0] == ' ' {
      i := 0;
    } else {
      assert x == [x[0]] + x[1..];
      var j := FirstSpace(x[1..]);
      i := j + 1;
      assert x[..i] == [x[0]] + x[1..][..j];
    }
  }

  lemma ShorterExtends(p: Request, q: Request)
    requires |p.registry| < |q.registry| && StatusKey(p) == StatusKey(q)
    ensures Extends(p.registry, q.registry)
  {
    var a, b, n := p.registry, q.registry, |p.registry|;
    KeyParts(p);
    KeyParts(q);
    var whole := StatusKey(p);
    assert a == whole[..n] == b[..n] && b[n] == whole[n] == ' ';
    var x := b[n + 1..];
    assert b == a + " " + x;
    assert Tail(p) == whole[n + 1..] == x + " " + Tail(q);
    SchemeNames(p.scheme, p.scheme);
    TailInside(SchemeString(p.scheme), p.key, x, Tail(q));
    if x != SchemeString(p.scheme) {
      assert x == SchemeString(p.scheme) + " " + x[|SchemeString(p.scheme)| + 1..];
      assert a + " " + SchemeString(p.scheme) + " " <= b;
    }
  }

  /** Requests share a status key only if they are the same or one registry name extends the other. */
  lemma SharedKey(p: Request, q: Request)
    requires StatusKey(p) == StatusKey(q)
    ensures p == q || Extends(p.registry, q.registry) || Extends(q.registry, p.registry)
  {
    if |p.registry| < |q.registry| {
      ShorterExtends(p, q);
    } else if |q.registry| < |p.registry| {
      ShorterExtends(q, p);
    } else {
      KeyParts(p);
      KeyParts(q);
      assert p.registry == StatusKey(p)[..|p.registry|] == q.registry;
      SameTail(p, q);
    }
  }

  /** If a name extends another, some two requests for them share a status key. */
  lemma ExtendedKey(a: string, b: string) returns (p: Request, q: Request)
    requires Extends(a, b)
    ensures p.registry == a && q.registry == b && StatusKey(p) == StatusKey(q) && p != q
  {
    var s: Scheme :| b == a + " " + SchemeString(s) || a + " " + SchemeString(s) + " " <= b;
    q := Request(b, s, "");
    var head := a + " " + SchemeString(s);
    assert |a| < |b|;
    KeyParts(q);
    if b == head {
      p := Request(a, s, Tail(q));
    } else {
      var y := Insert(head + " ", b, " " + Tail(q));
      p := Request(a, s, y);
    }
  }

  lemma Insert(head: string, whole: string, end: string) returns (y: string)
    requires head <= whole
    ensures head + y == whole + end
  {
    y := whole[|head|..] + end;
  }

  ghost predicate Shares(p: Request, q: Request) {
    p != q && StatusKey(p) == StatusKey(q)
  }

  /** Different requests to two registries can share a status key if and only if one name extends the other. */
  lemma CollisionExact(a: string, b: string)
    ensures (exists p: Request, q: Request :: p.registry == a && q.registry == b && Shares(p, q)) <==>
      Extends(a, b) || Extends(b, a)
  {
    if p: Request, q: Request :| p.registry == a && q.registry == b && Shares(p, q) {
      SharedKey(p, q);
    }
    if Extends(a, b) {
      var p, q := ExtendedKey(a, b);
      assert Shares(p, q);
    } else if Extends(b, a) {
      var q, p := ExtendedKey(b, a);
      assert Shares(p, q);
    }
  }

  /** In particular names without spaces never collide; the key may have spaces. */
  lemma StatusKeyInjective(p: Request, q: Request)
    requires NoSpace(p.registry) && NoSpace(q.registry) && StatusKey(p) == StatusKey(q)
    ensures p == q
  {
    SharedKey(p, q);
    ExtensionHasSpace(p.registry, q.registry);
    ExtensionHasSpace(q.registry, p.registry);
  }

  /** For instance these two do. */
  lemma StatusKeyCollision()
    ensures Extends("r", "r Basic") && Shares(Request("r", Basic, "Basic k"), Request("r Basic", Basic, "k"))
  {
    var tail := " Basic k";
    assert "r Basic" == "r" + " " + SchemeString(Basic);
    assert StatusKey(Request("r", Basic, "Basic k")) == "r" + " " + "Basic" + " " + "Basic k" == "r Basic" + tail;
    assert StatusKey(Request("r Basic", Basic, "k")) == "r Basic" + " " + "Basic" + " " + "k" == "r Basic" + tail;
  }

  lemma ExtensionHasSpace(a: string, b: string)
    ensures Extends(a, b) ==> !NoSpace(b)
  {
    if s: Scheme :| b == a + " " + SchemeString(s) || a + " " + SchemeString(s) + " " <= b {
      assert b[|a|] == ' ';
    }
  }

  // ----- the machine -----

  /** A cache entry; `registry` is the registry it was created for, which no step looks at. */
  datatype Entry = Entry(registry: string, scheme: Scheme, tokens: map<string, Token>)

  /** A once object; `request` is what it was created for, which no step looks at. */
  datatype Shared = Shared(request: Request, flag: O.Flag<Option<Token>>)

  datatype Pc =
    | Start
    | Waiting(once: nat)
    | Fetching(once: nat)
    | Fetched(once: nat, result: Option<Token>)  // this call fetched first; the status entry is still there
    | Caching(token: Token)
    | Replacing(token: Token)            // the cached entry has another scheme
    | Storing(token: Token, entry: nat)
    | Returned(result: Option<Token>)

  datatype Setter = Setter(request: Request, pc: Pc)

  datatype State = State(
    setters: seq<Setter>,
    onces: seq<Shared>,                  // the once objects created so far
    status: map<string, nat>,
    entries: seq<Entry>,                 // the cache entries created so far
    cache: map<string, nat>)

  datatype Action =
    | Join                               // find or create the once object
    | Take | Share | Cancel | Stop       // the steps of Once.Do; Stop is a cancelled or panicking fetch
    | Finish(token: Option<string>)      // the fetch ends with a token or an error
    | Unlist                             // delete the status entry
    | Load                               // find or create the cache entry
    | Replace
    | Store

  /** The indices in the program counter of a call are those of objects that exist. */
  predicate Bounded(s: State, pc: Pc) {
    && (pc.Waiting? || pc.Fetching? || pc.Fetched? ==> pc.once < |s.onces|)
    && (pc.Storing? ==> pc.entry < |s.entries|)
  }

  predicate Listed(s: State, r: Request) {
    StatusKey(r) in s.status && s.status[StatusKey(r)] < |s.onces|
  }

  predicate Cached(s: State, registry: string) {
    registry in s.cache && s.cache[registry] < |s.entries|
  }

  predicate Enabled(s: State, t: nat, a: Action) {
    && t < |s.setters| && Bounded(s, s.setters[t].pc)
    && var c := s.setters[t];
      match a
      case Join => c.pc.Start?
      case Take => c.pc.Waiting? && s.onces[c.pc.once].flag.token
      case Share => c.pc.Waiting? && s.onces[c.pc.once].flag.done.Some?
      case Cancel => c.pc.Waiting?
      case Stop => c.pc.Fetching?
      case Finish(_) => c.pc.Fetching?
      case Unlist => c.pc.Fetched?
      case Load => c.pc.Caching?
      case Replace => c.pc.Replacing?
      case Store => c.pc.Storing?
  }

  function NewToken(r: Request, text: Option<string>): Option<Token> {
    if text.Some? then Some(Token(r, text.value)) else None
  }

  function NewPc(s: State, t: nat, a: Action): Pc
    requires Enabled(s, t, a)
  {
    var r, pc := s.setters[t].request, s.setters[t].pc;
    match a
    case Join => Waiting(if Listed(s, r) then s.status[StatusKey(r)] else |s.onces|)
    case Take => Fetching(pc.once)
    case Share => Returned(s.onces[pc.once].flag.done.value)
    case Cancel => Returned(None)
    case Stop => Returned(None)
    case Finish(text) => Fetched(pc.once, NewToken(r, text))
    case Unlist => if pc.result.Some? then Caching(pc.result.value) else Returned(None)
    case Load =>
      if !Cached(s, r.registry) then Storing(pc.token, |s.entries|)
      else if s.entries[s.cache[r.registry]].scheme == r.scheme then Storing(pc.token, s.cache[r.registry])
      else Replacing(pc.token)
    case Replace => Storing(pc.token, |s.entries|)
    case Store => Returned(Some(pc.token))
  }

  /** The step of Once.Do that an action is, if it is one. */
  function OnceAction(r: Request, a: Action): O.Action<Option<Token>> {
    match a
    case Take => O.Take
    case Stop => O.Stop
    case Finish(text) => O.Finish(NewToken(r, text))
    case _ => O.Cancel
  }

  function NewOnces(s: State, t: nat, a: Action): seq<Shared>
    requires Enabled(s, t, a)
  {
    var r, pc := s.setters[t].request, s.setters[t].pc;
    if a.Join? then (if Listed(s, r) then s.onces else s.onces + [Shared(r, O.Flag(true, None))])
    else if pc.Waiting? || pc.Fetching? then
      s.onces[pc.once := s.onces[pc.once].(flag := O.NewFlag(s.onces[pc.once].flag, OnceAction(r, a)))]
    else s.onces
  }

  function NewStatus(s: State, t: nat, a: Action): map<string, nat>
    requires Enabled(s, t, a)
  {
    var key := StatusKey(s.setters[t].request);
    if a.Join? && !Listed(s, s.setters[t].request) then s.status[key := |s.onces|]
    else if a.Unlist? then s.status - {key}
    else s.status
  }

  /** A new cache entry is made when there is none, and when the one there is has another scheme. */
  predicate Creates(s: State, t: nat, a: Action)
    requires Enabled(s, t, a)
  {
    a.Replace? || (a.Load? && !Cached(s, s.setters[t].request.registry))
  }

  function NewEntries(s: State, t: nat, a: Action): seq<Entry>
    requires Enabled(s, t, a)
  {
    var r, pc := s.setters[t].request, s.setters[t].pc;
    if Creates(s, t, a) then s.entries + [Entry(r.registry, r.scheme, map[])]
    else if a.Store? then
      var entry := s.entries[pc.entry];
      s.entries[pc.entry := entry.(tokens := entry.tokens[r.key := pc.token])]
    else s.entries
  }

  function NewCache(s: State, t: nat, a: Action): map<string, nat>
    requires Enabled(s, t, a)
  {
    if Creates(s, t, a) then s.cache[s.setters[t].request.registry := |s.entries|] else s.cache
  }

  function Apply(s: State, t: nat, a: Action): State
    requires Enabled(s, t, a)
  {
    State(s.setters[t := s.setters[t].(pc := NewPc(s, t, a))], NewOnces(s, t, a), NewStatus(s, t, a),
          NewEntries(s, t, a), NewCache(s, t, a))
  }

  function Enter(s: State, r: Request): State {
    s.(setters := s.setters + [Setter(r, Start)])
  }

  ghost predicate Step(s: State, s': State) {
    || (exists t, a :: Enabled(s, t, a) && s' == Apply(s, t, a))
    || (exists r: Request :: s' == Enter(s, r))
  }

  ghost predicate Execution(run: seq<State>) {
    && |run| > 0 && run[0] == State([], [], map[], [], map[])
    && forall i :: 0 <= i < |run| - 1 ==> Step(run[i], run[i + 1])
  }

  /** `GetToken`. */
  function GetToken(s: State, r: Request): Result<Token> {
    if !Cached(s, r.registry) then Err(NotFound)
    else
      var entry := s.entries[s.cache[r.registry]];
      if entry.scheme != r.scheme || r.key !in entry.tokens then Err(NotFound) else Ok(entry.tokens[r.key])
  }

  // ----- the invariant -----

  /** The token was fetched for this request. */
  predicate For(token: Option<Token>, r: Request) {
    token.Some? ==> token.value.request == r
  }

  /** The token was fetched for a request with the same status key. */
  predicate Akin(token: Option<Token>, r: Request) {
    token.Some? ==> StatusKey(token.value.request) == StatusKey(r)
  }

  predicate OnceInv(s: State, o: nat) {
    o < |s.onces| ==>
      && var once := s.onces[o];
      && (once.flag.done.Some? ==> !once.flag.token && Akin(once.flag.done.value, once.request))
      && (once.flag.done.None? ==> StatusKey(once.request) in s.status && s.status[StatusKey(once.request)] == o)
  }

  predicate StatusInv(s: State, key: string) {
    key in s.status ==> s.status[key] < |s.onces| && StatusKey(s.onces[s.status[key]].request) == key
  }

  predicate EntryInv(s: State, e: nat, key: string) {
    e < |s.entries| && key in s.entries[e].tokens ==>
      s.entries[e].tokens[key].request == Request(s.entries[e].registry, s.entries[e].scheme, key)
  }

  predicate CacheInv(s: State, registry: string) {
    registry in s.cache ==> s.cache[registry] < |s.entries| && s.entries[s.cache[registry]].registry == registry
  }

  predicate SetterInv(s: State, t: nat) {
    t < |s.setters| ==>
      && var r, pc := s.setters[t].request, s.setters[t].pc;
      && Bounded(s, pc)
      && match pc
         case Start => true
         case Waiting(o) => StatusKey(s.onces[o].request) == StatusKey(r)
         case Fetching(o) => StatusKey(s.onces[o].request) == StatusKey(r) && s.onces[o].flag == O.Flag(false, None)
         case Fetched(o, result) =>
           && StatusKey(s.onces[o].request) == StatusKey(r) && s.onces[o].flag.done.Some? && For(result, r)
           && StatusKey(r) in s.status && s.status[StatusKey(r)] == o
         case Caching(token) => token.request == r
         case Replacing(token) => token.request == r
         case Storing(token, e) => token.request == r && s.entries[e].registry == r.registry
           && s.entries[e].scheme == r.scheme
         case Returned(result) => Akin(result, r)
  }

  /** The call that has taken the token of once object `o` and has not yet deleted its status entry. */
  predicate Owns(s: State, t: nat, o: nat) {
    t < |s.setters| && (s.setters[t].pc.Fetching? || s.setters[t].pc.Fetched?) && s.setters[t].pc.once == o
  }

  predicate OwnerInv(s: State, t: nat, u: nat, o: nat) {
    Owns(s, t, o) && Owns(s, u, o) ==> t == u
  }

  ghost predicate Inv(s: State) {
    && (forall o: nat {:trigger OnceInv(s, o)} :: OnceInv(s, o))
    && (forall key {:trigger StatusInv(s, key)} :: StatusInv(s, key))
    && (forall e: nat, key {:trigger EntryInv(s, e, key)} :: EntryInv(s, e, key))
    && (forall registry {:trigger CacheInv(s, registry)} :: CacheInv(s, registry))
    && (forall t: nat {:trigger SetterInv(s, t)} :: SetterInv(s, t))
    && (forall t: nat, u: nat, o: nat {:trigger OwnerInv(s, t, u, o)} :: OwnerInv(s, t, u, o))
  }

  lemma StepOnce(s: State, t: nat, a: Action, o: nat)
    requires Inv(s) && Enabled(s, t, a)
    ensures OnceInv(Apply(s, t, a), o)
  {
    var r := s.setters[t].request;
    assert OnceInv(s, o) && SetterInv(s, t) && StatusInv(s, StatusKey(r));
  }

  lemma StepStatus(s: State, t: nat, a: Action, key: string)
    requires Inv(s) && Enabled(s, t, a)
    ensures StatusInv(Apply(s, t, a), key)
  {
    assert StatusInv(s, key);
  }

  lemma StepEntry(s: State, t: nat, a: Action, e: nat, key: string)
    requires Inv(s) && Enabled(s, t, a)
    ensures EntryInv(Apply(s, t, a), e, key)
  {
    assert EntryInv(s, e, key) && SetterInv(s, t);
  }

  lemma StepCache(s: State, t: nat, a: Action, registry: string)
    requires Inv(s) && Enabled(s, t, a)
    ensures CacheInv(Apply(s, t, a), registry)
  {
    assert CacheInv(s, registry);
  }

  lemma StepOwn(s: State, t: nat, a: Action)
    requires Inv(s) && Enabled(s, t, a)
    ensures SetterInv(Apply(s, t, a), t)
  {
    var r, pc := s.setters[t].request, s.setters[t].pc;
    assert SetterInv(s, t) && CacheInv(s, r.registry) && StatusInv(s, StatusKey(r));
    if a.Take? || a.Share? || a.Finish? {
      assert OnceInv(s, pc.once);
    }
  }

  lemma StepOther(s: State, t: nat, a: Action, u: nat)
    requires Inv(s) && Enabled(s, t, a) && u != t
    ensures SetterInv(Apply(s, t, a), u)
  {
    assert SetterInv(s, u);
    if u < |s.setters| {
      var pc := s.setters[u].pc;
      if pc.Fetching? || pc.Fetched? {
        OwnerKeeps(s, t, a, u);
      } else if pc.Waiting? {
        OnceKept(s, t, a, pc.once);
      }
    }
  }

  lemma OnceKept(s: State, t: nat, a: Action, o: nat)
    requires Enabled(s, t, a) && o < |s.onces|
    ensures o < |NewOnces(s, t, a)| && NewOnces(s, t, a)[o].request == s.onces[o].request
  {
  }

  /** What a fetching or fetched call relies on is only changed by itself. */
  lemma OwnerKeeps(s: State, t: nat, a: Action, u: nat)
    requires Inv(s) && Enabled(s, t, a) && u != t && u < |s.setters|
    requires s.setters[u].pc.Fetching? || s.setters[u].pc.Fetched?
    ensures var o, key := s.setters[u].pc.once, StatusKey(s.setters[u].request);
      && o < |s.onces| && o < |NewOnces(s, t, a)| && NewOnces(s, t, a)[o] == s.onces[o]
      && (key in s.status ==> key in NewStatus(s, t, a) && NewStatus(s, t, a)[key] == s.status[key])
  {
    var pc := s.setters[u].pc;
    assert SetterInv(s, u) && SetterInv(s, t) && OwnerInv(s, t, u, pc.once) && OnceInv(s, pc.once);
    assert StatusInv(s, StatusKey(s.setters[u].request));
  }

  lemma StepOwner(s: State, t: nat, a: Action, u: nat, v: nat, o: nat)
    requires Inv(s) && Enabled(s, t, a)
    ensures OwnerInv(Apply(s, t, a), u, v, o)
  {
    assert OwnerInv(s, u, v, o) && SetterInv(s, u) && SetterInv(s, v) && OnceInv(s, o);
  }

  lemma StepInv(s: State, t: nat, a: Action)
    requires Inv(s) && Enabled(s, t, a)
    ensures Inv(Apply(s, t, a))
  {
    var s' := Apply(s, t, a);
    forall o: nat ensures OnceInv(s', o) { StepOnce(s, t, a, o); }
    forall key ensures StatusInv(s', key) { StepStatus(s, t, a, key); }
    forall e: nat, key ensures EntryInv(s', e, key) { StepEntry(s, t, a, e, key); }
    forall registry ensures CacheInv(s', registry) { StepCache(s, t, a, registry); }
    forall u: nat ensures SetterInv(s', u) {
      if u == t {
        StepOwn(s, t, a);
      } else {
        StepOther(s, t, a, u);
      }
    }
    forall u: nat, v: nat, o: nat ensures OwnerInv(s', u, v, o) { StepOwner(s, t, a, u, v, o); }
  }

  lemma EnterInv(s: State, r: Request)
    requires Inv(s)
    ensures Inv(Enter(s, r))
  {
    var s' := Enter(s, r);
    forall o: nat ensures OnceInv(s', o) { assert OnceInv(s, o); }
    forall key ensures StatusInv(s', key) { assert StatusInv(s, key); }
    forall e: nat, key ensures EntryInv(s', e, key) { assert EntryInv(s, e, key); }
    forall registry ensures CacheInv(s', registry) { assert CacheInv(s, registry); }
    forall u: nat ensures SetterInv(s', u) { assert SetterInv(s, u); }
    forall u: nat, v: nat, o: nat ensures OwnerInv(s', u, v, o) { assert OwnerInv(s, u, v, o); }
  }

  lemma {:induction false} ExecutionInv(run: seq<State>, i: nat)
    requires Execution(run) && i < |run|
    ensures Inv(run[i])
  {
    if i > 0 {
      var s := run[i - 1];
      ExecutionInv(run, i - 1);
      assert Step(s, run[i - 1 + 1]);
      if r: Request :| run[i] == Enter(s, r) {
        EnterInv(s, r);
      } else {
        var t, a :| Enabled(s, t, a) && run[i] == Apply(s, t, a);
        StepInv(s, t, a);
      }
    }
  }

  // ----- what callers can rely on -----

  /** `GetToken` only returns a token that was fetched for that registry, scheme and key, across scheme changes too. */
  lemma TokenProvenance(run: seq<State>, i: nat, r: Request)
    requires Execution(run) && i < |run| && GetToken(run[i], r).Ok?
    ensures GetToken(run[i], r).value.request == r
  {
    ExecutionInv(run, i);
    var s := run[i];
    assert CacheInv(s, r.registry) && EntryInv(s, s.cache[r.registry], r.key);
  }

  /**
   `Set` returns a token that was fetched for a request with its status key, by itself or by a call it shared with: for
   its own request, unless one of the two registry names extends the other.
   */
  lemma SetProvenance(run: seq<State>, i: nat, t: nat)
    requires Execution(run) && i < |run| && t < |run[i].setters|
    requires run[i].setters[t].pc.Returned? && run[i].setters[t].pc.result.Some?
    ensures var r, token := run[i].setters[t].request, run[i].setters[t].pc.result.value;
      && StatusKey(token.request) == StatusKey(r)
      && (token.request == r || Extends(token.request.registry, r.registry)
           || Extends(r.registry, token.request.registry))
  {
    ExecutionInv(run, i);
    assert SetterInv(run[i], t);
    SharedKey(run[i].setters[t].pc.result.value.request, run[i].setters[t].request);
  }

  lemma Extend(run: seq<State>, t: nat, a: Action) returns (more: seq<State>)
    requires Execution(run) && Enabled(run[|run| - 1], t, a)
    ensures Execution(more) && more[|more| - 1] == Apply(run[|run| - 1], t, a)
  {
    more := run + [Apply(run[|run| - 1], t, a)];
    assert Step(run[|run| - 1], more[|run|]);
    assert forall i :: 0 <= i < |run| ==> more[i] == run[i];
  }

  /** Two calls for `p` and `q` wait for the same once object. */
  ghost predicate Together(s: State, p: Request, q: Request) {
    && s.setters == [Setter(p, Waiting(0)), Setter(q, Waiting(0))]
    && |s.onces| == 1 && s.onces[0].flag == O.Flag(true, None)
  }

  lemma WaitTogether(p: Request, q: Request) returns (run: seq<State>)
    requires StatusKey(p) == StatusKey(q)
    ensures Execution(run) && Together(run[|run| - 1], p, q)
  {
    var s0 := State([], [], map[], [], map[]);
    var s1 := Enter(s0, p);
    var s2 := Enter(s1, q);
    assert Step(s0, s1) && Step(s1, s2);
    run := Extend([s0, s1, s2], 0, Join);
    run := Extend(run, 1, Join);
  }

  /**
   And if two requests share a status key, there is a run in which one gets the token that was fetched for the other.
   */
  lemma ForeignToken(p: Request, q: Request, text: string) returns (run: seq<State>)
    requires StatusKey(p) == StatusKey(q)
    ensures Execution(run)
    ensures var s := run[|run| - 1]; |s.setters| == 2 && s.setters[1] == Setter(q, Returned(Some(Token(p, text))))
  {
    run := WaitTogether(p, q);
    run := Extend(run, 0, Take);
    run := Extend(run, 0, Finish(Some(text)));
    assert run[|run| - 1].onces[0].flag.done == Some(Some(Token(p, text)));
    run := Extend(run, 1, Share);
  }

  /** A call that stores its token into the cached entry makes it the one that is returned. */
  lemma StoredIsRead(s: State, t: nat)
    requires Inv(s) && Enabled(s, t, Store)
    ensures var r, pc := s.setters[t].request, s.setters[t].pc;
      Cached(s, r.registry) && s.cache[r.registry] == pc.entry ==> GetToken(Apply(s, t, Store), r) == Ok(pc.token)
  {
    assert SetterInv(s, t);
  }

  /** What the call does with a token it fetched, if no other call comes in between. */
  function Kept(s: State, t: nat): State
    requires Enabled(s, t, Load)
  {
    var s1 := Apply(s, t, Load);
    var s2 := if Enabled(s1, t, Replace) then Apply(s1, t, Replace) else s1;
    if Enabled(s2, t, Store) then Apply(s2, t, Store) else s2
  }

  /** Then the call returns the token, and it is cached, whatever the cache held for the registry before. */
  lemma KeptIsRead(s: State, t: nat)
    requires Inv(s) && Enabled(s, t, Load)
    ensures var s', token := Kept(s, t), s.setters[t].pc.token;
      s'.setters[t].pc == Returned(Some(token)) && GetToken(s', s.setters[t].request) == Ok(token)
  {
    assert SetterInv(s, t) && CacheInv(s, s.setters[t].request.registry);
  }

  /** What was cached for the registry under another scheme is gone. */
  lemma KeptForgets(s: State, t: nat, q: Request)
    requires Inv(s) && Enabled(s, t, Load)
    requires q.registry == s.setters[t].request.registry && q.scheme != s.setters[t].request.scheme
    ensures GetToken(Kept(s, t), q) == Err(NotFound)
  {
    assert SetterInv(s, t) && CacheInv(s, q.registry);
  }

  /** The other tokens under the same scheme are as they were. */
  lemma KeptLeaves(s: State, t: nat, q: Request)
    requires Inv(s) && Enabled(s, t, Load) && q != s.setters[t].request
    requires q.registry == s.setters[t].request.registry && q.scheme == s.setters[t].request.scheme
    ensures GetToken(Kept(s, t), q) == GetToken(s, q)
  {
    assert SetterInv(s, t) && CacheInv(s, q.registry);
  }

  /** And so are the tokens for other registries. */
  lemma KeptElsewhere(s: State, t: nat, q: Request)
    requires Inv(s) && Enabled(s, t, Load) && q.registry != s.setters[t].request.registry
    ensures GetToken(Kept(s, t), q) == GetToken(s, q)
  {
    assert SetterInv(s, t) && CacheInv(s, s.setters[t].request.registry) && CacheInv(s, q.registry);
  }

  /** A call that has fetched a token goes on to cache it: it is what is returned from then on. */
  lemma FetchedIsCached(s: State, t: nat)
    requires Inv(s) && Enabled(s, t, Unlist) && s.setters[t].pc.result.Some?
    ensures var s' := Apply(s, t, Unlist);
      && Enabled(s', t, Load)
      && GetToken(Kept(s', t), s.setters[t].request) == Ok(s.setters[t].pc.result.value)
  {
    var s' := Apply(s, t, Unlist);
    StepInv(s, t, Unlist);
    KeptIsRead(s', t);
  }

  /** Some call has fetched with this once object and is about to take it off the list. */
  ghost predicate AboutToUnlist(s: State, o: nat) {
    exists t :: 0 <= t < |s.setters| && s.setters[t].pc.Fetched? && s.setters[t].pc.once == o
  }

  /** A once object that is done is listed only until the call that completed it takes it off. */
  ghost predicate ListedAt(s: State, key: string) {
    key in s.status && s.status[key] < |s.onces| && s.onces[s.status[key]].flag.done.Some? ==>
      AboutToUnlist(s, s.status[key])
  }

  ghost predicate Listings(s: State) {
    forall key {:trigger ListedAt(s, key)} :: ListedAt(s, key)
  }

  lemma StepListed(s: State, t: nat, a: Action, key: string)
    requires Inv(s) && Enabled(s, t, a) && ListedAt(s, key)
    ensures ListedAt(Apply(s, t, a), key)
  {
    var s' := Apply(s, t, a);
    assert SetterInv(s, t) && StatusInv(s, key);
    if key in s'.status && s'.status[key] < |s'.onces| && s'.onces[s'.status[key]].flag.done.Some? {
      var o := s'.status[key];
      if a.Finish? && s.setters[t].pc.once == o {
        assert s'.setters[t].pc.Fetched?;
      } else {
        assert key in s.status && s.status[key] == o && s.onces[o].flag.done.Some?;
        var u :| 0 <= u < |s.setters| && s.setters[u].pc.Fetched? && s.setters[u].pc.once == o;
        assert s'.setters[u].pc == s.setters[u].pc by {
          assert SetterInv(s, u);
        }
      }
    }
  }

  lemma {:induction false} ExecutionListed(run: seq<State>, i: nat)
    requires Execution(run) && i < |run|
    ensures Listings(run[i])
  {
    if i > 0 {
      ExecutionListed(run, i - 1);
      ExecutionInv(run, i - 1);
      var s := run[i - 1];
      assert Step(s, run[i - 1 + 1]);
      forall key
        ensures ListedAt(run[i], key)
      {
        assert ListedAt(s, key);
        if t, a :| Enabled(s, t, a) && run[i] == Apply(s, t, a) {
          StepListed(s, t, a, key);
        } else {
          var r: Request :| run[i] == Enter(s, r);
          EnterListed(s, r, key);
        }
      }
    }
  }

  lemma EnterListed(s: State, r: Request, key: string)
    requires ListedAt(s, key)
    ensures ListedAt(Enter(s, r), key)
  {
    var s' := Enter(s, r);
    if key in s.status && AboutToUnlist(s, s.status[key]) {
      var u :| 0 <= u < |s.setters| && s.setters[u].pc.Fetched? && s.setters[u].pc.once == s.status[key];
      assert s'.setters[u] == s.setters[u];
    }
  }

  /** When no call is under way, a new one does not get an old token from the list: it fetches its own. */
  lemma QuietIsFresh(run: seq<State>, i: nat, r: Request)
    requires Execution(run) && i < |run| && forall t :: 0 <= t < |run[i].setters| ==> run[i].setters[t].pc.Returned?
    ensures Listed(run[i], r) ==> run[i].onces[run[i].status[StatusKey(r)]].flag.done.None?
  {
    ExecutionListed(run, i);
    assert ListedAt(run[i], StatusKey(r));
  }

  /** Two calls never fetch for the same registry, scheme and key at once. */
  lemma OneFetchAtATime(run: seq<State>, i: nat, t: nat, u: nat)
    requires Execution(run) && i < |run| && t < |run[i].setters| && u < |run[i].setters|
    requires run[i].setters[t].pc.Fetching? && run[i].setters[u].pc.Fetching?
    requires run[i].setters[t].request == run[i].setters[u].request
    ensures t == u
  {
    ExecutionInv(run, i);
    var s := run[i];
    var o, p := s.setters[t].pc.once, s.setters[u].pc.once;
    assert SetterInv(s, t) && SetterInv(s, u) && OnceInv(s, o) && OnceInv(s, p) && OwnerInv(s, t, u, o);
  }
}
