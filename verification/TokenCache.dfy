/**
 Delegated tokens and their cache (app/repositories/mcp_delegated_token_repository.py).

 The cache is keyed by a composed string and drops an entry when its time to live is over,
 or at any moment before.  Time is real; the code reads it truncated to whole seconds.
 The clock is read once before the exchange and once after it.  Calls are serialised.
 */
module TokenCache {
  import opened Wrappers
  import Scopes

  const DEFAULT_TOKEN_CACHE_TTL: int := 300

  predicate ColonFree(s: string) {
    ':' !in s
  }

  /** The text of a UUID and a hexadecimal digest have no colon; an audience may. */
  type UserId = s: string | ColonFree(s) witness ""
  type Digest = s: string | ColonFree(s) witness ""

  /** The context sent along with an exchange; values as text. */
  type Context = Option<map<string, string>>

  /** What a token is for: the user, the audience and the normalised scopes. */
  datatype Grant = Grant(userId: UserId, audience: string, scopes: string)

  /** What is sent to the exchange.  The cache is keyed by the grant alone. */
  datatype Request = Request(grant: Grant, context: Context)

  datatype Entry = Entry(token: string, expiresAt: int, deadline: real)

  /** One completed exchange: when its call began, when its token was written, and what came back. */
  datatype Exchange = Exchange(begun: real, written: real, request: Request, token: string, expiresIn: int)

  datatype TokenError = NoM2MToken | ExchangeFailed

  datatype Reply = Reply(token: string, expiresIn: int)

  function Min(a: int, b: int): int {
    if a <= b then a else b
  }

  function Max(a: int, b: int): int {
    if a >= b then a else b
  }

  function Ttl(expiresIn: int): int {
    Max(1, Min(expiresIn, DEFAULT_TOKEN_CACHE_TTL))
  }

  // ---------------------------------------------------------------- the key

  function Compose(userId: UserId, audience: string, digest: Digest): string {
    "mcp:token:" + (userId + ":" + (audience + ":" + digest))
  }

  function CacheKey(grant: Grant, hash: string -> Digest): string {
    Compose(grant.userId, grant.audience, hash(grant.scopes))
  }

  lemma FirstColon(a: string, x: string, b: string, y: string)
    requires ColonFree(a) && ColonFree(b)
    requires a + ":" + x == b + ":" + y
    ensures a == b && x == y
  {
    var s := a + ":" + x;
    assert s[|a|] == ':' && s[|b|] == ':';
    assert forall i :: 0 <= i < |a| ==> s[i] == a[i] != ':';
    assert forall i :: 0 <= i < |b| ==> s[i] == b[i] != ':';
    assert |a| == |b|;
    assert s[..|a|] == a && s[..|b|] == b;
    assert s[|a| + 1..] == x && s[|b| + 1..] == y;
  }

  lemma LastColon(a: string, x: string, b: string, y: string)
    requires ColonFree(x) && ColonFree(y)
    requires a + ":" + x == b + ":" + y
    ensures a == b && x == y
  {
    var s := a + ":" + x;
    assert s[|a|] == ':' && s[|b|] == ':';
    assert forall i :: |a| < i < |s| ==> s[i] == x[i - |a| - 1] != ':';
    assert forall i :: |b| < i < |s| ==> s[i] == y[i - |b| - 1] != ':';
    assert |a| == |b|;
    assert s[..|a|] == a && s[..|b|] == b;
    assert s[|a| + 1..] == x && s[|b| + 1..] == y;
  }

  /** The composed key tells user, audience and digest apart, though an audience may contain colons. */
  lemma ComposeInjective(u: UserId, a: string, d: Digest, v: UserId, b: string, e: Digest)
    ensures Compose(u, a, d) == Compose(v, b, e) <==> u == v && a == b && d == e
  {
    if Compose(u, a, d) == Compose(v, b, e) {
      var p := "mcp:token:";
      var x, y := u + ":" + (a + ":" + d), v + ":" + (b + ":" + e);
      assert (p + x)[|p|..] == x && (p + y)[|p|..] == y;
      FirstColon(u, a + ":" + d, v, b + ":" + e);
      LastColon(a, d, b, e);
    }
  }

  /**
   A string of scopes and the list of the same scopes share a cache entry exactly when the
   string names them in ascending order, if the digest tells the two normal forms apart.
   */
  lemma FormsShareKeyIff(
      userId: UserId, audience: string, words: seq<string>, text: string, list: string, hash: string -> Digest)
    requires forall w :: w in words ==> Scopes.Word(w)
    requires text == Scopes.Normalise(Scopes.Text(Scopes.JoinWords(words)))
    requires list == Scopes.Normalise(Scopes.ListOf(words))
    requires hash(text) == hash(list) ==> text == list
    ensures CacheKey(Grant(userId, audience, text), hash) == CacheKey(Grant(userId, audience, list), hash)
            <==> Scopes.Ascending(words)
  {
    Scopes.FormsAgreeIff(words);
    ComposeInjective(userId, audience, hash(text), userId, audience, hash(list));
  }

  // ---------------------------------------------------------------- the calls

  datatype State = State(clock: real, cache: map<string, Entry>, log: seq<Exchange>)

  const EMPTY: State := State(0.0, map[], [])

  datatype Call =
    | Get(begun: real, request: Request, forced: bool, m2m: bool, written: real, reply: Option<Reply>)
    | Invalidate(grant: Grant)
    | Evict(key: string)

  /** What Cache.read gives: nothing after the time to live. */
  function ReadCache(cache: map<string, Entry>, key: string, now: real): Option<Entry> {
    if key in cache && now < cache[key].deadline then Some(cache[key]) else None
  }

  /** A cached entry whose token may be returned. */
  predicate Usable(entry: Entry, now: real, margin: int) {
    entry.expiresAt - now.Floor > margin && entry.token != ""
  }

  /** The token a call takes from the cache, if any. */
  function Hit(s: State, call: Call, hash: string -> Digest, margin: int): Option<string>
    requires call.Get?
  {
    var cached := ReadCache(s.cache, CacheKey(call.request.grant, hash), call.begun);
    if !call.forced && cached.Some? && Usable(cached.value, call.begun, margin) then Some(cached.value.token) else None
  }

  function EntryOf(exchange: Exchange): Entry {
    Entry(exchange.token, exchange.written.Floor + exchange.expiresIn,
          exchange.written + Ttl(exchange.expiresIn) as real)
  }

  /** One call; a call dated before the clock, or out of order in itself, does not happen. */
  function Apply(s: State, call: Call, hash: string -> Digest, margin: int): State {
    match call
    case Get(begun, request, forced, m2m, written, reply) =>
      if begun < s.clock || written < begun then s
      else if Hit(s, call, hash, margin).Some? then s.(clock := begun)
      else if !m2m || reply.None? then s.(clock := begun)
      else
        var exchange := Exchange(begun, written, request, reply.value.token, reply.value.expiresIn);
        State(written, s.cache[CacheKey(request.grant, hash) := EntryOf(exchange)], s.log + [exchange])
    case Invalidate(grant) => s.(cache := s.cache - {CacheKey(grant, hash)})
    case Evict(key) => s.(cache := s.cache - {key})
  }

  function RunFrom(s: State, calls: seq<Call>, hash: string -> Digest, margin: int): State
    decreases |calls|
  {
    if calls == [] then s else RunFrom(Apply(s, calls[0], hash, margin), calls[1..], hash, margin)
  }

  function Run(calls: seq<Call>, hash: string -> Digest, margin: int): State {
    RunFrom(EMPTY, calls, hash, margin)
  }

  // ---------------------------------------------------------------- the latest exchange of a key

  predicate Concerns(exchange: Exchange, key: string, hash: string -> Digest) {
    CacheKey(exchange.request.grant, hash) == key
  }

  /** The latest exchange of the key, if there was one. */
  function Source(log: seq<Exchange>, key: string, hash: string -> Digest): Option<Exchange> {
    if log == [] then None
    else
      var later := Source(log[1..], key, hash);
      if later.Some? then later else if Concerns(log[0], key, hash) then Some(log[0]) else None
  }

  lemma {:induction false} SourceLast(log: seq<Exchange>, added: Exchange, key: string, hash: string -> Digest)
    ensures Source(log + [added], key, hash)
            == if Concerns(added, key, hash) then Some(added) else Source(log, key, hash)
  {
    if log == [] {
      assert log + [added] == [added];
    } else {
      assert (log + [added])[0] == log[0] && (log + [added])[1..] == log[1..] + [added];
      SourceLast(log[1..], added, key, hash);
    }
  }

  /** From i on there is an exchange of the key, and the latest one is the source. */
  lemma {:induction false} LastOf(log: seq<Exchange>, key: string, hash: string -> Digest, i: nat) returns (last: nat)
    requires i < |log| && Concerns(log[i], key, hash)
    ensures i <= last < |log| && Concerns(log[last], key, hash)
    ensures Source(log, key, hash) == Some(log[last])
    decreases |log|
  {
    if i > 0 {
      var rest := LastOf(log[1..], key, hash, i - 1);
      last := rest + 1;
    } else {
      last := SourceOrHead(log, key, hash);
    }
  }

  lemma {:induction false} SourceOrHead(log: seq<Exchange>, key: string, hash: string -> Digest) returns (last: nat)
    requires log != [] && Concerns(log[0], key, hash)
    ensures last < |log| && Concerns(log[last], key, hash) && Source(log, key, hash) == Some(log[last])
  {
    if Source(log[1..], key, hash).Some? {
      var rest := SourceIn(log[1..], key, hash);
      last := rest + 1;
    } else {
      last := 0;
    }
  }

  lemma {:induction false} SourceIn(log: seq<Exchange>, key: string, hash: string -> Digest) returns (last: nat)
    requires Source(log, key, hash).Some?
    ensures last < |log| && Concerns(log[last], key, hash) && Source(log, key, hash) == Some(log[last])
  {
    if Source(log[1..], key, hash).Some? {
      var rest := SourceIn(log[1..], key, hash);
      last := rest + 1;
    } else {
      last := 0;
    }
  }

  // ---------------------------------------------------------------- the cache agrees with the exchange

  /** Every entry of the cache is that of the latest exchange of its key. */
  ghost predicate Backed(s: State, hash: string -> Digest) {
    forall key :: key in s.cache ==>
      Source(s.log, key, hash).Some? && s.cache[key] == EntryOf(Source(s.log, key, hash).value)
  }

  lemma ApplyBacked(s: State, call: Call, hash: string -> Digest, margin: int)
    requires Backed(s, hash)
    ensures Backed(Apply(s, call, hash, margin), hash)
  {
    var next := Apply(s, call, hash, margin);
    if next.log != s.log {
      var added := next.log[|s.log|];
      assert next.log == s.log + [added];
      forall key | key in next.cache
        ensures Source(next.log, key, hash).Some? && next.cache[key] == EntryOf(Source(next.log, key, hash).value)
      {
        SourceLast(s.log, added, key, hash);
      }
    }
  }

  lemma {:induction false} RunBacked(s: State, calls: seq<Call>, hash: string -> Digest, margin: int)
    requires Backed(s, hash)
    ensures Backed(RunFrom(s, calls, hash, margin), hash)
    decreases |calls|
  {
    if calls != [] {
      ApplyBacked(s, calls[0], hash, margin);
      RunBacked(Apply(s, calls[0], hash, margin), calls[1..], hash, margin);
    }
  }

  /** The exchange that a token in the cache of a run comes from. */
  function SourceOfHit(calls: seq<Call>, call: Call, hash: string -> Digest, margin: int): Option<Exchange>
    requires call.Get?
  {
    Source(Run(calls, hash, margin).log, CacheKey(call.request.grant, hash), hash)
  }

  /**
   Every token taken from the cache, in any run, came from the latest exchange of its key,
   which was for the same user, the same audience and scopes with the same digest, and has
   more than the refresh margin of its life left.
   */
  lemma HitAgrees(calls: seq<Call>, call: Call, hash: string -> Digest, margin: int)
    requires call.Get? && Hit(Run(calls, hash, margin), call, hash, margin).Some?
    ensures var source := SourceOfHit(calls, call, hash, margin);
            && source.Some? && source.value in Run(calls, hash, margin).log
            && source.value.token == Hit(Run(calls, hash, margin), call, hash, margin).value
            && source.value.request.grant.userId == call.request.grant.userId
            && source.value.request.grant.audience == call.request.grant.audience
            && hash(source.value.request.grant.scopes) == hash(call.request.grant.scopes)
            && source.value.written.Floor + source.value.expiresIn - call.begun.Floor > margin
  {
    var s := Run(calls, hash, margin);
    var key := CacheKey(call.request.grant, hash);
    RunBacked(EMPTY, calls, hash, margin);
    assert s.cache[key] == EntryOf(Source(s.log, key, hash).value);
    var i := SourceIn(s.log, key, hash);
    var found, asked := s.log[i].request.grant, call.request.grant;
    ComposeInjective(found.userId, found.audience, hash(found.scopes),
                     asked.userId, asked.audience, hash(asked.scopes));
  }

  /** With a digest that does not collide on the scopes in play, the whole grant is the same. */
  lemma HitAgreesOnScopes(calls: seq<Call>, call: Call, hash: string -> Digest, margin: int)
    requires call.Get? && Hit(Run(calls, hash, margin), call, hash, margin).Some?
    requires forall x :: x in Run(calls, hash, margin).log ==>
                           var scopes := x.request.grant.scopes;
                           hash(scopes) == hash(call.request.grant.scopes) ==> scopes == call.request.grant.scopes
    ensures SourceOfHit(calls, call, hash, margin).Some?
    ensures SourceOfHit(calls, call, hash, margin).value.request.grant == call.request.grant
    ensures SourceOfHit(calls, call, hash, margin).value.token
            == Hit(Run(calls, hash, margin), call, hash, margin).value
  {
    HitAgrees(calls, call, hash, margin);
  }

  // ---------------------------------------------------------------- the context is not part of the key

  /** All that is asked for in the calls is one of the requests. */
  ghost predicate Within(calls: seq<Call>, requests: set<Request>) {
    forall k :: 0 <= k < |calls| && calls[k].Get? ==> calls[k].request in requests
  }

  /** In every run over the requests, a cached token was exchanged in the context it is asked for in. */
  ghost predicate ContextKept(requests: set<Request>, hash: string -> Digest, margin: int) {
    forall calls, call: Call | Within(calls, requests) && call.Get? && call.request in requests
                               && Hit(Run(calls, hash, margin), call, hash, margin).Some? ::
      SourceOfHit(calls, call, hash, margin).Some?
      && SourceOfHit(calls, call, hash, margin).value.request.context == call.request.context
  }

  /** Requests with one cache key have one context. */
  ghost predicate OneContextPerKey(requests: set<Request>, hash: string -> Digest) {
    forall a, b | a in requests && b in requests && CacheKey(a.grant, hash) == CacheKey(b.grant, hash) ::
      a.context == b.context
  }

  lemma {:induction false} LogWithin(
      s: State, calls: seq<Call>, requests: set<Request>, hash: string -> Digest, margin: int)
    requires Within(calls, requests) && forall x :: x in s.log ==> x.request in requests
    ensures forall x :: x in RunFrom(s, calls, hash, margin).log ==> x.request in requests
    decreases |calls|
  {
    if calls != [] {
      assert calls[0].Get? ==> calls[0].request in requests;
      assert forall k :: 0 <= k < |calls[1..]| ==> calls[1..][k] == calls[k + 1];
      LogWithin(Apply(s, calls[0], hash, margin), calls[1..], requests, hash, margin);
    }
  }

  /** A token exchanged for a is given to b, which has the same key, whatever its context. */
  lemma ServedAcross(a: Request, b: Request, hash: string -> Digest, margin: int) returns (calls: seq<Call>, call: Call)
    requires CacheKey(a.grant, hash) == CacheKey(b.grant, hash)
    ensures Within(calls, {a}) && call.Get? && call.request == b
    ensures Hit(Run(calls, hash, margin), call, hash, margin).Some?
    ensures SourceOfHit(calls, call, hash, margin).Some?
    ensures SourceOfHit(calls, call, hash, margin).value.request == a
  {
    var first := Get(0.0, a, false, true, 0.0, Some(Reply("token", margin + 1)));
    var exchange := Exchange(0.0, 0.0, a, "token", margin + 1);
    calls, call := [first], Get(0.0, b, false, true, 0.0, None);
    var served := Apply(EMPTY, first, hash, margin);
    assert calls[0] == first && calls[1..] == [];
    assert RunFrom(served, [], hash, margin) == served;
    assert Run(calls, hash, margin) == served;
    assert Run(calls, hash, margin).log == [exchange];
    SourceLast([], exchange, CacheKey(a.grant, hash), hash);
    assert [] + [exchange] == [exchange];
  }

  /**
   The key leaves out the context that an exchange is sent with.  Cached tokens keep to the
   context they are asked for in, over every run, exactly when no two requests with one key
   differ in their context.
   */
  lemma ContextKeptIff(requests: set<Request>, hash: string -> Digest, margin: int)
    ensures ContextKept(requests, hash, margin) <==> OneContextPerKey(requests, hash)
  {
    if OneContextPerKey(requests, hash) {
      forall calls, call: Call | Within(calls, requests) && call.Get? && call.request in requests
                                 && Hit(Run(calls, hash, margin), call, hash, margin).Some?
        ensures SourceOfHit(calls, call, hash, margin).Some?
        ensures SourceOfHit(calls, call, hash, margin).value.request.context == call.request.context
      {
        HitInContext(calls, call, requests, hash, margin);
      }
    } else {
      var a, b :| a in requests && b in requests && CacheKey(a.grant, hash) == CacheKey(b.grant, hash)
                  && a.context != b.context;
      var calls, call := ServedAcross(a, b, hash, margin);
      assert Within(calls, requests);
    }
  }

  lemma HitInContext(calls: seq<Call>, call: Call, requests: set<Request>, hash: string -> Digest, margin: int)
    requires OneContextPerKey(requests, hash) && Within(calls, requests)
    requires call.Get? && call.request in requests && Hit(Run(calls, hash, margin), call, hash, margin).Some?
    ensures SourceOfHit(calls, call, hash, margin).Some?
    ensures SourceOfHit(calls, call, hash, margin).value.request.context == call.request.context
  {
    HitAgrees(calls, call, hash, margin);
    LogWithin(EMPTY, calls, requests, hash, margin);
    var i := SourceIn(Run(calls, hash, margin).log, CacheKey(call.request.grant, hash), hash);
  }

  // ---------------------------------------------------------------- how often an exchange can happen

  /** The call neither forces a refresh of the key nor removes its entry. */
  predicate Gentle(call: Call, key: string, hash: string -> Digest) {
    match call
    case Get(_, request, forced, _, _, _) => !(forced && CacheKey(request.grant, hash) == key)
    case Invalidate(grant) => CacheKey(grant, hash) != key
    case Evict(k) => k != key
  }

  ghost predicate AllGentle(calls: seq<Call>, key: string, hash: string -> Digest) {
    forall k :: 0 <= k < |calls| ==> Gentle(calls[k], key, hash)
  }

  /** Seconds a token keeps the next exchange of its key away: its cached life, less the margin. */
  function Spacing(exchange: Exchange, margin: int): int {
    Min(Ttl(exchange.expiresIn), exchange.expiresIn - margin)
  }

  ghost predicate Spaced(log: seq<Exchange>, key: string, hash: string -> Digest, margin: int) {
    forall i, j | 0 <= i < j < |log| && Concerns(log[i], key, hash) && Concerns(log[j], key, hash)
                  && log[i].token != "" ::
      log[j].begun.Floor - log[i].written.Floor >= Spacing(log[i], margin)
  }

  ghost predicate Timed(s: State) {
    && (forall i :: 0 <= i < |s.log| ==> s.log[i].begun <= s.log[i].written <= s.clock)
    && (forall i, j :: 0 <= i < j < |s.log| ==> s.log[i].written <= s.log[j].begun)
  }

  /** The cache holds the latest exchange of the key. */
  ghost predicate Latest(s: State, key: string, hash: string -> Digest) {
    var source := Source(s.log, key, hash);
    source.Some? ==> key in s.cache && s.cache[key] == EntryOf(source.value)
  }

  ghost predicate Paced(s: State, key: string, hash: string -> Digest, margin: int) {
    Timed(s) && Latest(s, key, hash) && Spaced(s.log, key, hash, margin)
  }

  lemma FloorSum(t: real, n: int, u: real)
    requires t + n as real <= u
    ensures t.Floor + n <= u.Floor
  {
    assert (t.Floor + n) as real <= u;
  }

  lemma FloorMonotone(t: real, u: real)
    requires t <= u
    ensures t.Floor <= u.Floor
  {
    FloorSum(t, 0, u);
  }

  lemma RealGap(t: real, u: real, n: int)
    requires u.Floor - t.Floor >= n
    ensures u - t > n as real - 1.0
  {
    assert t < t.Floor as real + 1.0;
  }

  /** A miss on the latest entry of a key happens only after its spacing has passed. */
  lemma MissAfterSpacing(s: State, call: Call, last: Exchange, hash: string -> Digest, margin: int)
    requires call.Get? && !call.forced && Hit(s, call, hash, margin).None?
    requires var key := CacheKey(call.request.grant, hash); key in s.cache && s.cache[key] == EntryOf(last)
    requires last.token != ""
    ensures call.begun.Floor - last.written.Floor >= Spacing(last, margin)
  {
    if call.begun >= EntryOf(last).deadline {
      FloorSum(last.written, Ttl(last.expiresIn), call.begun);
    }
  }

  /** A new exchange of the key keeps its distance from every earlier one. */
  lemma NewExchangeSpaced(s: State, call: Call, i: nat, key: string, hash: string -> Digest, margin: int)
    requires Paced(s, key, hash, margin)
    requires call.Get? && CacheKey(call.request.grant, hash) == key && !call.forced && call.begun >= s.clock
    requires Hit(s, call, hash, margin).None?
    requires i < |s.log| && Concerns(s.log[i], key, hash) && s.log[i].token != ""
    ensures call.begun.Floor - s.log[i].written.Floor >= Spacing(s.log[i], margin)
  {
    var last := LastOf(s.log, key, hash, i);
    if last == i {
      MissAfterSpacing(s, call, s.log[i], hash, margin);
    } else {
      EarlierExchangeSpaced(s, call.begun, i, last, key, hash, margin);
    }
  }

  lemma EarlierExchangeSpaced(s: State, now: real, i: nat, later: nat, key: string, hash: string -> Digest, margin: int)
    requires Timed(s) && Spaced(s.log, key, hash, margin) && s.clock <= now
    requires i < later < |s.log| && Concerns(s.log[i], key, hash) && Concerns(s.log[later], key, hash)
    requires s.log[i].token != ""
    ensures now.Floor - s.log[i].written.Floor >= Spacing(s.log[i], margin)
  {
    SpacedPair(s.log, key, hash, margin, i, later);
    BegunBefore(s, later, now);
  }

  lemma BegunBefore(s: State, i: nat, now: real)
    requires Timed(s) && i < |s.log| && s.clock <= now
    ensures s.log[i].begun.Floor <= now.Floor
  {
    assert s.log[i].begun <= s.log[i].written <= s.clock;
    FloorMonotone(s.log[i].begun, now);
  }

  /** The next state after an exchange: one more entry in the log, and that entry in the cache. */
  ghost predicate Extends(s: State, next: State, added: Exchange, hash: string -> Digest) {
    && next.log == s.log + [added]
    && s.clock <= added.begun <= added.written == next.clock
    && next.cache == s.cache[CacheKey(added.request.grant, hash) := EntryOf(added)]
  }

  /** If the exchange concerns the key, it keeps its distance from every earlier one of the key. */
  ghost predicate FarFrom(log: seq<Exchange>, added: Exchange, key: string, hash: string -> Digest, margin: int) {
    Concerns(added, key, hash) ==>
      forall i :: 0 <= i < |log| && Concerns(log[i], key, hash) && log[i].token != "" ==>
                    added.begun.Floor - log[i].written.Floor >= Spacing(log[i], margin)
  }

  lemma ExchangeTimed(s: State, next: State, added: Exchange, hash: string -> Digest)
    requires Timed(s) && Extends(s, next, added, hash)
    ensures Timed(next)
  {
  }

  lemma ExchangeLatest(s: State, next: State, added: Exchange, key: string, hash: string -> Digest)
    requires Latest(s, key, hash) && Extends(s, next, added, hash)
    ensures Latest(next, key, hash)
  {
    SourceLast(s.log, added, key, hash);
  }

  lemma ExchangeSpaced(s: State, next: State, added: Exchange, key: string, hash: string -> Digest, margin: int)
    requires Spaced(s.log, key, hash, margin) && Extends(s, next, added, hash)
    requires FarFrom(s.log, added, key, hash, margin)
    ensures Spaced(next.log, key, hash, margin)
  {
  }

  /** A call without an exchange leaves the log and the key's entry alone. */
  ghost predicate Quiet(s: State, next: State, key: string) {
    && next.log == s.log && s.clock <= next.clock
    && (key in s.cache ==> key in next.cache && next.cache[key] == s.cache[key])
  }

  lemma QuietPaced(s: State, next: State, key: string, hash: string -> Digest, margin: int)
    requires Paced(s, key, hash, margin) && Quiet(s, next, key)
    ensures Paced(next, key, hash, margin)
  {
    assert Timed(next);
    assert Latest(next, key, hash);
  }

  /** The call misses the cache and makes an exchange. */
  ghost predicate Misses(s: State, call: Call, hash: string -> Digest, margin: int) {
    call.Get? && s.clock <= call.begun && Hit(s, call, hash, margin).None?
  }

  /** A call either makes no exchange or misses the cache and makes exactly one. */
  lemma ApplyCases(
      s: State, call: Call, key: string, hash: string -> Digest, margin: int)
    returns (added: Option<Exchange>)
    requires Gentle(call, key, hash)
    ensures var next := Apply(s, call, hash, margin);
            if added.None? then Quiet(s, next, key)
            else && Extends(s, next, added.value, hash) && Misses(s, call, hash, margin)
                 && added.value.request == call.request && added.value.begun == call.begun
  {
    added := None;
    if Misses(s, call, hash, margin) && call.begun <= call.written && call.m2m && call.reply.Some? {
      var reply := call.reply.value;
      added := Some(Exchange(call.begun, call.written, call.request, reply.token, reply.expiresIn));
    }
  }

  lemma MissPaced(s: State, call: Call, next: State, added: Exchange, key: string, hash: string -> Digest, margin: int)
    requires Paced(s, key, hash, margin) && Gentle(call, key, hash)
    requires Extends(s, next, added, hash) && Misses(s, call, hash, margin)
    requires added.request == call.request && added.begun == call.begun
    ensures Paced(next, key, hash, margin)
  {
    if Concerns(added, key, hash) {
      forall i: nat | i < |s.log| && Concerns(s.log[i], key, hash) && s.log[i].token != ""
        ensures added.begun.Floor - s.log[i].written.Floor >= Spacing(s.log[i], margin)
      {
        NewExchangeSpaced(s, call, i, key, hash, margin);
      }
    }
    ExchangeTimed(s, next, added, hash);
    ExchangeLatest(s, next, added, key, hash);
    ExchangeSpaced(s, next, added, key, hash, margin);
  }

  lemma ApplyPaced(s: State, call: Call, key: string, hash: string -> Digest, margin: int)
    requires Paced(s, key, hash, margin) && Gentle(call, key, hash)
    ensures Paced(Apply(s, call, hash, margin), key, hash, margin)
  {
    var next := Apply(s, call, hash, margin);
    var added := ApplyCases(s, call, key, hash, margin);
    if added.None? {
      QuietPaced(s, next, key, hash, margin);
    } else {
      MissPaced(s, call, next, added.value, key, hash, margin);
    }
  }

  lemma {:induction false} RunPaced(s: State, calls: seq<Call>, key: string, hash: string -> Digest, margin: int)
    requires Paced(s, key, hash, margin)
    requires AllGentle(calls, key, hash)
    ensures Paced(RunFrom(s, calls, hash, margin), key, hash, margin)
    decreases |calls|
  {
    if calls != [] {
      ApplyPaced(s, calls[0], key, hash, margin);
      assert forall k :: 0 <= k < |calls[1..]| ==> calls[1..][k] == calls[k + 1];
      RunPaced(Apply(s, calls[0], hash, margin), calls[1..], key, hash, margin);
    }
  }

  /**
   With no forced refresh, invalidation or early eviction of a key, an exchange of the key
   begins at least min(max(1, min(E, 300)), E - margin) seconds after an earlier one was
   written, where E is the lifetime of the earlier token, in whole seconds of the clock;
   and less than one second sooner than that in real time.
   */
  lemma ExchangesSpaced(
      calls: seq<Call>, key: string, hash: string -> Digest, margin: int, log: seq<Exchange>, i: nat, j: nat)
    requires AllGentle(calls, key, hash)
    requires Run(calls, hash, margin).log == log
    requires i < j < |log| && Concerns(log[i], key, hash) && Concerns(log[j], key, hash) && log[i].token != ""
    ensures var e := log[i].expiresIn;
            var ttl := if e < 1 then 1 else if e > 300 then 300 else e;
            var gap := if ttl < e - margin then ttl else e - margin;
            && log[j].begun.Floor - log[i].written.Floor >= gap
            && log[j].begun - log[i].written > gap as real - 1.0
  {
    RunPaced(EMPTY, calls, key, hash, margin);
    SpacedPair(log, key, hash, margin, i, j);
  }

  lemma SpacedPair(log: seq<Exchange>, key: string, hash: string -> Digest, margin: int, i: nat, j: nat)
    requires Spaced(log, key, hash, margin)
    requires i < j < |log| && Concerns(log[i], key, hash) && Concerns(log[j], key, hash) && log[i].token != ""
    ensures log[j].begun.Floor - log[i].written.Floor >= Spacing(log[i], margin)
    ensures log[j].begun - log[i].written > Spacing(log[i], margin) as real - 1.0
  {
    RealGap(log[i].written, log[j].begun, Spacing(log[i], margin));
  }

  /**
   When the cache is left alone, the latest token of a key is given out exactly as long as it
   is younger than min(max(1, E), 300) seconds, E being its lifetime, has more than the
   refresh margin left and is a token at all; and giving it out makes no exchange.
   */
  lemma HitIff(calls: seq<Call>, call: Call, latest: Exchange, hash: string -> Digest, margin: int)
    requires call.Get? && !call.forced && AllGentle(calls, CacheKey(call.request.grant, hash), hash)
    requires SourceOfHit(calls, call, hash, margin) == Some(latest)
    ensures var s, e := Run(calls, hash, margin), latest.expiresIn;
            && (Hit(s, call, hash, margin) == Some(latest.token)
                <==> && call.begun - latest.written < (if e < 1 then 1 else if e > 300 then 300 else e) as real
                     && latest.written.Floor + e - call.begun.Floor > margin && latest.token != "")
            && (Hit(s, call, hash, margin).Some? ==>
                  Hit(s, call, hash, margin) == Some(latest.token) && Apply(s, call, hash, margin).log == s.log)
  {
    RunPaced(EMPTY, calls, CacheKey(call.request.grant, hash), hash, margin);
  }

  /** In every run, also with forced refreshes and evictions, no token is given out from the cache later than that. */
  lemma NoHitAfterTtl(calls: seq<Call>, call: Call, hash: string -> Digest, margin: int)
    requires call.Get? && Hit(Run(calls, hash, margin), call, hash, margin).Some?
    ensures var source := SourceOfHit(calls, call, hash, margin);
            source.Some? && var e := source.value.expiresIn;
            call.begun - source.value.written < (if e < 1 then 1 else if e > 300 then 300 else e) as real
  {
    RunBacked(EMPTY, calls, hash, margin);
  }

  // ---------------------------------------------------------------- the repository

  class MCPDelegatedTokenRepository {
    const refreshMargin: int
    const hash: string -> Digest
    var cache: map<string, Entry>
    ghost var clock: real
    ghost var log: seq<Exchange>

    ghost function View(): State
      reads this
    {
      State(clock, cache, log)
    }

    constructor (hash: string -> Digest, refreshMargin: int := 60)
      ensures View() == EMPTY && this.hash == hash && this.refreshMargin == refreshMargin
    {
      this.hash, this.refreshMargin := hash, refreshMargin;
      cache, clock, log := map[], 0.0, [];
    }

    method GetAccessToken(
        begun: real, userId: UserId, audience: string, scopes: Scopes.Requested, context: Context,
        forceRefresh: bool, m2m: bool, written: real, reply: Option<Reply>)
      returns (token: Result<string, TokenError>)
      requires clock <= begun <= written
      modifies this
      ensures var grant := Grant(userId, audience, Scopes.Normalise(scopes));
              var call := Get(begun, Request(grant, context), forceRefresh, m2m, written, reply);
              var hit := Hit(old(View()), call, hash, refreshMargin);
              && View() == Apply(old(View()), call, hash, refreshMargin)
              && token == if hit.Some? then Success(hit.value)
                          else if !m2m then Failure(NoM2MToken)
                          else if reply.None? then Failure(ExchangeFailed)
                          else Success(reply.value.token)
      ensures var key := "mcp:token:" + (userId + ":" + (audience + ":" + hash(Scopes.Normalise(scopes))));
              if && !forceRefresh && key in old(cache) && begun < old(cache)[key].deadline
                 && old(cache)[key].expiresAt - begun.Floor > refreshMargin && old(cache)[key].token != ""
              then token == Success(old(cache)[key].token) && cache == old(cache) && log == old(log)
              else if !m2m then token == Failure(NoM2MToken) && cache == old(cache) && log == old(log)
              else if reply.None? then token == Failure(ExchangeFailed) && cache == old(cache) && log == old(log)
              else
                var e := reply.value.expiresIn;
                var ttl := if e < 1 then 1 else if e > 300 then 300 else e;
                && token == Success(reply.value.token)
                && cache == old(cache)[key := Entry(reply.value.token, written.Floor + e, written + ttl as real)]
                && |log| == |old(log)| + 1 && log[..|old(log)|] == old(log)
                && log[|old(log)|].token == reply.value.token && log[|old(log)|].request.context == context
    {
      var grant := Grant(userId, audience, Scopes.Normalise(scopes));
      var key := CacheKey(grant, hash);
      clock := begun;
      if !forceRefresh {
        var cached := ReadCache(cache, key, begun);
        if cached.Some? && cached.value.expiresAt - begun.Floor > refreshMargin {
          if cached.value.token != "" {
            return Success(cached.value.token);
          }
        }
      }
      if !m2m {
        return Failure(NoM2MToken);
      }
      if reply.None? {
        return Failure(ExchangeFailed);
      }
      var expiresAt := written.Floor + reply.value.expiresIn;
      var ttl := Max(1, Min(reply.value.expiresIn, DEFAULT_TOKEN_CACHE_TTL));
      cache := cache[key := Entry(reply.value.token, expiresAt, written + ttl as real)];
      log := log + [Exchange(begun, written, Request(grant, context), reply.value.token, reply.value.expiresIn)];
      clock := written;
      return Success(reply.value.token);
    }

    method InvalidateToken(userId: UserId, audience: string, scopes: Scopes.Requested)
      modifies this
      ensures var grant := Grant(userId, audience, Scopes.Normalise(scopes));
              View() == Apply(old(View()), Invalidate(grant), hash, refreshMargin)
      ensures cache == old(cache) - {"mcp:token:" + (userId + ":" + (audience + ":" + hash(Scopes.Normalise(scopes))))}
    {
      cache := cache - {CacheKey(Grant(userId, audience, Scopes.Normalise(scopes)), hash)};
    }
  }
}
