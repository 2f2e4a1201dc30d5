/** The model service: a fallback chain over shared circuit breakers, in front of a response cache. */
module FallbackChain {
  import opened Breaker
  import opened Wrappers

  datatype Tier = Reasoning | Fast | Vision

  datatype Degradation = CircuitOpen | BudgetExceeded | TierDowngrade | RuleEngineFallback | CacheServed | Unavailable

  datatype Provider = Provider(name: string, model: string, fake: bool)

  datatype Message = Message(role: string, content: string, images: seq<string>)

  datatype Request = Request(tier: Tier, pack: string, messages: seq<Message>, schema: Option<string>)

  datatype Completion = Completion(
    text: string, tierRequested: Tier, tierUsed: Tier, provider: string, truncated: bool,
    degradations: seq<Degradation>, fromCache: bool, cacheAge: Option<int>)

  /** What a provider call comes back with: text, or an error the chain can absorb. */
  datatype Reply = Answer(text: string, truncated: bool) | LLMError

  /** One visit to a provider: the clock when the breaker is asked, the reply if the call is
    * made, the clock when the outcome is reported. */
  datatype Visit = Visit(asked: real, reply: Reply, reported: real)

  datatype ServiceConfig = ServiceConfig(chains: map<Tier, seq<Provider>>, breaker: Config)

  datatype Outcome = Served(completion: Completion) | LLMUnavailable | TierNotDeclared

  // ------------------------------------------------------------------
  // Breakers by name
  // ------------------------------------------------------------------

  datatype Entry = Entry(config: Config, status: Status)

  type Bank = map<string, Entry>

  function BreakerName(p: Provider): string { "llm:" + p.name + ":" + p.model }

  function Lookup(bank: Bank, name: string, c: Config): Entry {
    if name in bank then bank[name] else Entry(c, FRESH)
  }

  datatype Attempt = Skipped | Errored | Answered(text: string, truncated: bool)

  function AttemptOf(e: Entry, v: Visit): Attempt {
    if !Admits(e.config, e.status, v.asked) then Skipped
    else if v.reply.LLMError? then Errored
    else Answered(v.reply.text, v.reply.truncated)
  }

  /** The breaker after one visit: asked once and, if admitted, settled once. */
  function Settled(e: Entry, v: Visit): Entry {
    var asked := BeforeCallStep(e.config, e.status, v.asked);
    match AttemptOf(e, v)
    case Skipped => e.(status := asked)
    case Errored => e.(status := FailureStep(e.config, asked, v.reported))
    case Answered(_, _) => e.(status := SuccessStep(e.config, asked))
  }

  function TryBank(bank: Bank, p: Provider, c: Config, v: Visit): Bank {
    bank[BreakerName(p) := Settled(Lookup(bank, BreakerName(p), c), v)]
  }

  function TryAttempt(bank: Bank, p: Provider, c: Config, v: Visit): Attempt {
    AttemptOf(Lookup(bank, BreakerName(p), c), v)
  }

  class BreakerRegistry {
    var breakers: map<string, CircuitBreaker>

    ghost function Objects(): set<CircuitBreaker>
      reads this
    {
      breakers.Values
    }

    /** The same name always means the same object, different names different objects. */
    ghost predicate Valid()
      reads this
    {
      forall j, k :: j in breakers && k in breakers && j != k ==> breakers[j] != breakers[k]
    }

    ghost function Contents(): Bank
      reads this, Objects()
    {
      map k | k in breakers :: Entry(breakers[k].config, breakers[k].Now())
    }

    constructor ()
      ensures Valid() && Contents() == map[] && Objects() == {}
    {
      breakers := map[];
    }

    method Get(name: string, config: Config) returns (b: CircuitBreaker)
      requires Valid()
      modifies this
      ensures Valid() && name in breakers && breakers[name] == b
      ensures b in Objects() && (Objects() == old(Objects()) || fresh(b))
      ensures forall k :: k in breakers <==> k in old(breakers) || k == name
      ensures forall k :: k in old(breakers) ==> breakers[k] == old(breakers[k])
      ensures forall k :: k in Contents() <==> k in old(Contents()) || k == name
      ensures Contents() == old(Contents())[name := Lookup(old(Contents()), name, config)]
    {
      if name !in breakers {
        var made := new CircuitBreaker(config);
        breakers := breakers[name := made];
      }
      b := breakers[name];
    }

    /** One round of the chain on the breaker of that name. */
    method Visit(p: Provider, config: Config, v: Visit) returns (a: Attempt)
      requires Valid()
      modifies this, Objects()
      ensures Valid() && fresh(Objects() - old(Objects()))
      ensures a == TryAttempt(old(Contents()), p, config, v)
      ensures Contents() == TryBank(old(Contents()), p, config, v)
    {
      hide Settled, AttemptOf;
      var b := Get(BreakerName(p), config);
      a := CallGuarded(b, v);
      assert forall k :: k in breakers && k != BreakerName(p) ==> breakers[k] != b;
    }
  }

  /** Ask the breaker, call the provider if admitted, report the outcome. */
  method CallGuarded(b: CircuitBreaker, v: Visit) returns (a: Attempt)
    modifies b
    ensures a == AttemptOf(Entry(b.config, old(b.Now())), v)
    ensures Entry(b.config, b.Now()) == Settled(Entry(b.config, old(b.Now())), v)
  {
    hide Admits, BeforeCallStep, SuccessStep, FailureStep;
    var admitted, _ := b.BeforeCall(v.asked);
    if !admitted {
      return Skipped;
    }
    match v.reply {
      case LLMError =>
        b.OnFailure(v.reported);
        return Errored;
      case Answer(text, truncated) =>
        b.OnSuccess();
        return Answered(text, truncated);
    }
  }

  // ------------------------------------------------------------------
  // The chain as one flat list
  // ------------------------------------------------------------------

  /** A place in the search: which tier's chain, which position in it, which provider. */
  datatype Link = Link(tier: Tier, position: nat, provider: Provider)

  function Downgrade(t: Tier): Option<Tier> {
    if t == Reasoning then Some(Fast) else None
  }

  function Rank(t: Tier): nat { if t == Reasoning then 1 else 0 }

  function ChainLinks(cfg: ServiceConfig, t: Tier): (r: seq<Link>)
    requires t in cfg.chains
    ensures |r| == |cfg.chains[t]|
  {
    seq(|cfg.chains[t]|, i requires 0 <= i < |cfg.chains[t]| => Link(t, i, cfg.chains[t][i]))
  }

  /** Every place a request may be answered from, in order: the requested chain and, for a reasoning
    * request, the fast chain after it. */
  function FlatLinks(cfg: ServiceConfig, t: Tier): seq<Link>
    requires t in cfg.chains
  {
    ChainLinks(cfg, t) + if t == Reasoning && Fast in cfg.chains then ChainLinks(cfg, Fast) else []
  }

  /** The breakers after visiting the first `n` links, whatever came back. */
  function BankAfter(links: seq<Link>, c: Config, bank: Bank, world: nat -> Visit, n: nat): Bank
    requires n <= |links|
  {
    if n == 0 then bank
    else TryBank(BankAfter(links, c, bank, world, n - 1), links[n - 1].provider, c, world(n - 1))
  }

  /** What the i-th link does when the first i have been visited. */
  function AttemptAt(links: seq<Link>, c: Config, bank: Bank, world: nat -> Visit, i: nat): Attempt
    requires i < |links|
  {
    TryAttempt(BankAfter(links, c, bank, world, i), links[i].provider, c, world(i))
  }

  /** `m` is the first link that is admitted and succeeds. */
  predicate FirstAnswer(links: seq<Link>, c: Config, bank: Bank, world: nat -> Visit, m: nat) {
    && m < |links|
    && AttemptAt(links, c, bank, world, m).Answered?
    && forall i :: 0 <= i < m ==> !AttemptAt(links, c, bank, world, i).Answered?
  }

  predicate NoAnswer(links: seq<Link>, c: Config, bank: Bank, world: nat -> Visit) {
    forall i :: 0 <= i < |links| ==> !AttemptAt(links, c, bank, world, i).Answered?
  }

  /** One `circuit_open` per breaker that refused among the first `n` links. */
  function Skips(links: seq<Link>, c: Config, bank: Bank, world: nat -> Visit, n: nat): seq<Degradation>
    requires n <= |links|
  {
    if n == 0 then []
    else Skips(links, c, bank, world, n - 1)
         + if AttemptAt(links, c, bank, world, n - 1).Skipped? then [CircuitOpen] else []
  }

  /** What answering from a link adds: truncation, a lower tier, a later position, no model at all. */
  function Marks(requested: Tier, link: Link, truncated: bool): seq<Degradation> {
    (if truncated then [BudgetExceeded] else [])
    + (if link.tier != requested then [TierDowngrade] else [])
    + (if link.position > 0 then [TierDowngrade] else [])
    + (if link.provider.fake then [RuleEngineFallback] else [])
  }

  const FAKE_NAME := "fake"

  /** The name an answer carries: the fake adapter's own, whatever the configured entry is called. */
  function ProviderUsed(p: Provider): string { if p.fake then FAKE_NAME else p.name }

  /** Both adapters stamp the requested tier as the tier used, even after a downgrade. */
  function CompletionFrom(requested: Tier, link: Link, text: string, truncated: bool): Completion {
    Completion(text, requested, requested, ProviderUsed(link.provider), truncated, [], false, None)
  }

  datatype ChainResult = Answer(completion: Completion, degradations: seq<Degradation>)
                       | Exhausted(degradations: seq<Degradation>)

  class ModelService {
    const config: ServiceConfig
    const registry: BreakerRegistry

    constructor (config: ServiceConfig, registry: BreakerRegistry)
      ensures this.config == config && this.registry == registry
    {
      this.config := config;
      this.registry := registry;
    }

    /** Search from one tier on, falling through to the lower tier. `visited` counts the links already
      * visited by the callers of this call; `links` is the flat list of the whole request. */
    method RunChain(requested: Tier, tier: Tier, degradations: seq<Degradation>, visited: nat,
                    world: nat -> Visit, ghost links: seq<Link>, ghost bank: Bank)
      returns (r: ChainResult)
      requires registry.Valid() && tier in config.chains
      requires visited <= |links| && links[visited..] == FlatLinks(config, tier)
      requires Searched(links, config.breaker, bank, world, visited, registry.Contents(), degradations)
      modifies registry, registry.Objects()
      ensures registry.Valid() && fresh(registry.Objects() - old(registry.Objects()))
      ensures Concludes(requested, links, config.breaker, bank, world, r, registry.Contents())
      decreases Rank(tier)
    {
      hide Searched, Concludes, Marks, CompletionFrom, TryBank, TryAttempt;
      var chain := config.chains[tier];
      var degs := degradations;
      for position := 0 to |chain|
        invariant registry.Valid() && fresh(registry.Objects() - old(registry.Objects()))
        invariant visited + position <= |links|
        invariant Searched(links, config.breaker, bank, world, visited + position, registry.Contents(), degs)
      {
        var provider := chain[position];
        var link := Link(tier, position, provider);
        assert links[visited + position] == links[visited..][position] == link;
        ghost var before := registry.Contents();
        var a := registry.Visit(provider, config.breaker, world(visited + position));
        SearchedStep(requested, links, config.breaker, bank, world, visited + position, before, degs, a);
        match a {
          case Skipped => degs := degs + [CircuitOpen];
          case Errored =>
          case Answered(text, truncated) =>
            degs := degs + Marks(requested, link, truncated);
            r := ChainResult.Answer(CompletionFrom(requested, link, text, truncated), degs);
            return;
        }
      }
      var lower := Downgrade(tier);
      assert links[visited + |chain|..] == links[visited..][|chain|..];
      if lower.Some? && lower.value in config.chains {
        r := RunChain(requested, lower.value, degs, visited + |chain|, world, links, bank);
      } else {
        SearchedAll(requested, links, config.breaker, bank, world, registry.Contents(), degs);
        r := Exhausted(degs + [Unavailable]);
      }
    }
  }

  /** The first `n` links have been visited without an answer. */
  ghost predicate Searched(links: seq<Link>, c: Config, bank: Bank, world: nat -> Visit, n: nat,
                           contents: Bank, degs: seq<Degradation>)
  {
    && n <= |links|
    && contents == BankAfter(links, c, bank, world, n)
    && degs == Skips(links, c, bank, world, n)
    && forall i :: 0 <= i < n ==> !AttemptAt(links, c, bank, world, i).Answered?
  }

  /** The search is over: at the first answer, or past every link. */
  ghost predicate Concludes(requested: Tier, links: seq<Link>, c: Config, bank: Bank, world: nat -> Visit,
                            r: ChainResult, contents: Bank)
  {
    match r
    case Answer(_, _) =>
      exists m: nat :: FirstAnswer(links, c, bank, world, m)
                       && r == AnswerAt(requested, links, c, bank, world, m)
                       && contents == BankAfter(links, c, bank, world, m + 1)
    case Exhausted(degs) =>
      && NoAnswer(links, c, bank, world)
      && contents == BankAfter(links, c, bank, world, |links|)
      && degs == Skips(links, c, bank, world, |links|) + [Unavailable]
  }

  lemma SearchedStep(requested: Tier, links: seq<Link>, c: Config, bank: Bank, world: nat -> Visit, n: nat,
                     contents: Bank, degs: seq<Degradation>, a: Attempt)
    requires n < |links| && Searched(links, c, bank, world, n, contents, degs)
    requires a == TryAttempt(contents, links[n].provider, c, world(n))
    ensures
      var after := TryBank(contents, links[n].provider, c, world(n));
      match a
      case Skipped => Searched(links, c, bank, world, n + 1, after, degs + [CircuitOpen])
      case Errored => Searched(links, c, bank, world, n + 1, after, degs)
      case Answered(text, truncated) =>
        Concludes(requested, links, c, bank, world,
          ChainResult.Answer(CompletionFrom(requested, links[n], text, truncated),
                             degs + Marks(requested, links[n], truncated)),
          after)
  {
    hide TryBank, TryAttempt, Marks, CompletionFrom;
    assert a == AttemptAt(links, c, bank, world, n);
    if a.Answered? { assert FirstAnswer(links, c, bank, world, n); }
  }

  lemma SearchedAll(requested: Tier, links: seq<Link>, c: Config, bank: Bank, world: nat -> Visit,
                    contents: Bank, degs: seq<Degradation>)
    requires Searched(links, c, bank, world, |links|, contents, degs)
    ensures Concludes(requested, links, c, bank, world, Exhausted(degs + [Unavailable]), contents)
  {
  }

  function AnswerAt(requested: Tier, links: seq<Link>, c: Config, bank: Bank, world: nat -> Visit, m: nat): ChainResult
    requires m < |links| && AttemptAt(links, c, bank, world, m).Answered?
  {
    var a := AttemptAt(links, c, bank, world, m);
    ChainResult.Answer(CompletionFrom(requested, links[m], a.text, a.truncated),
                       Skips(links, c, bank, world, m) + Marks(requested, links[m], a.truncated))
  }

  // ------------------------------------------------------------------
  // The response cache
  // ------------------------------------------------------------------

  datatype CacheEntry = CacheEntry(completion: Completion, storedAt: real)

  function TierName(t: Tier): string {
    match t case Reasoning => "reasoning" case Fast => "fast" case Vision => "vision"
  }

  /** Messages as hashed: one `role:content` line each. Images and schema are not part of it. */
  function Payload(messages: seq<Message>): string {
    if messages == [] then ""
    else if |messages| == 1 then messages[0].role + ":" + messages[0].content
    else
      var last := messages[|messages| - 1];
      Payload(messages[..|messages| - 1]) + "\n" + last.role + ":" + last.content
  }

  /** Python's `int()` on a non-negative or negative age: truncation toward zero. */
  function WholeSeconds(age: real): int { if age >= 0.0 then age.Floor else -((-age).Floor) }

  function CachedAnswer(entries: map<string, CacheEntry>, key: string, ttl: real, now: real): Option<Completion> {
    if key !in entries || now - entries[key].storedAt > ttl then None
    else
      var c := entries[key].completion;
      Some(c.(fromCache := true, cacheAge := Some(WholeSeconds(now - entries[key].storedAt)),
              degradations := c.degradations + [CacheServed]))
  }

  function Evict(entries: map<string, CacheEntry>, key: string, ttl: real, now: real): map<string, CacheEntry> {
    if key in entries && now - entries[key].storedAt > ttl then map k | k in entries && k != key :: entries[k]
    else entries
  }

  function KeyOf(digest: string -> string, r: Request): string {
    TierName(r.tier) + ":" + r.pack + ":" + digest(Payload(r.messages))
  }

  /** What requests do to the cache: look a key up, or store an answer under it. */
  datatype CacheEvent = Look(key: string, at: real) | Store(key: string, completion: Completion, at: real)

  function CacheRun(entries: map<string, CacheEntry>, ttl: real, es: seq<CacheEvent>): map<string, CacheEntry> {
    if es == [] then entries
    else
      var before := CacheRun(entries, ttl, es[..|es| - 1]);
      match es[|es| - 1]
      case Look(key, at) => Evict(before, key, ttl, at)
      case Store(key, c, at) => before[key := CacheEntry(c, at)]
  }

  /** One request: a lookup and, when it found an answer elsewhere, a store. */
  function RequestEvents(key: string, readAt: real, answer: Option<Completion>, storedAt: real): seq<CacheEvent> {
    [Look(key, readAt)] + if answer.Some? then [Store(key, answer.value, storedAt)] else []
  }

  class ResponseCache {
    const ttl: real
    const digest: string -> string
    var entries: map<string, CacheEntry>
    var hits: nat
    var misses: nat

    constructor (ttl: real, digest: string -> string)
      ensures this.ttl == ttl && this.digest == digest && entries == map[] && hits == misses == 0
      ensures OnlyFresh(entries)
    {
      this.ttl := ttl;
      this.digest := digest;
      entries, hits, misses := map[], 0, 0;
    }

    function Key(r: Request): string { KeyOf(digest, r) }

    method Get(r: Request, now: real) returns (hit: Option<Completion>)
      modifies this
      ensures hit == CachedAnswer(old(entries), Key(r), ttl, now)
      ensures entries == Evict(old(entries), Key(r), ttl, now)
      ensures if hit.Some? then hits == old(hits) + 1 && misses == old(misses)
              else hits == old(hits) && misses == old(misses) + 1
    {
      if Key(r) !in entries {
        misses := misses + 1;
        return None;
      }
      var entry := entries[Key(r)];
      var age := now - entry.storedAt;
      if age > ttl {
        entries := map k | k in entries && k != Key(r) :: entries[k];
        misses := misses + 1;
        return None;
      }
      hits := hits + 1;
      hit := Some(entry.completion.(fromCache := true, cacheAge := Some(WholeSeconds(age)),
                                    degradations := entry.completion.degradations + [CacheServed]));
    }

    method Put(r: Request, c: Completion, now: real)
      modifies this`entries
      ensures entries == old(entries)[Key(r) := CacheEntry(c, now)]
    {
      entries := entries[Key(r) := CacheEntry(c, now)];
    }
  }

  ghost predicate NoRepeats(ds: seq<Degradation>) {
    forall i, j :: 0 <= i < j < |ds| ==> ds[i] != ds[j]
  }

  /** What every served completion says of itself: nothing twice, `cache_served` exactly when it
    * comes from the cache, `budget_exceeded` exactly when it is truncated. */
  ghost predicate Honest(c: Completion) {
    && NoRepeats(c.degradations)
    && (CacheServed in c.degradations <==> c.fromCache)
    && (BudgetExceeded in c.degradations <==> c.truncated)
  }

  /** Every stored answer is honest and none was itself served from the cache. */
  ghost predicate OnlyFresh(entries: map<string, CacheEntry>) {
    forall k :: k in entries ==> Honest(entries[k].completion) && !entries[k].completion.fromCache
  }

  // ------------------------------------------------------------------
  // Generate
  // ------------------------------------------------------------------

  /** First occurrences, in order. */
  function Dedupe(ds: seq<Degradation>): (r: seq<Degradation>)
    ensures forall d :: d in r <==> d in ds
    ensures forall i, j :: 0 <= i < j < |r| ==> r[i] != r[j]
    ensures ds == [] <==> r == []
  {
    if ds == [] then []
    else
      assert ds == ds[..|ds| - 1] + [ds[|ds| - 1]];
      var r := Dedupe(ds[..|ds| - 1]);
      if ds[|ds| - 1] in r then r else r + [ds[|ds| - 1]]
  }

  function Finish(r: ChainResult): Completion
    requires r.Answer?
  {
    if r.degradations == [] then r.completion
    else r.completion.(degradations := Dedupe(r.completion.degradations + r.degradations))
  }

  /** Outcome of a request that missed the cache, over the flat list of links. */
  ghost predicate FlatSearch(cfg: ServiceConfig, requested: Tier, bank: Bank, world: nat -> Visit,
                             o: Outcome, contents: Bank)
  {
    match o
    case TierNotDeclared => requested !in cfg.chains && contents == bank
    case LLMUnavailable =>
      && requested in cfg.chains
      && NoAnswer(FlatLinks(cfg, requested), cfg.breaker, bank, world)
      && contents == BankAfter(FlatLinks(cfg, requested), cfg.breaker, bank, world, |FlatLinks(cfg, requested)|)
    case Served(c) =>
      requested in cfg.chains
      && exists m: nat :: AnsweredBy(cfg, requested, bank, world, m, c, contents)
  }

  ghost predicate AnsweredBy(cfg: ServiceConfig, requested: Tier, bank: Bank, world: nat -> Visit, m: nat,
                             c: Completion, contents: Bank)
    requires requested in cfg.chains
  {
    var links := FlatLinks(cfg, requested);
    && FirstAnswer(links, cfg.breaker, bank, world, m)
    && c == Finish(AnswerAt(requested, links, cfg.breaker, bank, world, m))
    && contents == BankAfter(links, cfg.breaker, bank, world, m + 1)
  }

  /** The answer is the real model's at the head of the requested chain. */
  ghost predicate FromRealHead(cfg: ServiceConfig, requested: Tier, c: Completion) {
    && requested in cfg.chains && cfg.chains[requested] != []
    && c.provider == cfg.chains[requested][0].name && !cfg.chains[requested][0].fake
  }

  /** `generate`: answer from the cache, or search the chain and store the answer. `cache` is
    * null when caching is disabled. Whatever is served is honest about itself, and one without
    * degradations is a fresh, untruncated answer of the real head provider. */
  method Generate(service: ModelService, cache: ResponseCache?, r: Request, world: nat -> Visit,
                  readAt: real, storedAt: real) returns (o: Outcome)
    requires service.registry.Valid()
    requires cache != null ==> OnlyFresh(cache.entries)
    modifies cache, service.registry, service.registry.Objects()
    ensures service.registry.Valid()
    ensures cache != null ==> OnlyFresh(cache.entries)
    ensures o.Served? ==> Honest(o.completion)
    ensures o.Served? && o.completion.degradations == [] ==>
              !o.completion.fromCache && !o.completion.truncated && FromRealHead(service.config, r.tier, o.completion)
    ensures cache != null && CachedAnswer(old(cache.entries), cache.Key(r), cache.ttl, readAt).Some? ==>
              && o == Served(CachedAnswer(old(cache.entries), cache.Key(r), cache.ttl, readAt).value)
              && cache.entries == old(cache.entries)
              && service.registry.Contents() == old(service.registry.Contents())
    ensures cache == null || CachedAnswer(old(cache.entries), cache.Key(r), cache.ttl, readAt).None? ==>
              FlatSearch(service.config, r.tier, old(service.registry.Contents()), world, o,
                         service.registry.Contents())
    ensures (cache == null || CachedAnswer(old(cache.entries), cache.Key(r), cache.ttl, readAt).None?)
            && r.tier in service.config.chains ==>
              AnswersInOrder(service.config, r.tier, old(service.registry.Contents()), world, o)
    ensures cache != null ==>
              var missed := CachedAnswer(old(cache.entries), cache.Key(r), cache.ttl, readAt).None?;
              var stored := if missed && o.Served? then Some(o.completion) else None;
              cache.entries == CacheRun(old(cache.entries), cache.ttl,
                                        RequestEvents(cache.Key(r), readAt, stored, storedAt))
  {
    hide CachedAnswer, Evict, FlatSearch, AnswersInOrder, OnlyFresh, Honest, FromRealHead, CacheRun, RequestEvents;
    ghost var bank := service.registry.Contents();
    if cache != null {
      CacheRunRequest(cache.entries, cache.ttl, cache.Key(r), readAt, None, storedAt);
      HitKeepsEntries(cache.entries, cache.Key(r), cache.ttl, readAt);
      HitIsHonest(cache.entries, cache.Key(r), cache.ttl, readAt);
      var hit := cache.Get(r, readAt);
      assert service.registry.Contents() == bank;
      if hit.Some? { return Served(hit.value); }
    }
    o := Search(service, r.tier, world);
    ghost var contents := service.registry.Contents();
    if o.Served? { SearchIsHonest(service.config, r.tier, bank, world, o.completion, contents); }
    if o.Served? && cache != null {
      StoreKeepsFresh(cache.entries, cache.Key(r), o.completion, storedAt);
      CacheRunRequest(old(cache.entries), cache.ttl, cache.Key(r), readAt, Some(o.completion), storedAt);
      cache.Put(r, o.completion, storedAt);
    }
    assert service.registry.Contents() == contents;
  }

  lemma HitKeepsEntries(entries: map<string, CacheEntry>, key: string, ttl: real, now: real)
    ensures CachedAnswer(entries, key, ttl, now).Some? ==> Evict(entries, key, ttl, now) == entries
  {
  }

  /** Who answers, written out: the first of the requested tier's providers that is admitted and succeeds;
    * for a reasoning request none of whose providers answers, the first such one of the fast tier, if
    * that is declared; and nobody else. */
  ghost predicate AnswersInOrder(cfg: ServiceConfig, requested: Tier, bank: Bank, world: nat -> Visit, o: Outcome)
    requires requested in cfg.chains
  {
    var own := ChainLinks(cfg, requested);
    if requested == Reasoning && Fast in cfg.chains then
      var both := own + ChainLinks(cfg, Fast);
      && (NoAnswer(both, cfg.breaker, bank, world) ==> o.LLMUnavailable?)
      && (forall m: nat :: FirstAnswer(both, cfg.breaker, bank, world, m) ==>
            && o.Served? && world(m).reply == Reply.Answer(o.completion.text, o.completion.truncated)
            && if m < |own| then o.completion.provider == ProviderUsed(cfg.chains[Reasoning][m])
               else o.completion.provider == ProviderUsed(cfg.chains[Fast][m - |own|])
                    && TierDowngrade in o.completion.degradations)
    else
      && (NoAnswer(own, cfg.breaker, bank, world) ==> o.LLMUnavailable?)
      && (forall m: nat :: FirstAnswer(own, cfg.breaker, bank, world, m) ==>
            && o.Served? && world(m).reply == Reply.Answer(o.completion.text, o.completion.truncated)
            && o.completion.provider == ProviderUsed(cfg.chains[requested][m])
            && (TierDowngrade in o.completion.degradations <==> m > 0))
  }

  lemma SearchAnswersInOrder(cfg: ServiceConfig, requested: Tier, bank: Bank, world: nat -> Visit, o: Outcome,
                             contents: Bank)
    requires requested in cfg.chains && FlatSearch(cfg, requested, bank, world, o, contents)
    ensures AnswersInOrder(cfg, requested, bank, world, o)
  {
    hide FlatSearch, FirstAnswer, NoAnswer;
    var own, links := ChainLinks(cfg, requested), FlatLinks(cfg, requested);
    assert own + [] == own;
    forall m: nat | FirstAnswer(links, cfg.breaker, bank, world, m)
      ensures FirstServed(links, m, requested, world, o)
    {
      FirstIsServed(cfg, requested, bank, world, o, contents, m);
    }
    NobodyServed(cfg, requested, bank, world, o, contents);
  }

  /** The m-th link's reply is what was served, under its name and marked for its place. */
  ghost predicate FirstServed(links: seq<Link>, m: nat, requested: Tier, world: nat -> Visit, o: Outcome) {
    && m < |links| && o.Served?
    && world(m).reply == Reply.Answer(o.completion.text, o.completion.truncated)
    && o.completion.provider == ProviderUsed(links[m].provider)
    && (TierDowngrade in o.completion.degradations <==> !AtHead(requested, links[m]))
  }

  lemma FirstIsServed(cfg: ServiceConfig, requested: Tier, bank: Bank, world: nat -> Visit, o: Outcome,
                      contents: Bank, m: nat)
    requires requested in cfg.chains && FlatSearch(cfg, requested, bank, world, o, contents)
    requires FirstAnswer(FlatLinks(cfg, requested), cfg.breaker, bank, world, m)
    ensures FirstServed(FlatLinks(cfg, requested), m, requested, world, o)
  {
    hide AttemptAt, BankAfter, Finish, Marks, Skips, FlatLinks;
    var links := FlatLinks(cfg, requested);
    var n: nat :| AnsweredBy(cfg, requested, bank, world, n, o.completion, contents);
    assert m == n;
    DegradationsExact(requested, links, cfg.breaker, bank, world, m);
    AnswerIsReply(requested, links, cfg.breaker, bank, world, m);
  }

  lemma NobodyServed(cfg: ServiceConfig, requested: Tier, bank: Bank, world: nat -> Visit, o: Outcome, contents: Bank)
    requires requested in cfg.chains && FlatSearch(cfg, requested, bank, world, o, contents)
    ensures NoAnswer(FlatLinks(cfg, requested), cfg.breaker, bank, world) ==> o.LLMUnavailable?
  {
    hide AttemptAt, BankAfter, Finish, FlatLinks, AnswerAt;
  }

  lemma AnswerIsReply(requested: Tier, links: seq<Link>, c: Config, bank: Bank, world: nat -> Visit, m: nat)
    requires FirstAnswer(links, c, bank, world, m)
    ensures var done := Finish(AnswerAt(requested, links, c, bank, world, m));
            world(m).reply == Reply.Answer(done.text, done.truncated)
  {
  }

  method Search(service: ModelService, requested: Tier, world: nat -> Visit) returns (o: Outcome)
    requires service.registry.Valid()
    modifies service.registry, service.registry.Objects()
    ensures service.registry.Valid()
    ensures FlatSearch(service.config, requested, old(service.registry.Contents()), world, o,
                       service.registry.Contents())
    ensures requested in service.config.chains ==>
              AnswersInOrder(service.config, requested, old(service.registry.Contents()), world, o)
  {
    hide Finish, FlatLinks, AnswerAt, NoAnswer, AnswersInOrder;
    if requested !in service.config.chains { return TierNotDeclared; }
    ghost var bank, links := service.registry.Contents(), FlatLinks(service.config, requested);
    assert links[0..] == links;
    var r := service.RunChain(requested, requested, [], 0, world, links, bank);
    match r {
      case Exhausted(_) => o := LLMUnavailable;
      case Answer(completion, degradations) =>
        o := Served(Finish(r));
        ghost var c, contents := service.config.breaker, service.registry.Contents();
        ghost var m: nat :| FirstAnswer(links, c, bank, world, m)
                            && r == AnswerAt(requested, links, c, bank, world, m)
                            && contents == BankAfter(links, c, bank, world, m + 1);
        assert AnsweredBy(service.config, requested, bank, world, m, o.completion, service.registry.Contents());
    }
    SearchAnswersInOrder(service.config, requested, bank, world, o, service.registry.Contents());
  }

  // ------------------------------------------------------------------
  // What the degradations say
  // ------------------------------------------------------------------

  lemma {:induction false} SkipsExact(links: seq<Link>, c: Config, bank: Bank, world: nat -> Visit, n: nat)
    requires n <= |links|
    ensures forall d :: d in Skips(links, c, bank, world, n) ==> d == CircuitOpen
    ensures Skips(links, c, bank, world, n) != []
            <==> exists i :: 0 <= i < n && AttemptAt(links, c, bank, world, i).Skipped?
  {
    hide AttemptAt;
    if n == 0 {
    } else {
      SkipsExact(links, c, bank, world, n - 1);
      if AttemptAt(links, c, bank, world, n - 1).Skipped? {
        assert Skips(links, c, bank, world, n) != [];
      }
    }
  }

  /** The head of the request: first place of the requested tier's own chain. */
  predicate AtHead(requested: Tier, link: Link) { link.tier == requested && link.position == 0 }

  lemma MarksExact(requested: Tier, link: Link, truncated: bool)
    ensures
      var ms := Marks(requested, link, truncated);
      && (BudgetExceeded in ms <==> truncated)
      && (TierDowngrade in ms <==> !AtHead(requested, link))
      && (RuleEngineFallback in ms <==> link.provider.fake)
      && CircuitOpen !in ms && CacheServed !in ms && Unavailable !in ms
  {
  }

  /** A fresh answer's degradations are duplicate-free and say exactly whether a breaker was
    * skipped, the answer is truncated, off the head, or from the fake; an empty list means a
    * fresh, untruncated answer from the real head provider. */
  lemma DegradationsExact(requested: Tier, links: seq<Link>, c: Config, bank: Bank, world: nat -> Visit, m: nat)
    requires FirstAnswer(links, c, bank, world, m)
    ensures
      var done := Finish(AnswerAt(requested, links, c, bank, world, m));
      var ds := done.degradations;
      && (forall i, j :: 0 <= i < j < |ds| ==> ds[i] != ds[j])
      && (CircuitOpen in ds <==> exists i :: 0 <= i < m && AttemptAt(links, c, bank, world, i).Skipped?)
      && (BudgetExceeded in ds <==> done.truncated)
      && (TierDowngrade in ds <==> !AtHead(requested, links[m]))
      && (RuleEngineFallback in ds <==> links[m].provider.fake)
      && CacheServed !in ds && Unavailable !in ds && !done.fromCache
      && done.provider == (if links[m].provider.fake then "fake" else links[m].provider.name)
      && done.tierRequested == done.tierUsed == requested
      && (ds == [] <==> !done.truncated && AtHead(requested, links[m]) && !links[m].provider.fake
                        && forall i :: 0 <= i < m ==> !AttemptAt(links, c, bank, world, i).Skipped?)
  {
    hide AttemptAt, Skips, Marks, Dedupe;
    var a := AttemptAt(links, c, bank, world, m);
    var skips, marks := Skips(links, c, bank, world, m), Marks(requested, links[m], a.truncated);
    SkipsExact(links, c, bank, world, m);
    MarksExact(requested, links[m], a.truncated);
    var r := AnswerAt(requested, links, c, bank, world, m);
    var ds := Finish(r).degradations;
    assert [] + (skips + marks) == skips + marks;
    assert ds == Dedupe(skips + marks);
    assert skips != [] ==> skips[0] in skips + marks;
    EmptyIff(ds);
  }

  /** A list over the six kinds is empty when none of them is in it. */
  lemma EmptyIff(ds: seq<Degradation>)
    ensures ds == [] <==> CircuitOpen !in ds && BudgetExceeded !in ds && TierDowngrade !in ds
                          && RuleEngineFallback !in ds && CacheServed !in ds && Unavailable !in ds
  {
    if ds != [] {
      assert ds[0] in ds;
      match ds[0] {
        case CircuitOpen =>
        case BudgetExceeded =>
        case TierDowngrade =>
        case RuleEngineFallback =>
        case CacheServed =>
        case Unavailable =>
      }
    }
  }

  /** In the flat list of a request, the head is the first link when the requested chain is not
    * empty; with an empty requested chain every answer is off the head. */
  lemma HeadOfFlat(cfg: ServiceConfig, requested: Tier, m: nat)
    requires requested in cfg.chains && m < |FlatLinks(cfg, requested)|
    ensures AtHead(requested, FlatLinks(cfg, requested)[m]) <==> m == 0 && cfg.chains[requested] != []
  {
    if m >= |cfg.chains[requested]| && requested == Reasoning && Fast in cfg.chains {
      assert FlatLinks(cfg, requested)[m] == FlatLinks(cfg, Fast)[m - |cfg.chains[requested]|];
      assert FlatLinks(cfg, Fast)[m - |cfg.chains[requested]|].tier == Fast;
    }
  }

  /** A hit is honest, carries `cache_served` once, at the end, and leaves the cache fresh. */
  lemma HitIsHonest(entries: map<string, CacheEntry>, key: string, ttl: real, now: real)
    requires OnlyFresh(entries)
    ensures OnlyFresh(Evict(entries, key, ttl, now))
    ensures var hit := CachedAnswer(entries, key, ttl, now);
            hit.Some? ==>
              && Honest(hit.value) && hit.value.fromCache
              && hit.value.degradations == entries[key].completion.degradations + [CacheServed]
  {
    if CachedAnswer(entries, key, ttl, now).Some? {
      var ds := entries[key].completion.degradations;
      assert Honest(entries[key].completion);
      assert (ds + [CacheServed])[|ds|] == CacheServed;
    }
  }

  lemma StoreKeepsFresh(entries: map<string, CacheEntry>, key: string, c: Completion, at: real)
    requires OnlyFresh(entries) && Honest(c) && !c.fromCache
    ensures OnlyFresh(entries[key := CacheEntry(c, at)])
  {
    hide Honest;
  }

  /** What the search serves is fresh and honest, and without degradations it is the real head's. */
  lemma SearchIsHonest(cfg: ServiceConfig, requested: Tier, bank: Bank, world: nat -> Visit, c: Completion,
                       contents: Bank)
    requires FlatSearch(cfg, requested, bank, world, Served(c), contents)
    ensures Honest(c) && !c.fromCache
    ensures c.degradations == [] ==> !c.truncated && FromRealHead(cfg, requested, c)
  {
    hide FlatLinks, FirstAnswer, AnswerAt, Finish;
    var m: nat :| AnsweredBy(cfg, requested, bank, world, m, c, contents);
    var links := FlatLinks(cfg, requested);
    FirstIsLink(links, cfg.breaker, bank, world, m);
    DegradationsExact(requested, links, cfg.breaker, bank, world, m);
    HeadOfFlat(cfg, requested, m);
    if c.degradations == [] { HeadLink(cfg, requested); }
  }

  lemma FirstIsLink(links: seq<Link>, c: Config, bank: Bank, world: nat -> Visit, m: nat)
    requires FirstAnswer(links, c, bank, world, m)
    ensures m < |links|
  {
  }

  lemma HeadLink(cfg: ServiceConfig, requested: Tier)
    requires requested in cfg.chains && cfg.chains[requested] != []
    ensures FlatLinks(cfg, requested) != [] && FlatLinks(cfg, requested)[0].provider == cfg.chains[requested][0]
  {
  }

  // ------------------------------------------------------------------
  // Runs of the cache, requests overlapping as they may
  // ------------------------------------------------------------------

  /** The last answer stored under a key. */
  function LatestStored(es: seq<CacheEvent>, key: string): Option<CacheEntry> {
    if es == [] then None
    else
      var e := es[|es| - 1];
      if e.Store? && e.key == key then Some(CacheEntry(e.completion, e.at)) else LatestStored(es[..|es| - 1], key)
  }

  lemma {:induction false} EntryIsLatest(ttl: real, es: seq<CacheEvent>, key: string)
    ensures var entries := CacheRun(map[], ttl, es);
            key in entries ==> LatestStored(es, key) == Some(entries[key])
  {
    if es == [] {
    } else {
      EntryIsLatest(ttl, es[..|es| - 1], key);
    }
  }

  lemma {:induction false} LiveAnswerIsKept(ttl: real, es: seq<CacheEvent>, key: string, now: real)
    requires forall e :: e in es ==> e.at <= now
    ensures var latest := LatestStored(es, key);
            latest.Some? && now - latest.value.storedAt <= ttl ==> key in CacheRun(map[], ttl, es)
  {
    if es == [] {
    } else {
      var k := |es| - 1;
      assert es[k] in es && forall e :: e in es[..k] ==> e in es;
      LiveAnswerIsKept(ttl, es[..k], key, now);
      EntryIsLatest(ttl, es[..k], key);
    }
  }

  /** What a lookup is answered with, over any interleaving of the lookups and stores of overlapping
    * requests: the latest answer stored under that key, marked and aged, exactly when there is one and
    * it is no older than the time to live. Nothing under another key is ever served. */
  lemma ServedIsLatestIff(ttl: real, es: seq<CacheEvent>, key: string, now: real)
    requires forall e :: e in es ==> e.at <= now
    ensures
      var hit, latest := CachedAnswer(CacheRun(map[], ttl, es), key, ttl, now), LatestStored(es, key);
      && (hit.Some? <==> latest.Some? && now - latest.value.storedAt <= ttl)
      && (hit.Some? ==>
            && hit.value.text == latest.value.completion.text
            && hit.value.provider == latest.value.completion.provider
            && hit.value.cacheAge == Some(WholeSeconds(now - latest.value.storedAt))
            && hit.value.degradations == latest.value.completion.degradations + [CacheServed])
  {
    EntryIsLatest(ttl, es, key);
    LiveAnswerIsKept(ttl, es, key, now);
  }

  lemma CacheRunRequest(entries: map<string, CacheEntry>, ttl: real, key: string, readAt: real,
                        answer: Option<Completion>, storedAt: real)
    ensures CacheRun(entries, ttl, RequestEvents(key, readAt, answer, storedAt))
            == if answer.None? then Evict(entries, key, ttl, readAt)
               else Evict(entries, key, ttl, readAt)[key := CacheEntry(answer.value, storedAt)]
  {
    hide Evict;
    var es := RequestEvents(key, readAt, answer, storedAt);
    assert [Look(key, readAt)][..0] == [];
    assert CacheRun(entries, ttl, [Look(key, readAt)]) == Evict(entries, key, ttl, readAt);
    if answer.Some? {
      assert es[..|es| - 1] == [Look(key, readAt)];
    } else {
      assert es == [Look(key, readAt)];
    }
  }

  // ------------------------------------------------------------------
  // Composition with the breakers
  // ------------------------------------------------------------------

  ghost predicate SaneBank(bank: Bank) {
    forall k :: k in bank ==> bank[k].config.Sane() && Invariant(bank[k].config, bank[k].status)
  }

  lemma SettledEntry(e: Entry, v: Visit)
    requires e.config.Sane() && Invariant(e.config, e.status)
    ensures Settled(e, v).config == e.config && Invariant(e.config, Settled(e, v).status)
    ensures Slots(Settled(e, v).status) <= Slots(e.status)
  {
    if AttemptOf(e, v).Skipped? {
      RefusedCallKeepsSlots(e.config, e.status, v.asked);
    } else {
      SettledCallKeepsSlots(e.config, e.status, v.asked, v.reported);
    }
  }

  /** Visits among the first `n` links, to the breaker of that name, that ended as `kind` says. */
  function CountVisits(links: seq<Link>, c: Config, bank: Bank, world: nat -> Visit, n: nat, name: string,
                       kind: Attempt -> bool): nat
    requires n <= |links|
  {
    if n == 0 then 0
    else CountVisits(links, c, bank, world, n - 1, name, kind)
         + if BreakerName(links[n - 1].provider) == name && kind(AttemptAt(links, c, bank, world, n - 1)) then 1 else 0
  }

  /** A search whose providers all answer or raise leaks no half-open slot on any breaker,
    * shared by two tiers or not. */
  lemma {:induction false} SearchKeepsSlots(links: seq<Link>, c: Config, bank: Bank, world: nat -> Visit, n: nat,
                                            name: string)
    requires c.Sane() && SaneBank(bank) && n <= |links|
    ensures SaneBank(BankAfter(links, c, bank, world, n))
    ensures Lookup(BankAfter(links, c, bank, world, n), name, c).config == Lookup(bank, name, c).config
    ensures Slots(Lookup(BankAfter(links, c, bank, world, n), name, c).status) <= Slots(Lookup(bank, name, c).status)
  {
    if n == 0 {
    } else {
      hide Settled, AttemptOf, Invariant, Slots, BreakerName, Lookup, BankAfter;
      SearchKeepsSlots(links, c, bank, world, n - 1, name);
      var before := BankAfter(links, c, bank, world, n - 1);
      var touched := BreakerName(links[n - 1].provider);
      LookupSane(before, touched, c);
      SettledEntry(Lookup(before, touched, c), world(n - 1));
      BankStep(links, c, bank, world, n, name);
    }
  }

  /** What one visit sends to the breaker: the question and, if it admits, one report. */
  function VisitEvents(a: Attempt, v: Visit): seq<Event> {
    match a
    case Skipped => [Ask(v.asked)]
    case Errored => [Ask(v.asked), Failed(v.reported)]
    case Answered(_, _) => [Ask(v.asked), Succeeded(v.reported)]
  }

  /** Everything the breaker of that name sees while the first `n` links are visited. */
  function Reports(links: seq<Link>, c: Config, bank: Bank, world: nat -> Visit, n: nat, name: string): seq<Event>
    requires n <= |links|
  {
    if n == 0 then []
    else
      Reports(links, c, bank, world, n - 1, name)
      + if BreakerName(links[n - 1].provider) == name
        then VisitEvents(AttemptAt(links, c, bank, world, n - 1), world(n - 1)) else []
  }

  lemma VisitIsRun(e: Entry, v: Visit)
    ensures Settled(e, v) == e.(status := Run(e.config, e.status, VisitEvents(AttemptOf(e, v), v)))
  {
    hide Admits, BeforeCallStep, SuccessStep, FailureStep;
    var es := VisitEvents(AttemptOf(e, v), v);
    assert es[..1] == [Ask(v.asked)] && es[..0] == [];
    RunOne(e.config, e.status, es[0]);
    if |es| == 2 { assert es[..|es| - 1] == [es[0]]; }
  }

  lemma RunOne(c: Config, s: Status, e: Event)
    ensures Run(c, s, [e]) == Step(c, s, e)
  {
    hide Step;
    assert [e][..0] == [];
  }

  /** A search is a run of each breaker: for every name, the breaker ends where its own run ends, in
    * which every admitted question is followed by exactly one report, success or failure, and a
    * refused one by none. So everything proved of breaker runs holds of searches. */
  lemma {:induction false} SearchIsARun(links: seq<Link>, c: Config, bank: Bank, world: nat -> Visit, n: nat,
                                        name: string)
    requires n <= |links|
    ensures
      var before := Lookup(bank, name, c);
      Lookup(BankAfter(links, c, bank, world, n), name, c)
      == before.(status := Run(before.config, before.status, Reports(links, c, bank, world, n, name)))
  {
    hide Settled, AttemptOf, BreakerName, Lookup, BankAfter, AttemptAt, Run, VisitEvents;
    var start := Lookup(bank, name, c);
    if n == 0 {
      NothingRun(links, c, bank, world, name);
    } else {
      SearchIsARun(links, c, bank, world, n - 1, name);
      BankStep(links, c, bank, world, n, name);
      var e, v := Lookup(BankAfter(links, c, bank, world, n - 1), name, c), world(n - 1);
      VisitIsRun(e, v);
      var seen := Reports(links, c, bank, world, n - 1, name);
      RunAppend(start.config, start.status, seen, VisitEvents(AttemptOf(e, v), v));
      assert seen + [] == seen;
    }
  }

  lemma NothingRun(links: seq<Link>, c: Config, bank: Bank, world: nat -> Visit, name: string)
    ensures
      var before := Lookup(bank, name, c);
      BankAfter(links, c, bank, world, 0) == bank && before == before.(status := Run(before.config, before.status, []))
  {
  }

  /** Each breaker's call and failure totals grow by exactly its own admitted and failed visits. */
  lemma {:induction false} SearchCountsVisits(links: seq<Link>, c: Config, bank: Bank, world: nat -> Visit, n: nat,
                                              name: string, admitted: Attempt -> bool, errored: Attempt -> bool)
    requires n <= |links|
    requires forall a :: (admitted(a) <==> !a.Skipped?) && (errored(a) <==> a.Errored?)
    ensures Lookup(BankAfter(links, c, bank, world, n), name, c).status.totalCalls
            == Lookup(bank, name, c).status.totalCalls + CountVisits(links, c, bank, world, n, name, admitted)
    ensures Lookup(BankAfter(links, c, bank, world, n), name, c).status.totalFailures
            == Lookup(bank, name, c).status.totalFailures + CountVisits(links, c, bank, world, n, name, errored)
  {
    if n == 0 {
    } else {
      hide Settled, AttemptOf, BreakerName, Lookup, BankAfter, AttemptAt;
      SearchCountsVisits(links, c, bank, world, n - 1, name, admitted, errored);
      var before, touched := BankAfter(links, c, bank, world, n - 1), BreakerName(links[n - 1].provider);
      SettledCounts(Lookup(before, touched, c), world(n - 1));
      BankStep(links, c, bank, world, n, name);
    }
  }

  lemma SettledCounts(e: Entry, v: Visit)
    ensures Settled(e, v).status.totalCalls == e.status.totalCalls + if AttemptOf(e, v).Skipped? then 0 else 1
    ensures Settled(e, v).status.totalFailures == e.status.totalFailures + if AttemptOf(e, v).Errored? then 1 else 0
  {
  }

  lemma LookupSane(bank: Bank, name: string, c: Config)
    requires c.Sane() && SaneBank(bank)
    ensures Lookup(bank, name, c).config.Sane() && Invariant(Lookup(bank, name, c).config, Lookup(bank, name, c).status)
  {
    FreshInvariant(c);
  }

  lemma BankStep(links: seq<Link>, c: Config, bank: Bank, world: nat -> Visit, n: nat, name: string)
    requires 0 < n <= |links|
    ensures
      var before, after := BankAfter(links, c, bank, world, n - 1), BankAfter(links, c, bank, world, n);
      var touched := BreakerName(links[n - 1].provider);
      && after == before[touched := Settled(Lookup(before, touched, c), world(n - 1))]
      && AttemptAt(links, c, bank, world, n - 1) == AttemptOf(Lookup(before, touched, c), world(n - 1))
      && Lookup(after, name, c) == if name == touched then Settled(Lookup(before, touched, c), world(n - 1))
                                   else Lookup(before, name, c)
  {
    hide Settled, AttemptOf;
  }

  lemma FreshInvariant(c: Config)
    requires c.Sane()
    ensures Invariant(c, FRESH) && Slots(FRESH) == 0
  {
  }

  /** With no slot taken before a request, none is taken after it, answered or not. */
  lemma NoSlotStaysTaken(links: seq<Link>, c: Config, bank: Bank, world: nat -> Visit, n: nat)
    requires c.Sane() && SaneBank(bank) && n <= |links|
    requires forall k :: k in bank ==> Slots(bank[k].status) == 0
    ensures forall k :: k in BankAfter(links, c, bank, world, n) ==>
              Slots(BankAfter(links, c, bank, world, n)[k].status) == 0
  {
    var after := BankAfter(links, c, bank, world, n);
    forall k | k in after ensures Slots(after[k].status) == 0 {
      SearchKeepsSlots(links, c, bank, world, n, k);
      FreshInvariant(c);
    }
  }

  // ------------------------------------------------------------------
  // Keys
  // ------------------------------------------------------------------

  lemma FirstColon(a: string, b: string)
    requires ':' !in a
    ensures (a + ":" + b)[|a|] == ':' && forall i :: 0 <= i < |a| ==> (a + ":" + b)[i] != ':'
  {
    forall i | 0 <= i < |a| ensures (a + ":" + b)[i] != ':' { assert a[i] in a; }
  }

  lemma SplitAtColon(a: string, b: string, c: string, d: string)
    requires ':' !in a && ':' !in c && a + ":" + b == c + ":" + d
    ensures a == c && b == d
  {
    var s, t := a + ":" + b, c + ":" + d;
    FirstColon(a, b);
    FirstColon(c, d);
    assert s[..|a|] == a && t[..|c|] == c;
    assert s[|a| + 1..] == b && t[|c| + 1..] == d;
  }

  /** `p` and `q` are one name cut at two different colons. */
  ghost predicate CutElsewhere(p: Provider, q: Provider) {
    exists x: string :: p.name == q.name + ":" + x && q.model == x + ":" + p.model
  }

  lemma CutGivesSameName(p: Provider, q: Provider, x: string)
    requires p.name == q.name + ":" + x && q.model == x + ":" + p.model
    ensures BreakerName(p) == BreakerName(q) && p.name != q.name
  {
    assert BreakerName(p) == "llm:" + q.name + ":" + x + ":" + p.model == BreakerName(q);
    assert |p.name| > |q.name|;
  }

  lemma LongerNameIsCut(p: Provider, q: Provider)
    requires BreakerName(p) == BreakerName(q) && |p.name| > |q.name|
    ensures CutElsewhere(p, q)
  {
    var s, t := p.name + ":" + p.model, q.name + ":" + q.model;
    assert BreakerName(p)[4..] == s && BreakerName(q)[4..] == t;
    var k := |q.name|;
    var x := p.name[k + 1..];
    assert s[..|p.name|] == p.name && t[..k] == q.name && t[k] == ':';
    assert p.name == p.name[..k] + [p.name[k]] + x;
    assert p.name == q.name + ":" + x;
    assert s[k + 1..] == x + ":" + p.model && t[k + 1..] == q.model;
  }

  /** Exactly when two providers share a breaker: they are the same name and model, or the name of
    * one runs a colon and more into the model of the other. */
  lemma BreakerNamesIff(p: Provider, q: Provider)
    ensures BreakerName(p) == BreakerName(q)
            <==> (p.name == q.name && p.model == q.model) || CutElsewhere(p, q) || CutElsewhere(q, p)
  {
    hide BreakerName;
    if BreakerName(p) == BreakerName(q) {
      if |p.name| > |q.name| {
        LongerNameIsCut(p, q);
      } else if |q.name| > |p.name| {
        LongerNameIsCut(q, p);
      } else {
        SameLengthNames(p, q);
      }
    } else {
      SameNameAndModel(p, q);
      if CutElsewhere(p, q) {
        var x :| p.name == q.name + ":" + x && q.model == x + ":" + p.model;
        CutGivesSameName(p, q, x);
      }
      if CutElsewhere(q, p) {
        var x :| q.name == p.name + ":" + x && p.model == x + ":" + q.model;
        CutGivesSameName(q, p, x);
      }
    }
  }

  lemma SameLengthNames(p: Provider, q: Provider)
    requires BreakerName(p) == BreakerName(q) && |p.name| == |q.name|
    ensures p.name == q.name && p.model == q.model
  {
    var s, t := p.name + ":" + p.model, q.name + ":" + q.model;
    assert BreakerName(p)[4..] == s && BreakerName(q)[4..] == t;
    assert s[..|p.name|] == p.name && t[..|q.name|] == q.name;
    assert s[|p.name| + 1..] == p.model && t[|q.name| + 1..] == q.model;
  }

  lemma SameNameAndModel(p: Provider, q: Provider)
    ensures p.name == q.name && p.model == q.model ==> BreakerName(p) == BreakerName(q)
  {
  }

  /** So provider names without a colon never share one across different providers or models. */
  lemma BreakerNamesDistinct(p: Provider, q: Provider)
    requires ':' !in p.name && ':' !in q.name
    ensures BreakerName(p) == BreakerName(q) <==> p.name == q.name && p.model == q.model
  {
    hide BreakerName;
    BreakerNamesIff(p, q);
  }

  /** With a colon in a provider name two different providers can share a breaker. */
  lemma BreakerNamesCollide(p: Provider, q: Provider)
    requires p.name == "edge:eu" && p.model == "m" && q.name == "edge" && q.model == "eu:m"
    ensures BreakerName(p) == BreakerName(q) && p.name != q.name
  {
    CutGivesSameName(p, q, "eu");
  }

  /** Cache keys are equal exactly when tier, pack and digest are, whatever characters the pack
    * holds, because tier names have no colon and digests all have the same length. */
  lemma CacheKeysDistinct(t: Tier, pack: string, digest: string, t': Tier, pack': string, digest': string)
    requires |digest| == |digest'|
    ensures TierName(t) + ":" + pack + ":" + digest == TierName(t') + ":" + pack' + ":" + digest'
            <==> t == t' && pack == pack' && digest == digest'
  {
    hide TierName;
    var s, s' := TierName(t) + ":" + pack + ":" + digest, TierName(t') + ":" + pack' + ":" + digest';
    var u, u' := pack + ":" + digest, pack' + ":" + digest';
    assert s == TierName(t) + ":" + u && s' == TierName(t') + ":" + u';
    TierNames(t, t');
    if s == s' {
      SplitAtColon(TierName(t), u, TierName(t'), u');
      SplitFixed(pack, digest, pack', digest');
    }
  }

  lemma TierNames(t: Tier, t': Tier)
    ensures ':' !in TierName(t) && ':' !in TierName(t')
    ensures TierName(t) == TierName(t') ==> t == t'
  {
    assert "reasoning"[0] == 'r' && "fast"[0] == 'f' && "vision"[0] == 'v';
  }

  lemma SplitFixed(a: string, b: string, c: string, d: string)
    requires |b| == |d| && a + ":" + b == c + ":" + d
    ensures a == c && b == d
  {
    var u, u' := a + ":" + b, c + ":" + d;
    assert |a| == |c|;
    assert u[..|a|] == a && u'[..|a|] == c && u[|a| + 1..] == b && u'[|a| + 1..] == d;
  }

  // ------------------------------------------------------------------
  // Which conversations the hashed payload tells apart
  // ------------------------------------------------------------------

  /** What the payload can hold of a message: its role and content. */
  function Said(m: Message): Message { m.(images := []) }

  ghost predicate SameSaid(xs: seq<Message>, ys: seq<Message>) {
    |xs| == |ys| && forall i :: 0 <= i < |xs| ==> Said(xs[i]) == Said(ys[i])
  }

  /** Role names like the documented "system", "user" and "assistant": no colon, no line break. */
  ghost predicate RoleNames(roles: set<string>) {
    forall r :: r in roles ==> ':' !in r && '\n' !in r
  }

  ghost predicate Spoken(xs: seq<Message>, roles: set<string>) {
    forall m :: m in xs ==> m.role in roles
  }

  /** After the line break at `k` the content reads like a message of role `r`. */
  ghost predicate RoleLineAt(content: string, k: int, r: string) {
    0 <= k < |content| && content[k] == '\n' && r + ":" <= content[k + 1..]
  }

  ghost predicate Embeds(content: string, roles: set<string>) {
    exists k, r :: r in roles && RoleLineAt(content, k, r)
  }

  ghost predicate NoneEmbed(xs: seq<Message>, roles: set<string>) {
    forall m :: m in xs ==> !Embeds(m.content, roles)
  }

  function Line(m: Message): string { m.role + ":" + m.content }

  /** Where the last message begins. */
  function LastStart(xs: seq<Message>): (k: nat)
    requires xs != []
  {
    if |xs| == 1 then 0 else |Payload(xs[..|xs| - 1])| + 1
  }

  lemma LastLine(xs: seq<Message>)
    requires xs != []
    ensures
      var w, k, last := Payload(xs), LastStart(xs), xs[|xs| - 1];
      && k <= |w| && w[k..] == Line(last)
      && (k == 0 <==> |xs| == 1)
      && (k > 0 ==> w[k - 1] == '\n' && w[..k - 1] == Payload(xs[..|xs| - 1]))
  {
    if |xs| > 1 {
      var before, last := Payload(xs[..|xs| - 1]), xs[|xs| - 1];
      assert Payload(xs) == before + "\n" + Line(last);
    }
  }

  /** A later message start inside what is one message of the other list is an embedded role line. */
  lemma LaterStartEmbeds(xs: seq<Message>, ys: seq<Message>, roles: set<string>)
    requires xs != [] && ys != [] && Payload(xs) == Payload(ys) && LastStart(xs) < LastStart(ys)
    requires RoleNames(roles) && Spoken(xs, roles) && Spoken(ys, roles)
    ensures Embeds(xs[|xs| - 1].content, roles)
  {
    hide Payload, LastStart, Line, Embeds;
    LastLine(xs);
    LastLine(ys);
    var mine, theirs := xs[|xs| - 1], ys[|ys| - 1];
    assert mine in xs && theirs in ys;
    RoleLineInside(Payload(xs), LastStart(xs), LastStart(ys), mine, theirs, roles);
  }

  lemma RoleLineInside(w: string, i: nat, j: nat, mine: Message, theirs: Message, roles: set<string>)
    requires i < j <= |w| && w[i..] == Line(mine) && w[j..] == Line(theirs) && w[j - 1] == '\n'
    requires '\n' !in mine.role && theirs.role in roles
    ensures Embeds(mine.content, roles)
  {
    BreakIsInContent(w, i, j, mine);
    var k := j - 1 - i - |mine.role| - 1;
    RestOfContent(w, i, j, mine);
    assert theirs.role + ":" <= Line(theirs);
    assert RoleLineAt(mine.content, k, theirs.role);
  }

  lemma RestOfContent(w: string, i: nat, j: nat, m: Message)
    requires i < j <= |w| && w[i..] == Line(m) && |m.role| + 1 <= j - i
    ensures j - i - |m.role| - 1 <= |m.content| && w[j..] == m.content[j - i - |m.role| - 1..]
  {
    var head := m.role + ":";
    assert w[i..][j - i..] == w[j..];
    assert Line(m)[|head|..] == m.content;
    assert Line(m)[j - i..] == m.content[j - i - |head|..];
  }

  lemma BreakIsInContent(w: string, i: nat, j: nat, m: Message)
    requires i < j <= |w| && w[i..] == Line(m) && w[j - 1] == '\n' && '\n' !in m.role
    ensures
      var k := j - 1 - i - |m.role| - 1;
      0 <= k < |m.content| && m.content[k] == '\n'
  {
    var at := j - 1 - i;
    assert w[i..][at] == w[j - 1];
    assert Line(m)[at] == '\n';
    forall c | 0 <= c < |m.role| ensures m.role[c] != '\n' { assert m.role[c] in m.role; }
    assert Line(m)[|m.role|] == ':';
    assert Line(m)[|m.role| + 1..] == m.content;
  }

  lemma SameStartSameLast(xs: seq<Message>, ys: seq<Message>, roles: set<string>)
    requires xs != [] && ys != [] && Payload(xs) == Payload(ys) && LastStart(xs) == LastStart(ys)
    requires RoleNames(roles) && Spoken(xs, roles) && Spoken(ys, roles)
    ensures Said(xs[|xs| - 1]) == Said(ys[|ys| - 1])
    ensures Payload(xs[..|xs| - 1]) == Payload(ys[..|ys| - 1])
    ensures |xs| == 1 <==> |ys| == 1
  {
    var mine, theirs := xs[|xs| - 1], ys[|ys| - 1];
    LastLine(xs);
    LastLine(ys);
    assert mine in xs && theirs in ys;
    SplitAtColon(mine.role, mine.content, theirs.role, theirs.content);
  }

  lemma PayloadEmptyIff(xs: seq<Message>)
    ensures Payload(xs) == "" <==> xs == []
  {
    if xs != [] { LastLine(xs); }
  }

  /** The payload identifies a conversation: over role names without colon or line break, and
    * contents that hold no line reading like a message, two lists have one payload exactly when
    * they say the same things in the same roles. */
  lemma {:induction false} PayloadIdentifies(xs: seq<Message>, ys: seq<Message>, roles: set<string>)
    requires RoleNames(roles) && Spoken(xs, roles) && Spoken(ys, roles)
    requires NoneEmbed(xs, roles) && NoneEmbed(ys, roles)
    ensures Payload(xs) == Payload(ys) <==> SameSaid(xs, ys)
  {
    hide Payload, Embeds, LastStart, SameSaid, Spoken, NoneEmbed;
    SaidSnoc(xs, ys);
    if Payload(xs) == Payload(ys) {
      PayloadEmptyIff(xs);
      PayloadEmptyIff(ys);
      if xs != [] {
        LastIsClear(xs, roles);
        LastIsClear(ys, roles);
        if LastStart(xs) < LastStart(ys) { LaterStartEmbeds(xs, ys, roles); }
        if LastStart(ys) < LastStart(xs) { LaterStartEmbeds(ys, xs, roles); }
        SameStartSameLast(xs, ys, roles);
        PayloadIdentifies(xs[..|xs| - 1], ys[..|ys| - 1], roles);
      }
    } else if SameSaid(xs, ys) {
      SaidIsEnough(xs, ys);
    }
  }

  lemma LastIsClear(xs: seq<Message>, roles: set<string>)
    requires xs != [] && Spoken(xs, roles) && NoneEmbed(xs, roles)
    ensures Spoken(xs[..|xs| - 1], roles) && NoneEmbed(xs[..|xs| - 1], roles)
    ensures !Embeds(xs[|xs| - 1].content, roles)
  {
    hide Embeds;
    assert xs[|xs| - 1] in xs;
  }

  lemma SaidSnoc(xs: seq<Message>, ys: seq<Message>)
    ensures xs == [] && ys == [] ==> SameSaid(xs, ys)
    ensures xs != [] && ys != [] && SameSaid(xs[..|xs| - 1], ys[..|ys| - 1]) && Said(xs[|xs| - 1]) == Said(ys[|ys| - 1])
            ==> SameSaid(xs, ys)
  {
    if xs != [] && ys != [] && SameSaid(xs[..|xs| - 1], ys[..|ys| - 1]) && Said(xs[|xs| - 1]) == Said(ys[|ys| - 1]) {
      forall i | 0 <= i < |xs| ensures Said(xs[i]) == Said(ys[i]) {
        if i < |xs| - 1 { assert xs[i] == xs[..|xs| - 1][i] && ys[i] == ys[..|ys| - 1][i]; }
      }
    }
  }

  /** Images never reach the payload. */
  lemma {:induction false} SaidIsEnough(xs: seq<Message>, ys: seq<Message>)
    requires SameSaid(xs, ys)
    ensures Payload(xs) == Payload(ys)
  {
    if xs == [] {
    } else {
      var k := |xs| - 1;
      SaidIsEnough(xs[..k], ys[..k]);
      assert Said(xs[k]) == Said(ys[k]);
      assert xs[k].role == ys[k].role && xs[k].content == ys[k].content;
    }
  }

  /** Two messages have the payload of one that holds the second as further lines. */
  lemma JoinedPayload(before: seq<Message>, a: Message, b: Message)
    ensures Payload(before + [a, b]) == Payload(before + [a.(content := a.content + "\n" + Line(b))])
  {
    var joined := a.(content := a.content + "\n" + Line(b));
    var two, one := before + [a, b], before + [joined];
    assert two[..|two| - 1] == before + [a] && (before + [a])[..|before|] == before && one[..|one| - 1] == before;
    assert Line(joined) == Line(a) + "\n" + Line(b);
    if before == [] {
      assert Payload(two) == Line(a) + "\n" + Line(b);
    } else {
      assert Payload(before + [a]) == Payload(before) + "\n" + Line(a);
      assert Payload(two) == Payload(before) + "\n" + (Line(a) + "\n" + Line(b));
      assert Payload(one) == Payload(before) + "\n" + Line(joined);
    }
  }

  ghost predicate Confusable(xs: seq<Message>, ys: seq<Message>, roles: set<string>) {
    Spoken(ys, roles) && Payload(ys) == Payload(xs) && !SameSaid(xs, ys)
  }

  lemma EmbeddedConfuses(m: Message, roles: set<string>) returns (ys: seq<Message>)
    requires m.role in roles && Embeds(m.content, roles)
    ensures Confusable([m], ys, roles)
  {
    var k, r :| r in roles && RoleLineAt(m.content, k, r);
    var rest := m.content[k + 1..];
    var a, b := Message(m.role, m.content[..k], []), Message(r, rest[|r| + 1..], []);
    ys := [] + [a, b];
    JoinedPayload([], a, b);
    assert rest == r + ":" + rest[|r| + 1..];
    assert m.content == m.content[..k] + [m.content[k]] + rest;
    SaidIsEnough([a.(content := a.content + "\n" + Line(b))], [m]);
    assert [] + [a.(content := a.content + "\n" + Line(b))] == [a.(content := a.content + "\n" + Line(b))];
  }

  lemma LongConfuses(xs: seq<Message>, roles: set<string>) returns (ys: seq<Message>)
    requires Spoken(xs, roles) && |xs| >= 2
    ensures Confusable(xs, ys, roles)
  {
    var before, a, b := xs[..|xs| - 2], xs[|xs| - 2], xs[|xs| - 1];
    assert xs == before + [a, b];
    ys := before + [a.(content := a.content + "\n" + Line(b))];
    assert a in xs;
    JoinedPayload(before, a, b);
  }

  lemma ShortIsClear(xs: seq<Message>, ys: seq<Message>, roles: set<string>)
    requires RoleNames(roles) && Spoken(xs, roles) && |xs| <= 1 && NoneEmbed(xs, roles)
    ensures !Confusable(xs, ys, roles)
  {
    if Spoken(ys, roles) && Payload(ys) == Payload(xs) {
      PayloadEmptyIff(xs);
      PayloadEmptyIff(ys);
      if xs != [] {
        hide Embeds;
        if LastStart(xs) < LastStart(ys) { LaterStartEmbeds(xs, ys, roles); }
        SameStartSameLast(xs, ys, roles);
      }
    }
  }

  /** Exactly when some other conversation has the same payload: whenever there are two messages or
    * more, and for a single one exactly when a line of it after the first reads like a message. */
  lemma PayloadSharedIff(xs: seq<Message>, roles: set<string>)
    requires RoleNames(roles) && Spoken(xs, roles)
    ensures (exists ys :: Confusable(xs, ys, roles)) <==> |xs| >= 2 || !NoneEmbed(xs, roles)
  {
    hide Embeds, Confusable;
    if |xs| >= 2 {
      var ys := LongConfuses(xs, roles);
    } else if !NoneEmbed(xs, roles) {
      var m :| m in xs && Embeds(m.content, roles);
      var ys := EmbeddedConfuses(m, roles);
      assert xs == [m];
    } else {
      forall ys ensures !Confusable(xs, ys, roles) { ShortIsClear(xs, ys, roles); }
    }
  }

  /** When two requests share a cached answer: with a digest that does not collide on the two
    * payloads, exactly when tier, pack, roles and contents agree, whatever images and schema. */
  lemma CachedTogetherIff(digest: string -> string, r: Request, r': Request, roles: set<string>)
    requires RoleNames(roles) && Spoken(r.messages, roles) && Spoken(r'.messages, roles)
    requires NoneEmbed(r.messages, roles) && NoneEmbed(r'.messages, roles)
    requires |digest(Payload(r.messages))| == |digest(Payload(r'.messages))|
    requires digest(Payload(r.messages)) == digest(Payload(r'.messages)) ==> Payload(r.messages) == Payload(r'.messages)
    ensures KeyOf(digest, r) == KeyOf(digest, r')
            <==> r.tier == r'.tier && r.pack == r'.pack && SameSaid(r.messages, r'.messages)
  {
    hide Payload, NoneEmbed, SameSaid, TierName;
    CacheKeysDistinct(r.tier, r.pack, digest(Payload(r.messages)), r'.tier, r'.pack, digest(Payload(r'.messages)));
    PayloadIdentifies(r.messages, r'.messages, roles);
  }
}
