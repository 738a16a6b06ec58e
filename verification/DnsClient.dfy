/** The DNS client's Exchange over its cache, one call at a time.

    A query carries everything the outside decides: the transport's reply, the checker's
    verdict, the loopback and rejection-cache tests, the clock.  The cache may evict or be
    purged between calls.  `history` records every answer that reached the client. */
module DnsClient {
  import opened Optional
  import opened DnsTtl

  datatype QType = TypeA | TypeAAAA | TypeHTTPS | OtherType(code: nat)
  datatype Question = Question(name: string, qtype: QType)
  datatype EdnsOption = SubnetOption | OtherOption
  datatype Extra = OptRR(udpSize: nat, ttl: uint32, options: seq<EdnsOption>) | OtherRR
  datatype Request = Request(id: nat, questions: seq<Question>, nsCount: nat, extra: seq<Extra>)

  datatype Strategy = AsIs | PreferIPv4 | PreferIPv6 | IPv4Only | IPv6Only
  datatype Options = Options(strategy: Strategy, disableCache: bool, rewriteTtl: Option<uint32>, subnet: bool)
  datatype Config = Config(disableCache: bool, disableExpire: bool, independent: bool, subnet: bool)

  datatype Reply = Answered(message: Message) | RcodeError(rcode: nat) | Failed

  datatype Query = Query(
    request: Request, options: Options, tag: string, reply: Reply,
    checker: Option<bool>, loopback: bool, rejectedBefore: bool, now: int)

  datatype Key = Key(question: Question, tag: string)
  datatype Entry = Entry(message: Message, storedAt: int, ttl: uint32)

  /** An answer a transport gave, and the settings of the query it answered. */
  datatype Given = Given(
    tag: string, question: Question, answer: Message, cacheable: bool, accepted: bool,
    rewrite: Option<uint32>, requestVersion: Option<nat>, at: int)

  datatype State = State(cache: map<Key, Entry>, history: set<Given>)

  datatype Result =
    | FormatError
    | StrategyRejected
    | Hit(message: Message)
    | Loopback
    | RejectedCached
    | TransportError
    | Rejected
    | Fresh(message: Message)

  // ----- Which requests may use the cache -----

  predicate IsSimple(r: Request) {
    |r.questions| == 1 && r.nsCount == 0 &&
    (r.extra == [] ||
      (|r.extra| == 1 && r.extra[0].OptRR? && r.extra[0].udpSize > 0 && r.extra[0].ttl == 0 &&
        r.extra[0].options == []))
  }

  predicate CarriesSubnet(x: Extra) { x.OptRR? && SubnetOption in x.options }

  function FirstWithSubnet(extra: seq<Extra>): (i: nat)
    ensures i <= |extra| && (i < |extra| ==> CarriesSubnet(extra[i]))
  {
    if extra == [] then 0 else if CarriesSubnet(extra[0]) then 0 else 1 + FirstWithSubnet(extra[1..])
  }

  /** SetClientSubnet: reuse an OPT that has the option, else extend a trailing OPT, else append one. */
  function SetClientSubnet(r: Request): Request {
    var i, n := FirstWithSubnet(r.extra), |r.extra|;
    if i < n then r
    else if n > 0 && r.extra[n - 1].OptRR? then
      r.(extra := r.extra[n - 1 := r.extra[n - 1].(options := r.extra[n - 1].options + [SubnetOption])])
    else r.(extra := r.extra + [OptRR(0, 0, [SubnetOption])])
  }

  /** A client-wide subnet turns every request into one that is not simple, so it disables the cache altogether. */
  lemma SubnetIsNeverSimple(r: Request)
    ensures !IsSimple(SetClientSubnet(r))
  {
    var i := FirstWithSubnet(r.extra);
    if i < |r.extra| && |r.extra| == 1 { assert SubnetOption in r.extra[0].options; }
  }

  function Effective(cfg: Config, q: Query): Request {
    if q.options.subnet || cfg.subnet then SetClientSubnet(q.request) else q.request
  }

  predicate Uncached(cfg: Config, q: Query) {
    !IsSimple(Effective(cfg, q)) || q.options.subnet || cfg.disableCache || q.options.disableCache
  }

  /** IsEdns0 searches the additional section from its end. */
  function RequestVersion(extra: seq<Extra>): Option<nat> {
    if extra == [] then None
    else
      var last := extra[|extra| - 1];
      if last.OptRR? then Some(Version(last.ttl)) else RequestVersion(extra[..|extra| - 1])
  }

  function AskedVersion(cfg: Config, q: Query): Option<nat> { RequestVersion(Effective(cfg, q).extra) }

  function KeyFor(cfg: Config, q: Query): Key
    requires q.request.questions != []
  {
    Key(q.request.questions[0], if cfg.independent then q.tag else "")
  }

  // ----- The answer -----

  function Raw(q: Query): Message
    requires !q.reply.Failed?
  {
    if q.reply.Answered? then q.reply.message else Message(q.request.id, q.reply.rcode, [], [], [])
  }

  predicate Accepts(q: Query, m: Message) {
    q.checker.None? || (m.rcode == 0 && m.answer != [] && q.checker.value)
  }

  /** IPv4-only drops the IPv6 hints, anything else the IPv4 hints. */
  predicate OtherFamily(hint: Hint, strategy: Strategy) { if strategy.IPv4Only? then hint.Hint6? else hint.Hint4? }

  /** Exactly the hints of the other family go, each remaining one as often as before. */
  function KeepHints(hints: seq<Hint>, strategy: Strategy): (r: seq<Hint>)
    ensures forall h :: multiset(r)[h] == if OtherFamily(h, strategy) then 0 else multiset(hints)[h]
  {
    if hints == [] then []
    else
      assert hints == [hints[0]] + hints[1..];
      if OtherFamily(hints[0], strategy) then KeepHints(hints[1..], strategy)
      else [hints[0]] + KeepHints(hints[1..], strategy)
  }

  /** What remains is in order: a prefix and the rest are filtered separately. */
  lemma {:induction false} KeepHintsInOrder(a: seq<Hint>, b: seq<Hint>, strategy: Strategy)
    ensures KeepHints(a + b, strategy) == KeepHints(a, strategy) + KeepHints(b, strategy)
  {
    if a == [] {
      assert a + b == b;
    } else {
      assert (a + b)[1..] == a[1..] + b;
      KeepHintsInOrder(a[1..], b, strategy);
    }
  }

  function FilterRecord(r: Record, strategy: Strategy): Record {
    if r.body.Https? then r.(body := r.body.(hints := KeepHints(r.body.hints, strategy))) else r
  }

  function FilterHttps(rs: seq<Record>, strategy: Strategy): (r: seq<Record>)
    ensures |r| == |rs| && forall i :: 0 <= i < |rs| ==> r[i] == FilterRecord(rs[i], strategy)
  {
    seq(|rs|, i requires 0 <= i < |rs| => FilterRecord(rs[i], strategy))
  }

  function Filtered(q: Query, m: Message): Message
    requires q.request.questions != []
  {
    if q.request.questions[0].qtype.TypeHTTPS? && (q.options.strategy.IPv4Only? || q.options.strategy.IPv6Only?)
    then m.(answer := FilterHttps(m.answer, q.options.strategy)) else m
  }

  /** The response as returned and, because the cache holds the same object, as cached. */
  function Final(cfg: Config, q: Query, m: Message): Message
    requires q.request.questions != []
  {
    var f := Filtered(q, m);
    var ttl := ChosenTtl(f, q.options.rewriteTtl);
    FinishEdns(Normalize(f, ttl).(id := q.request.id), ttl, AskedVersion(cfg, q))
  }

  predicate Cacheable(rcode: nat) { rcode == 0 || rcode == 3 }

  // ----- Exchange -----

  /** loadResponse. */
  function Load(cfg: Config, cache: map<Key, Entry>, key: Key, now: int): Option<Message> {
    if key !in cache then None
    else if cfg.disableExpire then Some(cache[key].message)
    else if now > ExpireAt(cache[key]) then None
    else Some(Decay(cache[key].message, ExpireAt(cache[key]), now))
  }

  function ExpireAt(e: Entry): int { e.storedAt + Seconds(e.ttl) }

  function StrategyRejects(q: Query): bool
    requires q.request.questions != []
  {
    (q.request.questions[0].qtype.TypeA? && q.options.strategy.IPv6Only?) ||
    (q.request.questions[0].qtype.TypeAAAA? && q.options.strategy.IPv4Only?)
  }

  function Exchange(cfg: Config, s: State, q: Query): (State, Result) {
    if q.request.questions == [] then (s, FormatError)
    else if StrategyRejects(q) then (s, StrategyRejected)
    else
      var key := KeyFor(cfg, q);
      var hit := if Uncached(cfg, q) then None else Load(cfg, s.cache, key, q.now);
      if hit.Some? then (s, Hit(hit.value.(id := q.request.id)))
      else
        // an expired entry is removed by the load that finds it
        var s1 := if Uncached(cfg, q) then s else s.(cache := s.cache - {key});
        if q.loopback then (s1, Loopback)
        else if !Uncached(cfg, q) && q.checker.Some? && q.rejectedBefore then (s1, RejectedCached)
        else if q.reply.Failed? then (s1, TransportError)
        else
          var m := Raw(q);
          var given := Given(q.tag, q.request.questions[0], m, !Uncached(cfg, q), Accepts(q, m), q.options.rewriteTtl,
            AskedVersion(cfg, q), q.now);
          var s2 := s1.(history := s.history + {given});
          if !Accepts(q, m) then (s2, Rejected)
          else
            var ttl := ChosenTtl(Filtered(q, m), q.options.rewriteTtl);
            var final := Final(cfg, q, m);
            if !Uncached(cfg, q) && Cacheable(m.rcode) && ttl > 0
            then (s2.(cache := s1.cache[key := Entry(final, q.now, ttl)]), Fresh(final))
            else (s2, Fresh(final))
  }

  // ----- Where a cached answer comes from -----

  function Bodies(rs: seq<Record>): (r: seq<Body>)
    ensures |r| == |rs| && forall i :: 0 <= i < |rs| ==> r[i] == rs[i].body
  {
    seq(|rs|, i requires 0 <= i < |rs| => rs[i].body)
  }

  /** Equal, or the same HTTPS record without its IPv4 or without its IPv6 hints. */
  ghost predicate SameAnswer(kept: Body, raw: Body) {
    kept == raw ||
    (raw.Https? && kept.Https? && kept.text == raw.text &&
     (kept.hints == KeepHints(raw.hints, IPv4Only) || kept.hints == KeepHints(raw.hints, IPv6Only)))
  }

  ghost predicate SameAnswers(kept: seq<Body>, raw: seq<Body>) {
    |kept| == |raw| && forall i :: 0 <= i < |raw| ==> SameAnswer(kept[i], raw[i])
  }

  /** `m` is `raw` up to the id, the TTLs, OPT records and HTTPS address hints. */
  ghost predicate Derived(m: Message, raw: Message) {
    && m.rcode == raw.rcode
    && SameAnswers(Bodies(m.answer), Bodies(raw.answer))
    && Bodies(m.ns) == Bodies(raw.ns)
    && Bodies(DropOpt(m.extra)) == Bodies(DropOpt(raw.extra))
  }

  lemma {:induction false} DropOptByBodies(a: seq<Record>, b: seq<Record>)
    requires Bodies(a) == Bodies(b)
    ensures Bodies(DropOpt(a)) == Bodies(DropOpt(b))
  {
    assert |a| == |b|;
    if a != [] {
      assert a[0].body == Bodies(a)[0] == Bodies(b)[0] == b[0].body;
      BodiesTail(a);
      BodiesTail(b);
      DropOptByBodies(a[1..], b[1..]);
      if !a[0].body.Opt? {
        BodiesCons(a[0], DropOpt(a[1..]));
        BodiesCons(b[0], DropOpt(b[1..]));
      }
    }
  }

  lemma BodiesTail(a: seq<Record>)
    requires a != []
    ensures Bodies(a[1..]) == Bodies(a)[1..]
  {
  }

  lemma BodiesCons(r: Record, rest: seq<Record>)
    ensures Bodies([r] + rest) == [r.body] + Bodies(rest)
  {
  }

  lemma {:induction false} DropOptTwice(rs: seq<Record>, put: Record)
    requires put.body.Opt?
    ensures DropOpt(DropOpt(rs)) == DropOpt(rs) && DropOpt(DropOpt(rs) + [put]) == DropOpt(rs)
  {
    if rs == [] {
      assert [put][1..] == [];
    } else {
      DropOptTwice(rs[1..], put);
      if !rs[0].body.Opt? {
        var d := DropOpt(rs[1..]);
        assert DropOpt(rs) == [rs[0]] + d && ([rs[0]] + d)[1..] == d;
        assert (DropOpt(rs) + [put])[1..] == d + [put];
      }
    }
  }

  lemma FilteredDerives(q: Query, m: Message)
    requires q.request.questions != []
    ensures SameAnswers(Bodies(Filtered(q, m).answer), Bodies(m.answer))
    ensures Filtered(q, m).rcode == m.rcode && Filtered(q, m).ns == m.ns && Filtered(q, m).extra == m.extra
  {
  }

  lemma FinalDerives(cfg: Config, q: Query, m: Message)
    requires q.request.questions != []
    ensures Derived(Final(cfg, q, m), m)
  {
    var f := Filtered(q, m);
    var ttl := ChosenTtl(f, q.options.rewriteTtl);
    var n := Normalize(f, ttl).(id := q.request.id);
    FilteredDerives(q, m);
    assert Bodies(n.answer) == Bodies(f.answer) && Bodies(n.ns) == Bodies(m.ns) && Bodies(n.extra) == Bodies(m.extra);
    DropOptByBodies(n.extra, m.extra);
    DropOptTwice(n.extra, Record(0, Opt));
    DropOptTwice(n.extra, Record(0x8000, Opt));
  }

  lemma DecayDerives(m: Message, raw: Message, expireAt: int, now: int, id: nat)
    requires Derived(m, raw)
    ensures Derived(Decay(m, expireAt, now).(id := id), raw)
  {
    var d := Decay(m, expireAt, now);
    assert Bodies(d.answer) == Bodies(m.answer) && Bodies(d.ns) == Bodies(m.ns) && Bodies(d.extra) == Bodies(m.extra);
    DropOptByBodies(d.extra, m.extra);
  }

  // ----- What every run keeps -----

  /** A recorded answer that accounts for a cache entry. */
  ghost predicate Backs(cfg: Config, g: Given, key: Key, e: Entry) {
    && g.question == key.question && (cfg.independent ==> g.tag == key.tag)
    && g.cacheable && g.accepted && Cacheable(g.answer.rcode)
    && Derived(e.message, g.answer) && e.storedAt == g.at && e.ttl == Lifetime(g) > 0
    && (exists f :: FilteredFrom(f, g.answer) && e.message == FinishEdns(Normalize(f, e.ttl), e.ttl, g.requestVersion))
  }

  /** How long the answer may be served. */
  function Lifetime(g: Given): uint32 { ChosenTtl(g.answer, g.rewrite) }

  /** The same records up to HTTPS address hints; the id is free. */
  ghost predicate FilteredFrom(f: Message, raw: Message) {
    && f.ns == raw.ns && f.extra == raw.extra && SameAnswers(Bodies(f.answer), Bodies(raw.answer))
    && forall i :: 0 <= i < |raw.answer| ==> f.answer[i].ttl == raw.answer[i].ttl
  }

  ghost predicate Backed(cfg: Config, s: State, key: Key, e: Entry) {
    exists g :: g in s.history && Backs(cfg, g, key, e)
  }

  ghost predicate Inv(cfg: Config, s: State) {
    forall key :: key in s.cache ==> Backed(cfg, s, key, s.cache[key])
  }

  datatype Op = Ask(query: Query) | Evict(key: Key) | Purge

  function Apply(cfg: Config, s: State, op: Op): State {
    match op
    case Ask(q) => Exchange(cfg, s, q).0
    case Evict(key) => s.(cache := s.cache - {key})
    case Purge => s.(cache := map[])
  }

  function Run(cfg: Config, ops: seq<Op>): State {
    if ops == [] then State(map[], {}) else Apply(cfg, Run(cfg, ops[..|ops| - 1]), ops[|ops| - 1])
  }

  lemma BackedStays(cfg: Config, s: State, s': State, key: Key)
    requires key in s.cache && Backed(cfg, s, key, s.cache[key]) && s.history <= s'.history
    ensures Backed(cfg, s', key, s.cache[key])
  {
    var g :| g in s.history && Backs(cfg, g, key, s.cache[key]);
    assert g in s'.history;
  }

  /** Filtering hints changes neither the chosen TTL nor what the EDNS clean-up looks at. */
  lemma FilteredKeeps(f: Message, raw: Message, rewrite: Option<uint32>)
    requires FilteredFrom(f, raw)
    ensures ChosenTtl(f, rewrite) == ChosenTtl(raw, rewrite)
    ensures KeepsSome(f) == KeepsSome(raw) && HasData(Records(f)) == HasData(Records(raw))
  {
    var a, b := Records(f), Records(raw);
    assert |Bodies(f.answer)| == |Bodies(raw.answer)|;
    assert |a| == |b| && forall i :: 0 <= i < |a| ==> a[i].ttl == b[i].ttl;
    assert IsLowest(b, Lowest(a)) by { SameTtlsSameLowest(a, b, Lowest(a)); }
    LowestIsUnique(b, Lowest(a), Lowest(b));
    assert HasData(f.answer) == HasData(raw.answer) by { SameDataAnswers(f.answer, raw.answer); }
    DataOfRecords(f);
    DataOfRecords(raw);
  }

  lemma SameTtlsSameLowest(a: seq<Record>, b: seq<Record>, ttl: uint32)
    requires |a| == |b| && (forall i :: 0 <= i < |a| ==> a[i].ttl == b[i].ttl) && IsLowest(a, ttl)
    ensures IsLowest(b, ttl)
  {
    if ttl > 0 {
      var i :| 0 <= i < |a| && a[i].ttl == ttl;
      assert b[i].ttl == ttl;
    }
  }

  lemma SameDataAnswers(a: seq<Record>, b: seq<Record>)
    requires SameAnswers(Bodies(a), Bodies(b))
    ensures HasData(a) == HasData(b)
  {
    assert |a| == |Bodies(a)| == |b|;
    assert forall i :: 0 <= i < |a| ==> SameAnswer(Bodies(a)[i], Bodies(b)[i]) && a[i].body.Opt? == b[i].body.Opt?;
    if HasData(a) {
      var i :| 0 <= i < |a| && !a[i].body.Opt?;
      assert b[i] in b;
    }
    if HasData(b) {
      var i :| 0 <= i < |b| && !b[i].body.Opt?;
      assert a[i] in a;
    }
  }

  lemma FilteredIsFrom(q: Query, m: Message)
    requires q.request.questions != []
    ensures FilteredFrom(Filtered(q, m).(id := q.request.id), m)
  {
    FilteredDerives(q, m);
  }

  lemma FreshEntryIsBacked(cfg: Config, s: State, q: Query)
    requires Exchange(cfg, s, q).1.Fresh? && KeyFor(cfg, q) in Exchange(cfg, s, q).0.cache
    requires !Uncached(cfg, q)
    ensures var s' := Exchange(cfg, s, q).0; Backed(cfg, s', KeyFor(cfg, q), s'.cache[KeyFor(cfg, q)])
  {
    FreshEntryIs(cfg, s, q);
    FinalBacks(cfg, q);
  }

  function GivenBy(cfg: Config, q: Query): Given
    requires q.request.questions != [] && !q.reply.Failed?
  {
    Given(q.tag, q.request.questions[0], Raw(q), true, true, q.options.rewriteTtl, AskedVersion(cfg, q), q.now)
  }

  lemma FreshEntryIs(cfg: Config, s: State, q: Query)
    requires Exchange(cfg, s, q).1.Fresh? && KeyFor(cfg, q) in Exchange(cfg, s, q).0.cache
    requires !Uncached(cfg, q)
    ensures !q.reply.Failed? && Cacheable(Raw(q).rcode) && ChosenTtl(Filtered(q, Raw(q)), q.options.rewriteTtl) > 0
    ensures var s' := Exchange(cfg, s, q).0;
            GivenBy(cfg, q) in s'.history && s'.cache[KeyFor(cfg, q)] ==
              Entry(Final(cfg, q, Raw(q)), q.now, ChosenTtl(Filtered(q, Raw(q)), q.options.rewriteTtl))
  {
  }

  lemma FinalBacks(cfg: Config, q: Query)
    requires q.request.questions != [] && !q.reply.Failed? && Cacheable(Raw(q).rcode)
    requires ChosenTtl(Filtered(q, Raw(q)), q.options.rewriteTtl) > 0
    ensures Backs(cfg, GivenBy(cfg, q), KeyFor(cfg, q),
                  Entry(Final(cfg, q, Raw(q)), q.now, ChosenTtl(Filtered(q, Raw(q)), q.options.rewriteTtl)))
  {
    var f := Filtered(q, Raw(q)).(id := q.request.id);
    var ttl := ChosenTtl(Filtered(q, Raw(q)), q.options.rewriteTtl);
    FinalDerives(cfg, q, Raw(q));
    FilteredIsFrom(q, Raw(q));
    FilteredKeeps(f, Raw(q), q.options.rewriteTtl);
    assert ChosenTtl(f, q.options.rewriteTtl) == ttl by { assert Records(f) == Records(Filtered(q, Raw(q))); }
    assert Normalize(f, ttl) == Normalize(Filtered(q, Raw(q)), ttl).(id := q.request.id);
    assert Final(cfg, q, Raw(q)) == FinishEdns(Normalize(f, ttl), ttl, AskedVersion(cfg, q));
  }

  /** What an exchange may do to the cache. */
  lemma ExchangeEffect(cfg: Config, s: State, q: Query)
    ensures var (s', r) := Exchange(cfg, s, q);
            && s.history <= s'.history
            && forall key :: key in s'.cache ==>
                 (key in s.cache && s'.cache[key] == s.cache[key]) ||
                 (r.Fresh? && !Uncached(cfg, q) && q.request.questions != [] && key == KeyFor(cfg, q))
  {
  }

  lemma ExchangeKeeps(cfg: Config, s: State, q: Query)
    requires Inv(cfg, s)
    ensures Inv(cfg, Exchange(cfg, s, q).0)
  {
    var s' := Exchange(cfg, s, q).0;
    ExchangeEffect(cfg, s, q);
    forall key | key in s'.cache ensures Backed(cfg, s', key, s'.cache[key]) {
      if key in s.cache && s'.cache[key] == s.cache[key] {
        BackedStays(cfg, s, s', key);
      } else {
        FreshEntryIsBacked(cfg, s, q);
      }
    }
  }

  lemma {:induction false} RunKeeps(cfg: Config, ops: seq<Op>)
    ensures Inv(cfg, Run(cfg, ops))
  {
    if ops == [] {
    } else {
      var before, op := Run(cfg, ops[..|ops| - 1]), ops[|ops| - 1];
      RunKeeps(cfg, ops[..|ops| - 1]);
      if op.Ask? {
        ExchangeKeeps(cfg, before, op.query);
      } else {
        forall key | key in Run(cfg, ops).cache ensures Backed(cfg, Run(cfg, ops), key, Run(cfg, ops).cache[key]) {
          BackedStays(cfg, before, Run(cfg, ops), key);
        }
      }
    }
  }

  // ----- What a hit is -----

  /** `m` is a good thing to serve at `q.now` for the recorded answer `g`. */
  ghost predicate GoodHit(cfg: Config, q: Query, g: Given, m: Message) {
    && q.request.questions != [] && g.question == q.request.questions[0] && (cfg.independent ==> g.tag == q.tag)
    && g.cacheable && g.accepted && Cacheable(g.answer.rcode) && Derived(m, g.answer) && m.id == q.request.id
    && (!cfg.disableExpire ==> InTime(g, q.now) && (g.at <= q.now ==> ServesRemaining(g, q.now, m)))
    && (cfg.disableExpire ==> CleanedUp(m, Lifetime(g), PutBack(g.answer.extra, Lifetime(g), g.requestVersion)))
  }

  /** Within its lifetime and, unless rewritten or empty, within every positive TTL it carried. */
  ghost predicate InTime(g: Given, now: int) {
    && now <= g.at + Seconds(Lifetime(g))
    && (g.answer.answer != [] && g.rewrite.None? ==>
          forall r :: r in Records(g.answer) && r.ttl > 0 ==> now <= g.at + Seconds(r.ttl))
  }

  /** Every record carries the whole seconds that remain, exactly unless an OPT was put back beside a
      record that stays; the data records do, exactly unless that OPT carries the DO bit. */
  ghost predicate Serves(served: seq<Record>, raw: Message, ttl: uint32, requestVersion: Option<nat>, left: int) {
    var readded := OptReadded(raw.extra, ttl, requestVersion);
    && 0 <= left <= ttl
    && (AllServe(served, left) <==> !(readded && KeepsSome(raw)))
    && (DataServe(served, left) <==> !(readded && DoBit(ttl) && HasData(Records(raw))))
  }

  ghost predicate ServesRemaining(g: Given, now: int, m: Message) {
    Serves(Records(m), g.answer, Lifetime(g), g.requestVersion, Remaining(g.at + Seconds(Lifetime(g)), now))
  }

  /** In every run, a hit is an answer that some transport, the same one in independent mode, gave to
      this question, cacheable and accepted; it is within its lifetime; and it is served with the
      seconds that remain of that lifetime, exactly unless an OPT was put back into it. */
  lemma HitsAreGood(cfg: Config, ops: seq<Op>, q: Query)
    requires Exchange(cfg, Run(cfg, ops), q).1.Hit?
    ensures exists g :: g in Run(cfg, ops).history && GoodHit(cfg, q, g, Exchange(cfg, Run(cfg, ops), q).1.message)
  {
    var s := Run(cfg, ops);
    RunKeeps(cfg, ops);
    HitIsLoaded(cfg, s, q);
    var key := KeyFor(cfg, q);
    assert Backed(cfg, s, key, s.cache[key]);
    var g :| g in s.history && Backs(cfg, g, key, s.cache[key]);
    BackedHitIsGood(cfg, q, g, s.cache[key], Exchange(cfg, s, q).1.message);
  }

  /** What a hit takes from the entry. */
  ghost predicate Loaded(cfg: Config, q: Query, e: Entry, m: Message) {
    if cfg.disableExpire then m == e.message.(id := q.request.id)
    else q.now <= ExpireAt(e) && m == Decay(e.message, ExpireAt(e), q.now).(id := q.request.id)
  }

  lemma HitIsLoaded(cfg: Config, s: State, q: Query)
    requires Exchange(cfg, s, q).1.Hit?
    ensures q.request.questions != [] && KeyFor(cfg, q) in s.cache
    ensures Loaded(cfg, q, s.cache[KeyFor(cfg, q)], Exchange(cfg, s, q).1.message)
  {
  }

  lemma BackedHitIsGood(cfg: Config, q: Query, g: Given, e: Entry, m: Message)
    requires q.request.questions != [] && Backs(cfg, g, KeyFor(cfg, q), e) && Loaded(cfg, q, e, m)
    ensures GoodHit(cfg, q, g, m)
  {
    var f :| FilteredFrom(f, g.answer) && e.message == FinishEdns(Normalize(f, e.ttl), e.ttl, g.requestVersion);
    if cfg.disableExpire {
      StoredIsCleanedUp(g, e.message, f);
      assert Records(m) == Records(e.message);
    } else {
      DecayDerives(e.message, g.answer, ExpireAt(e), q.now, q.request.id);
      LifetimeIsInTime(g, q.now);
      if g.at <= q.now {
        ServesWhatIsLeft(f, e.ttl, g.requestVersion, ExpireAt(e), q.now);
        ServesTheSame(Records(Decay(e.message, ExpireAt(e), q.now)), f, g.answer, e.ttl, g.requestVersion,
          Remaining(ExpireAt(e), q.now));
        assert Records(m) == Records(Decay(e.message, ExpireAt(e), q.now));
      }
    }
  }

  lemma StoredIsCleanedUp(g: Given, stored: Message, f: Message)
    requires FilteredFrom(f, g.answer) && stored == FinishEdns(Normalize(f, Lifetime(g)), Lifetime(g), g.requestVersion)
    ensures CleanedUp(stored, Lifetime(g), PutBack(g.answer.extra, Lifetime(g), g.requestVersion))
  {
    FinishCleansUp(f, Lifetime(g), g.requestVersion);
    NormalizedHas(f, Lifetime(g));
  }

  lemma LifetimeIsInTime(g: Given, now: int)
    requires now <= g.at + Seconds(Lifetime(g))
    ensures InTime(g, now)
  {
    if g.answer.answer != [] && g.rewrite.None? {
      forall r | r in Records(g.answer) && r.ttl > 0 ensures now <= g.at + Seconds(r.ttl) {
        var i :| 0 <= i < |Records(g.answer)| && Records(g.answer)[i] == r;
        NeverKeptTooLong(g.answer, i);
      }
    }
  }

  lemma ServesTheSame(
    served: seq<Record>, f: Message, raw: Message, ttl: uint32, requestVersion: Option<nat>, left: int)
    requires FilteredFrom(f, raw) && Serves(served, f, ttl, requestVersion, left)
    ensures Serves(served, raw, ttl, requestVersion, left)
  {
    FilteredKeeps(f, raw, None);
  }

  lemma ServesWhatIsLeft(f: Message, ttl: uint32, requestVersion: Option<nat>, expireAt: int, now: int)
    requires ttl > 0 && now <= expireAt <= now + Seconds(ttl)
    ensures var served := Decay(FinishEdns(Normalize(f, ttl), ttl, requestVersion), expireAt, now);
            Serves(Records(served), f, ttl, requestVersion, Remaining(expireAt, now))
  {
    ServedRightExactly(f, ttl, requestVersion, expireAt, now);
    DataServedRightExactly(f, ttl, requestVersion, expireAt, now);
  }

  /** After its lifetime an entry is a miss, and the call that finds it removes it. */
  lemma ExpiredIsMissed(cfg: Config, s: State, q: Query)
    requires q.request.questions != [] && !cfg.disableExpire && !Uncached(cfg, q)
    requires KeyFor(cfg, q) in s.cache && q.now > ExpireAt(s.cache[KeyFor(cfg, q)])
    ensures !Exchange(cfg, s, q).1.Hit?
    ensures var s' := Exchange(cfg, s, q).0;
            StrategyRejects(q) || KeyFor(cfg, q) !in s'.cache || s'.cache[KeyFor(cfg, q)].storedAt == q.now
  {
  }

  /** With a client-wide subnet nothing is ever served from or written to the cache. */
  lemma {:induction false} SubnetDisablesCache(cfg: Config, ops: seq<Op>)
    requires cfg.subnet
    ensures Run(cfg, ops).cache == map[]
    ensures forall q :: !Exchange(cfg, Run(cfg, ops), q).1.Hit?
  {
    if ops == [] {
    } else {
      SubnetDisablesCache(cfg, ops[..|ops| - 1]);
      if ops[|ops| - 1].Ask? { SubnetIsNeverSimple(ops[|ops| - 1].query.request); }
    }
  }

  // ----- The client object -----

  method FindNegativeTtl(ns: seq<Record>) returns (ttl: Option<uint32>)
    ensures ttl == NegativeTtl(ns)
  {
    assert ns[0..] == ns;
    for i := 0 to |ns|
      invariant NegativeTtl(ns[i..]) == NegativeTtl(ns)
    {
      assert ns[i..][1..] == ns[i + 1..];
      match ns[i].body {
        case Soa(_, minttl) => return Some(if ns[i].ttl < minttl then ns[i].ttl else minttl);
        case _ =>
      }
    }
    return None;
  }

  method WriteTtl(rs: seq<Record>, ttl: uint32) returns (out: seq<Record>)
    ensures out == SetTtl(rs, ttl)
  {
    out := [];
    for i := 0 to |rs|
      invariant |out| == i && forall k :: 0 <= k < i ==> out[k] == rs[k].(ttl := ttl)
    {
      out := out + [rs[i].(ttl := ttl)];
    }
  }

  method StripHints(rs: seq<Record>, strategy: Strategy) returns (out: seq<Record>)
    ensures out == FilterHttps(rs, strategy)
  {
    out := [];
    for i := 0 to |rs|
      invariant |out| == i && forall k :: 0 <= k < i ==> out[k] == FilterRecord(rs[k], strategy)
    {
      out := out +
        [if rs[i].body.Https? then rs[i].(body := rs[i].body.(hints := KeepHints(rs[i].body.hints, strategy)))
          else rs[i]];
    }
  }

  /** The tail of Exchange: hints, TTL, id and EDNS. */
  method Finish(cfg: Config, q: Query, m: Message) returns (final: Message, ttl: uint32)
    requires q.request.questions != []
    ensures final == Final(cfg, q, m) && ttl == ChosenTtl(Filtered(q, m), q.options.rewriteTtl)
  {
    var f := m;
    if q.request.questions[0].qtype.TypeHTTPS? && (q.options.strategy.IPv4Only? || q.options.strategy.IPv6Only?) {
      var answer := StripHints(f.answer, q.options.strategy);
      f := f.(answer := answer);
    }
    ttl := 0;
    if f.answer == [] {
      var negative := FindNegativeTtl(f.ns);
      if negative.Some? { ttl := negative.value; }
    }
    if ttl == 0 { ttl := ScanTtl(f); }
    if q.options.rewriteTtl.Some? { ttl := q.options.rewriteTtl.value; }
    var answer := WriteTtl(f.answer, ttl);
    var ns := WriteTtl(f.ns, ttl);
    var extra := WriteTtl(f.extra, ttl);
    final := FinishEdns(f.(id := q.request.id, answer := answer, ns := ns, extra := extra), ttl, AskedVersion(cfg, q));
  }

  class Client {
    const cfg: Config
    var cache: map<Key, Entry>
    ghost var history: set<Given>

    ghost function Abs(): State
      reads this
    {
      State(cache, history)
    }

    constructor (cfg: Config)
      ensures this.cfg == cfg && Abs() == Run(cfg, [])
    {
      this.cfg, cache, history := cfg, map[], {};
    }

    method Ask(q: Query) returns (result: Result)
      modifies this
      ensures (Abs(), result) == Exchange(cfg, old(Abs()), q)
      ensures old(Inv(cfg, Abs())) ==> Inv(cfg, Abs())
    {
      if Inv(cfg, Abs()) { ExchangeKeeps(cfg, Abs(), q); }
      if q.request.questions == [] { return FormatError; }
      if StrategyRejects(q) { return StrategyRejected; }
      var key := KeyFor(cfg, q);
      var disableCache := Uncached(cfg, q);
      if !disableCache {
        var loaded := Load(cfg, cache, key, q.now);
        if loaded.Some? { return Hit(loaded.value.(id := q.request.id)); }
        cache := cache - {key};
      }
      if q.loopback { return Loopback; }
      if !disableCache && q.checker.Some? && q.rejectedBefore { return RejectedCached; }
      if q.reply.Failed? { return TransportError; }
      var m := Raw(q);
      history := history +
        {Given(q.tag, q.request.questions[0], m, !disableCache, Accepts(q, m), q.options.rewriteTtl,
          AskedVersion(cfg, q), q.now)};
      disableCache := disableCache || !Cacheable(m.rcode);
      if !Accepts(q, m) { return Rejected; }
      var final, ttl := Finish(cfg, q, m);
      if !disableCache && ttl != 0 { cache := cache[key := Entry(final, q.now, ttl)]; }
      return Fresh(final);
    }

    method Clear()
      modifies this`cache
      ensures Abs() == Apply(cfg, old(Abs()), Purge)
    {
      cache := map[];
    }
  }
}
