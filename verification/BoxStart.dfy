/** Staged startup of a box: the managers and their members are offered the four stages in
    the order written in box.go, and the run stops at the first failure.

    `level[c]` is the number of stages component c has gone through; the log lists who was offered
    which stage.  Failures are given by a predicate on these events. */
module BoxStart {
  import DS = DependencyStart
  import Decimal

  datatype Component =
    Network | DnsTransport | DnsRouter | Connection | Router | Outbound | Inbound | Endpoint | Service | Internal

  const INITIALIZE: nat := 0
  const START: nat := 1
  const POST_START: nat := 2
  const STARTED: nat := 3

  datatype Item = Itself(component: Component) | Member(component: Component, tag: string) | Fallback
  datatype Event = Event(item: Item, stage: nat)

  /** `final` is the configured default outbound. */
  datatype Config = Config(
    outbounds: seq<DS.Item>, endpoints: seq<DS.Item>, transports: seq<DS.Item>,
    inbounds: seq<string>, services: seq<string>, internals: seq<string>, final: string)

  type Levels = map<Component, nat>

  const DIRECT := DS.Item("direct", [])

  predicate UsesFallback(cfg: Config) { cfg.outbounds == [] && cfg.final == "" }

  /** What the outbound manager starts in its Start stage. */
  function StartList(cfg: Config): seq<DS.Item> {
    (if UsesFallback(cfg) then [DIRECT] else cfg.outbounds) + cfg.endpoints
  }

  function TagsOf(items: seq<DS.Item>): (r: seq<string>)
    ensures |r| == |items| && forall i :: 0 <= i < |items| ==> r[i] == items[i].tag
  {
    seq(|items|, i requires 0 <= i < |items| => items[i].tag)
  }

  function Tags(cfg: Config, c: Component): seq<string> {
    match c
    case Outbound => TagsOf(cfg.outbounds)
    case Endpoint => TagsOf(cfg.endpoints)
    case DnsTransport => TagsOf(cfg.transports)
    case Inbound => cfg.inbounds
    case Service => cfg.services
    case Internal => cfg.internals
    case _ => []
  }

  ghost predicate Distinct<T>(s: seq<T>) { forall i, j :: 0 <= i < j < |s| ==> s[i] != s[j] }

  /** Tags are distinct per manager: Create replaces a member that is there under the same tag. */
  ghost predicate WellTagged(cfg: Config) { forall c: Component :: Distinct(Tags(cfg, c)) }

  /** They are also distinct across what the outbound manager starts. */
  ghost predicate NoClash(cfg: Config) { DS.DistinctTags(StartList(cfg)) }

  // ----- Who is offered a stage by which call -----

  /** Endpoints get the Start stage from the outbound manager and the other stages from their own. */
  ghost predicate Served(cfg: Config, c: Component, stage: nat, x: Item) {
    match x
    case Itself(d) => d == c
    case Member(d, tag) =>
      tag in Tags(cfg, d) &&
      (if d == Endpoint then (if stage == START then c == Outbound else c == Endpoint) else d == c)
    case Fallback => UsesFallback(cfg) && c == Outbound && stage >= START
  }

  const STAGES: seq<nat> := [0, 1, 2, 3]

  function EndpointLevel(levels: Levels): nat
    requires Endpoint in levels && Outbound in levels
  {
    if levels[Endpoint] == 0 then 0
    else if levels[Outbound] <= 1 then 1
    else if levels[Endpoint] <= 2 then 2
    else levels[Endpoint]
  }

  ghost predicate LevelsOk(levels: Levels) { forall c: Component :: c in levels && levels[c] <= 4 }

  /** The stages an item has been offered when every call so far was completed. */
  ghost function Expected(cfg: Config, levels: Levels, x: Item): seq<nat>
    requires LevelsOk(levels)
  {
    match x
    case Itself(c) => STAGES[..levels[c]]
    case Member(c, tag) =>
      if tag !in Tags(cfg, c) then []
      else if c == Endpoint then STAGES[..EndpointLevel(levels)]
      else STAGES[..levels[c]]
    case Fallback => if UsesFallback(cfg) && levels[Outbound] > 1 then STAGES[1..levels[Outbound]] else []
  }

  /** The call order that makes the endpoints' stages come out in order. */
  ghost predicate InTurn(levels: Levels, c: Component, stage: nat) {
    && LevelsOk(levels) && stage <= 3 && levels[c] == stage
    && (c == Outbound && stage == START ==> levels[Endpoint] == 1)
    && (c == Endpoint ==> (stage >= START <==> levels[Outbound] >= 2))
  }

  /** One completed call adds its stage to exactly those it serves. */
  lemma ExpectedGrows(cfg: Config, levels: Levels, c: Component, stage: nat, x: Item)
    requires InTurn(levels, c, stage)
    ensures LevelsOk(levels[c := stage + 1])
    ensures Expected(cfg, levels[c := stage + 1], x) ==
            Expected(cfg, levels, x) + if Served(cfg, c, stage, x) then [stage] else []
  {
    assert STAGES[..stage + 1] == STAGES[..stage] + [stage];
    assert stage >= 1 ==> STAGES[1..stage + 1] == STAGES[1..stage] + [stage];
    assert STAGES[1..2] == [1] && STAGES[1..1] == [];
    var levels' := levels[c := stage + 1];
    assert forall d: Component :: d in levels' && levels'[d] == if d == c then stage + 1 else levels[d];
    if x.Member? && x.component == Endpoint && x.tag in Tags(cfg, Endpoint) {
      assert EndpointLevel(levels') == EndpointLevel(levels) + if Served(cfg, c, stage, x) then 1 else 0;
    }
  }

  // ----- The log -----

  function Offered(log: seq<Event>, x: Item): seq<nat> {
    if log == [] then []
    else Offered(log[..|log| - 1], x) + if log[|log| - 1].item == x then [log[|log| - 1].stage] else []
  }

  function Events(items: seq<Item>, stage: nat): (r: seq<Event>)
    ensures |r| == |items| && forall i :: 0 <= i < |items| ==> r[i] == Event(items[i], stage)
  {
    seq(|items|, i requires 0 <= i < |items| => Event(items[i], stage))
  }

  lemma {:induction false} OfferedConcat(a: seq<Event>, b: seq<Event>, x: Item)
    ensures Offered(a + b, x) == Offered(a, x) + Offered(b, x)
  {
    if b == [] {
      assert a + b == a;
    } else {
      OfferedConcat(a, b[..|b| - 1], x);
      assert (a + b)[..|a + b| - 1] == a + b[..|b| - 1];
    }
  }

  lemma {:induction false} OfferedOnce(items: seq<Item>, stage: nat, x: Item)
    requires Distinct(items)
    ensures Offered(Events(items, stage), x) == if x in items then [stage] else []
  {
    if items == [] {
    } else {
      var front, last := items[..|items| - 1], items[|items| - 1];
      OfferedOnce(front, stage, x);
      assert Events(items, stage)[..|items| - 1] == Events(front, stage);
      assert items == front + [last] && last !in front;
    }
  }

  lemma {:induction false} OfferedIsLogged(log: seq<Event>, x: Item, stage: nat)
    requires stage in Offered(log, x)
    ensures Event(x, stage) in log
  {
    var n := |log| - 1;
    if stage in Offered(log[..n], x) {
      OfferedIsLogged(log[..n], x, stage);
    }
  }

  ghost predicate LogInv(cfg: Config, levels: Levels, log: seq<Event>) {
    LevelsOk(levels) && forall x :: Offered(log, x) == Expected(cfg, levels, x)
  }

  /** Everyone has been offered a strictly increasing prefix of the stages; the fallback outbound,
      which is created in the Start stage, misses the first. */
  ghost predicate Orderly(log: seq<Event>) {
    forall x :: Offered(log, x) <= (if x == Fallback then STAGES[1..] else STAGES)
  }

  /** No inbound is offered Start before every outbound, endpoint and DNS transport. */
  ghost predicate InboundsWait(cfg: Config, log: seq<Event>) {
    forall p, tag, x :: 0 <= p < |log| && log[p] == Event(Member(Inbound, tag), START) && NeededFirst(cfg, x) ==>
      Event(x, START) in log[..p]
  }

  ghost predicate NeededFirst(cfg: Config, x: Item) {
    (x.Member? && x.component in {Outbound, Endpoint, DnsTransport} && x.tag in Tags(cfg, x.component)) ||
    (x.Fallback? && UsesFallback(cfg))
  }

  // ----- One call -----

  /** The items offered by a call: only ones it serves, each once, and all of them if it completes. */
  ghost predicate Block(cfg: Config, c: Component, stage: nat, visited: seq<Item>, ok: bool) {
    && Distinct(visited) && (forall x :: x in visited ==> Served(cfg, c, stage, x))
    && (ok ==> forall x :: Served(cfg, c, stage, x) ==> x in visited)
  }

  lemma CompletedCall(cfg: Config, levels: Levels, log: seq<Event>, c: Component, stage: nat, visited: seq<Item>)
    requires LogInv(cfg, levels, log) && InTurn(levels, c, stage) && Block(cfg, c, stage, visited, true)
    ensures LogInv(cfg, levels[c := stage + 1], log + Events(visited, stage))
  {
    ExpectedGrows(cfg, levels, c, stage, Itself(c));
    forall x ensures Offered(log + Events(visited, stage), x) == Expected(cfg, levels[c := stage + 1], x) {
      OfferedConcat(log, Events(visited, stage), x);
      OfferedOnce(visited, stage, x);
      ExpectedGrows(cfg, levels, c, stage, x);
    }
  }

  lemma ExpectedIsOrderly(cfg: Config, levels: Levels, x: Item)
    requires LevelsOk(levels)
    ensures Expected(cfg, levels, x) <= (if x == Fallback then STAGES[1..] else STAGES)
  {
    assert forall n :: 0 <= n <= 4 ==> STAGES[..n] <= STAGES;
    assert forall n :: 1 <= n <= 4 ==> STAGES[1..n] <= STAGES[1..];
  }

  lemma AnyCallIsOrderly(
    cfg: Config, levels: Levels, log: seq<Event>, c: Component, stage: nat, visited: seq<Item>, ok: bool)
    requires LogInv(cfg, levels, log) && InTurn(levels, c, stage) && Block(cfg, c, stage, visited, ok)
    ensures Orderly(log + Events(visited, stage))
  {
    forall x ensures Offered(log + Events(visited, stage), x) <= (if x == Fallback then STAGES[1..] else STAGES) {
      OfferedConcat(log, Events(visited, stage), x);
      OfferedOnce(visited, stage, x);
      ExpectedGrows(cfg, levels, c, stage, x);
      ExpectedIsOrderly(cfg, levels, x);
      ExpectedIsOrderly(cfg, levels[c := stage + 1], x);
    }
  }

  lemma NeededIsDone(cfg: Config, levels: Levels, log: seq<Event>, x: Item)
    requires LogInv(cfg, levels, log) && NeededFirst(cfg, x)
    requires levels[Outbound] >= 2 && levels[DnsTransport] >= 2 && levels[Endpoint] >= 1
    ensures Event(x, START) in log
  {
    assert Offered(log, x) == Expected(cfg, levels, x);
    if x.Fallback? {
      assert STAGES[1..levels[Outbound]][0] == START;
    } else {
      var n := if x.component == Endpoint then EndpointLevel(levels) else levels[x.component];
      assert STAGES[..n][1] == START;
    }
    OfferedIsLogged(log, x, START);
  }

  lemma AnyCallKeepsInboundsWaiting(
    cfg: Config, levels: Levels, log: seq<Event>, c: Component, stage: nat, visited: seq<Item>, ok: bool)
    requires LogInv(cfg, levels, log) && InTurn(levels, c, stage) && Block(cfg, c, stage, visited, ok)
    requires InboundsWait(cfg, log)
    requires c == Inbound && stage == START ==>
              levels[Outbound] >= 2 && levels[DnsTransport] >= 2 && levels[Endpoint] >= 1
    ensures InboundsWait(cfg, log + Events(visited, stage))
  {
    var log' := log + Events(visited, stage);
    forall p, tag, x | 0 <= p < |log'| && log'[p] == Event(Member(Inbound, tag), START) && NeededFirst(cfg, x)
      ensures Event(x, START) in log'[..p]
    {
      if p < |log| {
        assert log[p] == log'[p] && log'[..p] == log[..p];
      } else {
        assert log'[p].item in visited;
        assert c == Inbound && stage == START;
        NeededIsDone(cfg, levels, log, x);
        assert log <= log'[..p];
      }
    }
  }

  // ----- The members visited by a call -----

  function ItemsFor(c: Component, tags: seq<string>): (r: seq<Item>)
    ensures |r| == |tags| + 1 && r[0] == Itself(c) && forall i :: 0 <= i < |tags| ==> r[i + 1] == Member(c, tags[i])
  {
    [Itself(c)] + seq(|tags|, i requires 0 <= i < |tags| => Member(c, tags[i]))
  }

  /** Offer a stage down a list, stopping at the first failure. */
  method Visit(items: seq<Item>, stage: nat, fails: Event -> bool) returns (visited: seq<Item>, ok: bool)
    ensures visited <= items && (ok ==> visited == items)
    ensures ok <==> forall x :: x in items ==> !fails(Event(x, stage))
  {
    for i := 0 to |items|
      invariant forall x :: x in items[..i] ==> !fails(Event(x, stage))
    {
      if fails(Event(items[i], stage)) { return items[..i + 1], false; }
    }
    assert items[..|items|] == items;
    return items, true;
  }

  lemma ItemsAreDistinct(c: Component, tags: seq<string>)
    requires Distinct(tags)
    ensures Distinct(ItemsFor(c, tags))
    ensures forall tag :: tag in tags ==> Member(c, tag) in ItemsFor(c, tags)
    ensures forall x :: x in ItemsFor(c, tags) ==> x == Itself(c) || (x.Member? && x.component == c && x.tag in tags)
  {
    var all := ItemsFor(c, tags);
    forall i, j | 0 <= i < j < |all| ensures all[i] != all[j] {
      if i > 0 { assert all[i] == Member(c, tags[i - 1]); }
      assert all[j] == Member(c, tags[j - 1]);
    }
    forall tag | tag in tags ensures Member(c, tag) in all {
      var i :| 0 <= i < |tags| && tags[i] == tag;
      assert all[i + 1] == Member(c, tag);
    }
    forall x | x in all ensures x == Itself(c) || (x.Member? && x.component == c && x.tag in tags) {
      var i :| 0 <= i < |all| && all[i] == x;
      if i > 0 { assert x == Member(c, tags[i - 1]); }
    }
  }

  lemma PrefixOfBlock(cfg: Config, c: Component, stage: nat, all: seq<Item>, visited: seq<Item>, ok: bool)
    requires Block(cfg, c, stage, all, true) && visited <= all && (ok ==> visited == all)
    ensures Block(cfg, c, stage, visited, ok)
  {
    assert forall i :: 0 <= i < |visited| ==> visited[i] == all[i];
  }

  lemma PlainBlock(cfg: Config, c: Component, stage: nat)
    requires WellTagged(cfg) && c != Outbound && !(c == Endpoint && stage == START)
    ensures Block(cfg, c, stage, ItemsFor(c, Tags(cfg, c)), true)
  {
    ItemsAreDistinct(c, Tags(cfg, c));
    assert ItemsFor(c, Tags(cfg, c))[0] == Itself(c);
  }

  lemma EndpointStartBlock(cfg: Config)
    ensures Block(cfg, Endpoint, START, [Itself(Endpoint)], true)
  {
  }

  /** The other stages of the outbound manager: the configured outbounds, or the fallback once it exists. */
  function OutboundItems(cfg: Config, stage: nat): seq<Item> {
    if UsesFallback(cfg) && stage >= START then [Itself(Outbound), Fallback]
    else ItemsFor(Outbound, TagsOf(cfg.outbounds))
  }

  lemma OutboundBlock(cfg: Config, stage: nat)
    requires WellTagged(cfg) && stage != START
    ensures Block(cfg, Outbound, stage, OutboundItems(cfg, stage), true)
  {
    assert Tags(cfg, Outbound) == TagsOf(cfg.outbounds);
    ItemsAreDistinct(Outbound, Tags(cfg, Outbound));
    var all := OutboundItems(cfg, stage);
    assert all[0] == Itself(Outbound);
    if UsesFallback(cfg) && stage >= START { assert all[1] == Fallback && Tags(cfg, Outbound) == []; }
  }

  /** Start-stage items of the outbound manager, by tag. */
  function ItemOf(cfg: Config, tag: string): Item {
    if UsesFallback(cfg) && tag == DIRECT.tag then Fallback
    else if tag in TagsOf(cfg.outbounds) then Member(Outbound, tag)
    else Member(Endpoint, tag)
  }

  function StartItems(cfg: Config, order: seq<string>): (r: seq<Item>)
    ensures |r| == |order| + 1 && r[0] == Itself(Outbound)
    ensures forall i :: 0 <= i < |order| ==> r[i + 1] == ItemOf(cfg, order[i])
  {
    [Itself(Outbound)] + seq(|order|, i requires 0 <= i < |order| => ItemOf(cfg, order[i]))
  }

  lemma ListedIsServed(cfg: Config, tag: string)
    requires tag in DS.Tags(StartList(cfg))
    ensures Served(cfg, Outbound, START, ItemOf(cfg, tag))
  {
    var list := StartList(cfg);
    var k :| 0 <= k < |list| && list[k].tag == tag;
    if !UsesFallback(cfg) || tag != DIRECT.tag {
      var n := if UsesFallback(cfg) then 1 else |cfg.outbounds|;
      if k < n {
        assert TagsOf(cfg.outbounds)[k] == tag;
      } else {
        assert TagsOf(cfg.endpoints)[k - n] == tag;
      }
    }
  }

  lemma ServedIsListed(cfg: Config, x: Item)
    requires NoClash(cfg) && Served(cfg, Outbound, START, x) && !x.Itself?
    ensures exists tag :: tag in DS.Tags(StartList(cfg)) && ItemOf(cfg, tag) == x
  {
    var list := StartList(cfg);
    var n := if UsesFallback(cfg) then 1 else |cfg.outbounds|;
    if x.Fallback? {
      assert list[0].tag == DIRECT.tag;
      assert DIRECT.tag in DS.Tags(list) && ItemOf(cfg, DIRECT.tag) == x;
    } else {
      var tags := Tags(cfg, x.component);
      var i :| 0 <= i < |tags| && tags[i] == x.tag;
      var k := if x.component == Endpoint then n + i else i;
      assert list[k].tag == x.tag && x.tag in DS.Tags(list);
      if x.component == Endpoint {
        assert x.tag !in TagsOf(cfg.outbounds) by {
          forall j | 0 <= j < |cfg.outbounds|
            ensures TagsOf(cfg.outbounds)[j] != x.tag
          {
            assert list[j].tag != list[k].tag;
          }
        }
        if UsesFallback(cfg) { assert list[0].tag != list[k].tag; }
      }
      assert ItemOf(cfg, x.tag) == x;
    }
  }

  lemma StartItemsAreServed(cfg: Config, order: seq<string>, x: Item)
    requires DS.StartOrder(StartList(cfg), order) && x in StartItems(cfg, order)
    ensures Served(cfg, Outbound, START, x)
  {
    var all := StartItems(cfg, order);
    DS.OrderElements(StartList(cfg), order);
    var i :| 0 <= i < |all| && all[i] == x;
    if i > 0 {
      assert order[i - 1] in DS.Elements(order);
      ListedIsServed(cfg, order[i - 1]);
    }
  }

  lemma ItemOfIsInjective(cfg: Config, a: string, b: string)
    requires a != b
    ensures ItemOf(cfg, a) != ItemOf(cfg, b) && !ItemOf(cfg, a).Itself?
  {
  }

  lemma StartItemsAreDistinct(cfg: Config, order: seq<string>)
    requires DS.StartOrder(StartList(cfg), order)
    ensures Distinct(StartItems(cfg, order))
  {
    var all := StartItems(cfg, order);
    forall i, j | 0 <= i < j < |all| ensures all[i] != all[j] {
      assert all[j] == ItemOf(cfg, order[j - 1]);
      if i > 0 {
        assert all[i] == ItemOf(cfg, order[i - 1]);
        assert order[i - 1] != order[j - 1] by { DS.StartOrderAt(StartList(cfg), order, j - 1); }
        ItemOfIsInjective(cfg, order[i - 1], order[j - 1]);
      }
    }
  }

  lemma StartItemsAreAll(cfg: Config, order: seq<string>, x: Item)
    requires NoClash(cfg) && DS.Elements(order) == DS.Tags(StartList(cfg)) && Served(cfg, Outbound, START, x)
    ensures x in StartItems(cfg, order)
  {
    var all := StartItems(cfg, order);
    if x.Itself? {
      assert all[0] == x;
    } else {
      ServedIsListed(cfg, x);
      var tag :| tag in DS.Tags(StartList(cfg)) && ItemOf(cfg, tag) == x;
      assert tag in DS.Elements(order);
      var i :| 0 <= i < |order| && order[i] == tag;
      assert all[i + 1] == x;
    }
  }

  lemma StartBlock(cfg: Config, order: seq<string>, ok: bool)
    requires DS.StartOrder(StartList(cfg), order)
    requires ok ==> NoClash(cfg) && DS.Elements(order) == DS.Tags(StartList(cfg))
    ensures Block(cfg, Outbound, START, StartItems(cfg, order), ok)
  {
    StartItemsAreDistinct(cfg, order);
    forall x | x in StartItems(cfg, order)
      ensures Served(cfg, Outbound, START, x)
    {
      StartItemsAreServed(cfg, order, x);
    }
    if ok {
      forall x | Served(cfg, Outbound, START, x)
        ensures x in StartItems(cfg, order)
      {
        StartItemsAreAll(cfg, order, x);
      }
    }
  }

  /** The Start stage of the DNS transport manager, in dependency order. */
  lemma TransportBlock(cfg: Config, order: seq<string>, ok: bool)
    requires DS.StartOrder(cfg.transports, order) && (ok ==> DS.Elements(order) == DS.Tags(cfg.transports))
    ensures Block(cfg, DnsTransport, START, ItemsFor(DnsTransport, order), ok)
  {
    assert Distinct(order) by {
      forall i, j | 0 <= i < j < |order| ensures order[i] != order[j] { DS.StartOrderAt(cfg.transports, order, j); }
    }
    ItemsAreDistinct(DnsTransport, order);
    DS.OrderElements(cfg.transports, order);
    var all := ItemsFor(DnsTransport, order);
    forall tag | tag in order ensures tag in Tags(cfg, DnsTransport) {
      assert tag in DS.Elements(order);
      var k :| 0 <= k < |cfg.transports| && cfg.transports[k].tag == tag;
      assert TagsOf(cfg.transports)[k] == tag;
    }
    if ok {
      forall tag | tag in Tags(cfg, DnsTransport) ensures tag in order {
        var k :| 0 <= k < |cfg.transports| && TagsOf(cfg.transports)[k] == tag;
        assert cfg.transports[k].tag in DS.Tags(cfg.transports);
        assert tag in DS.Elements(order);
      }
      assert all[0] == Itself(DnsTransport);
    }
  }

  function FailingTransports(cfg: Config, fails: Event -> bool): set<string> {
    set tag | tag in TagsOf(cfg.transports) && fails(Event(Member(DnsTransport, tag), START))
  }

  lemma NoTransportFails(cfg: Config, fails: Event -> bool)
    ensures DS.NoneFails(cfg.transports, FailingTransports(cfg, fails)) <==>
            forall tag :: tag in TagsOf(cfg.transports) ==> !fails(Event(Member(DnsTransport, tag), START))
  {
    var tags := TagsOf(cfg.transports);
    assert forall k :: 0 <= k < |tags| ==> tags[k] == cfg.transports[k].tag && tags[k] in tags;
  }

  lemma TransportTagsDistinct(cfg: Config)
    requires WellTagged(cfg)
    ensures DS.DistinctTags(cfg.transports)
  {
    var tags := Tags(cfg, DnsTransport);
    assert forall i :: 0 <= i < |tags| ==> tags[i] == cfg.transports[i].tag;
  }

  /** Nothing but a clash of tags keeps the outbounds and endpoints from starting. */
  ghost predicate GoodStart(cfg: Config, fails: Event -> bool) {
    && !DefaultMissing(cfg) && DS.Closed(StartList(cfg)) && DS.Acyclic(StartList(cfg))
    && forall x :: Served(cfg, Outbound, START, x) ==> !fails(Event(x, START))
  }

  predicate DefaultMissing(cfg: Config) {
    cfg.final != "" && cfg.final !in TagsOf(cfg.outbounds) && cfg.final !in TagsOf(cfg.endpoints)
  }

  // ----- The box -----

  datatype Outcome =
    | Completed
    | LoggerFailed
    | Failed(component: Component, stage: nat)
    | Panicked(component: Component, stage: nat)   // "already started"
    | Crashed                                      // nil dereference in the start loop

  /** Managers that panic with "already started" when a stage is not above the last one. */
  predicate Guarded(c: Component) {
    c == DnsTransport || c == Outbound || c == Inbound || c == Endpoint || c == Service
  }

  const ZERO_LEVELS: Levels :=
    map[Network := 0, DnsTransport := 0, DnsRouter := 0, Connection := 0, Router := 0,
        Outbound := 0, Inbound := 0, Endpoint := 0, Service := 0, Internal := 0]

  lemma ZeroLevels()
    ensures forall c: Component :: c in ZERO_LEVELS && ZERO_LEVELS[c] == 0
  {
    forall c: Component ensures c in ZERO_LEVELS && ZERO_LEVELS[c] == 0 {
      match c {
        case Network => case DnsTransport => case DnsRouter => case Connection => case Router =>
        case Outbound => case Inbound => case Endpoint => case Service => case Internal =>
      }
    }
  }

  // The orders in which box.go lists the components.
  const INIT_ORDER := [Network, DnsTransport, DnsRouter, Connection, Router, Outbound, Inbound, Endpoint, Service]
  const POST_ORDER := [Outbound, Network, DnsTransport, DnsRouter, Connection, Router, Inbound, Endpoint, Service]
  const CORE_ORDER := [Outbound, DnsTransport, DnsRouter, Network, Connection, Router]
  const LATE_ORDER := [Inbound, Endpoint, Service]

  predicate IsLate(c: Component) { c == Inbound || c == Endpoint || c == Service }

  class Box {
    const cfg: Config
    var levels: Levels
    var log: seq<Event>

    ghost predicate Valid()
      reads this
    {
      WellTagged(cfg) && LogInv(cfg, levels, log) && InboundsWait(cfg, log)
    }

    constructor (cfg: Config)
      requires WellTagged(cfg)
      ensures this.cfg == cfg && Valid() && (forall c: Component :: levels[c] == 0)
    {
      this.cfg := cfg;
      levels, log := ZERO_LEVELS, [];
      new;
      ZeroLevels();
    }

    /** The Start stage of the outbound manager: outbounds or the fallback, and the endpoints, in dependency order.
        Otherwise good ones start exactly when no tags clash, and a clash crashes the loop. */
    method StartOutbounds(fails: Event -> bool) returns (visited: seq<Item>, ok: bool, crashed: bool)
      requires WellTagged(cfg)
      ensures Block(cfg, Outbound, START, visited, ok)
      ensures ok ==> NoClash(cfg)
      ensures crashed ==> !ok && !NoClash(cfg)
      ensures GoodStart(cfg, fails) ==> (ok <==> NoClash(cfg)) && (crashed <==> !NoClash(cfg))
    {
      if DefaultMissing(cfg) || fails(Event(Itself(Outbound), START)) {
        StartBlock(cfg, [], false);
        return StartItems(cfg, []), false, false;
      }
      var list := StartList(cfg);
      var failing := set k | 0 <= k < |list| && fails(Event(ItemOf(cfg, list[k].tag), START)) :: list[k].tag;
      var own := if UsesFallback(cfg) then [DIRECT] else cfg.outbounds;
      assert forall i, j :: 0 <= i < j < |own| ==> own[i].tag != own[j].tag by {
        assert forall k :: 0 <= k < |cfg.outbounds| ==> Tags(cfg, Outbound)[k] == cfg.outbounds[k].tag;
      }
      var byTag := map k | 0 <= k < |own| :: own[k].tag := own[k];
      var outcome, order := DS.StartAll(list, byTag, failing);
      StartBlock(cfg, order, outcome.Started?);
      if GoodStart(cfg, fails) {
        forall k | 0 <= k < |list| ensures list[k].tag !in failing {
          assert list[k].tag in DS.Tags(list);
          ListedIsServed(cfg, list[k].tag);
        }
      }
      return StartItems(cfg, order), outcome.Started?, outcome.NilDereference?;
    }

    /** The Start stage of the DNS transport manager: all start exactly when each dependency is a transport,
        there is no cycle and none fails. */
    method StartTransports(fails: Event -> bool) returns (visited: seq<Item>, ok: bool)
      requires WellTagged(cfg)
      ensures Block(cfg, DnsTransport, START, visited, ok)
      ensures !fails(Event(Itself(DnsTransport), START)) ==>
                (ok <==> DS.Closed(cfg.transports) && DS.Acyclic(cfg.transports) &&
                         forall tag :: tag in TagsOf(cfg.transports) ==>
                           !fails(Event(Member(DnsTransport, tag), START)))
    {
      if fails(Event(Itself(DnsTransport), START)) {
        TransportBlock(cfg, [], false);
        return ItemsFor(DnsTransport, []), false;
      }
      var list := cfg.transports;
      TransportTagsDistinct(cfg);
      var byTag := map k | 0 <= k < |list| :: list[k].tag := list[k];
      var outcome, order := DS.StartAll(list, byTag, FailingTransports(cfg, fails));
      TransportBlock(cfg, order, outcome.Started?);
      NoTransportFails(cfg, fails);
      return ItemsFor(DnsTransport, order), outcome.Started?;
    }

    /** Whom one call offers its stage, whether it completes, and whether it crashes. */
    method Members(c: Component, stage: nat, fails: Event -> bool) returns (visited: seq<Item>, ok: bool, crashed: bool)
      requires WellTagged(cfg)
      ensures Block(cfg, c, stage, visited, ok)
      ensures ok && c == Outbound && stage == START ==> NoClash(cfg)
      ensures crashed ==> !ok && c == Outbound && stage == START && !NoClash(cfg)
    {
      crashed := false;
      if c == Outbound && stage == START {
        visited, ok, crashed := StartOutbounds(fails);
        return;
      }
      if c == DnsTransport && stage == START {
        visited, ok := StartTransports(fails);
        return;
      }
      var items := if c == Outbound then OutboundItems(cfg, stage)
                   else if c == Endpoint && stage == START then [Itself(Endpoint)]
                   else ItemsFor(c, Tags(cfg, c));
      visited, ok := Visit(items, stage, fails);
      if c == Outbound { OutboundBlock(cfg, stage); }
      else if c == Endpoint && stage == START { EndpointStartBlock(cfg); }
      else { PlainBlock(cfg, c, stage); }
      PrefixOfBlock(cfg, c, stage, items, visited, ok);
    }

    /** One component through one stage. */
    method Call(c: Component, stage: nat, fails: Event -> bool) returns (outcome: Outcome)
      requires Valid() && (InTurn(levels, c, stage) || (Guarded(c) && levels[c] > stage))
      requires c == Inbound && stage == START && levels[c] == stage ==>
                 levels[Outbound] >= 2 && levels[DnsTransport] >= 2 && levels[Endpoint] >= 1
      modifies this
      ensures InboundsWait(cfg, log)
      ensures outcome == Panicked(c, stage) <==> Guarded(c) && old(levels[c]) > stage
      ensures outcome.Completed? ==>
                Valid() && levels == old(levels)[c := stage + 1] && (c == Outbound && stage == START ==> NoClash(cfg))
      ensures outcome.Crashed? ==> c == Outbound && stage == START && !NoClash(cfg)
      ensures !outcome.Panicked? ==> Orderly(log)
      ensures outcome.Panicked? ==> unchanged(this)
      ensures outcome.Completed? || outcome == Failed(c, stage) || outcome == Panicked(c, stage) || outcome.Crashed?
    {
      if Guarded(c) && levels[c] > stage { return Panicked(c, stage); }
      var visited, ok, crashed := Members(c, stage, fails);
      AnyCallIsOrderly(cfg, levels, log, c, stage, visited, ok);
      AnyCallKeepsInboundsWaiting(cfg, levels, log, c, stage, visited, ok);
      if ok { CompletedCall(cfg, levels, log, c, stage, visited); }
      log := log + Events(visited, stage);
      if !ok { return if crashed then Crashed else Failed(c, stage); }
      levels := levels[c := stage + 1];
      return Completed;
    }

    /** adapter.Start and adapter.StartNamed: one stage down a list of components. */
    method Phase(stage: nat, components: seq<Component>, fails: Event -> bool) returns (outcome: Outcome)
      requires Valid() && stage <= 3 && Distinct(components) && forall c :: c in components ==> levels[c] == stage
      requires Outbound in components && stage == START ==> levels[Endpoint] == 1 && Endpoint !in components
      requires Endpoint in components ==> (stage >= START <==> levels[Outbound] >= 2)
      requires Inbound in components && stage == START ==>
                 levels[Outbound] >= 2 && levels[DnsTransport] >= 2 && levels[Endpoint] >= 1
      modifies this
      ensures Orderly(log) && InboundsWait(cfg, log)
      ensures outcome.Completed? || (outcome.Failed? && outcome.component in components && outcome.stage == stage) ||
                outcome.Crashed?
      ensures outcome.Crashed? ==> Outbound in components && stage == START && !NoClash(cfg)
      ensures outcome.Completed? && Outbound in components && stage == START ==> NoClash(cfg)
      ensures outcome.Completed? ==>
        Valid() && forall c: Component :: levels[c] == if c in components then stage + 1 else old(levels[c])
    {
      ValidIsOrderly(cfg, levels, log);
      for i := 0 to |components|
        invariant Valid() && Orderly(log) && (Outbound in components[..i] && stage == START ==> NoClash(cfg))
        invariant forall c: Component :: levels[c] == if c in components[..i] then stage + 1 else old(levels[c])
      {
        assert components[i] !in components[..i];
        outcome := Call(components[i], stage, fails);
        if !outcome.Completed? { return; }
        assert components[..i + 1] == components[..i] + [components[i]];
      }
      assert components[..|components|] == components;
      return Completed;
    }

    method InternalPhase(stage: nat, fails: Event -> bool) returns (outcome: Outcome)
      requires Valid() && stage <= 3 && levels[Internal] == stage
      modifies this
      ensures !outcome.Panicked? && !outcome.Crashed? && Orderly(log) && InboundsWait(cfg, log)
      ensures outcome.Completed? ==>
        Valid() && forall c: Component :: levels[c] == if c == Internal then stage + 1 else old(levels[c])
    {
      outcome := Phase(stage, [Internal], fails);
    }

    /** The Initialize and finish-start calls to all managers. */
    method InitOrderPhase(stage: nat, fails: Event -> bool) returns (outcome: Outcome)
      requires Valid() && (stage == INITIALIZE || stage == STARTED)
      requires forall c: Component :: c != Internal ==> levels[c] == stage
      modifies this
      ensures !outcome.Panicked? && !outcome.Crashed? && Orderly(log) && InboundsWait(cfg, log)
      ensures outcome.Completed? ==>
        Valid() && forall c: Component :: levels[c] == if c != Internal then stage + 1 else old(levels[c])
    {
      assert forall c: Component :: c in INIT_ORDER <==> c != Internal;
      outcome := Phase(stage, INIT_ORDER, fails);
    }

    method PostOrderPhase(fails: Event -> bool) returns (outcome: Outcome)
      requires Valid() && forall c: Component :: c != Internal ==> levels[c] == POST_START
      modifies this
      ensures !outcome.Panicked? && !outcome.Crashed? && Orderly(log) && InboundsWait(cfg, log)
      ensures outcome.Completed? ==>
        Valid() && forall c: Component :: levels[c] == if c != Internal then 3 else old(levels[c])
    {
      assert forall c: Component :: c in POST_ORDER <==> c != Internal;
      outcome := Phase(POST_START, POST_ORDER, fails);
    }

    method CoreStartPhase(fails: Event -> bool) returns (outcome: Outcome)
      requires Valid() && forall c: Component :: levels[c] == START
      modifies this
      ensures !outcome.Panicked? && Orderly(log) && InboundsWait(cfg, log) && (outcome.Crashed? ==> !NoClash(cfg))
      ensures outcome.Completed? ==>
        NoClash(cfg) && Valid() && forall c: Component :: levels[c] == if c == Internal || IsLate(c) then START else 2
    {
      assert CORE_ORDER[0] == Outbound;
      assert forall c: Component :: c in CORE_ORDER <==> c != Internal && !IsLate(c);
      outcome := Phase(START, CORE_ORDER, fails);
    }

    method LateStartPhase(fails: Event -> bool) returns (outcome: Outcome)
      requires Valid() && forall c: Component :: levels[c] == if IsLate(c) then START else 2
      modifies this
      ensures !outcome.Panicked? && !outcome.Crashed? && Orderly(log) && InboundsWait(cfg, log)
      ensures outcome.Completed? ==> Valid() && forall c: Component :: levels[c] == 2
    {
      assert forall c: Component :: c in LATE_ORDER <==> IsLate(c);
      outcome := Phase(START, LATE_ORDER, fails);
    }

    /** preStart. */
    method PreStart(loggerOk: bool, fails: Event -> bool) returns (outcome: Outcome)
      requires Valid() && forall c: Component :: levels[c] == 0
      modifies this
      ensures !outcome.Panicked? && Orderly(log) && InboundsWait(cfg, log) && (outcome.Crashed? ==> !NoClash(cfg))
      ensures outcome.Completed? ==> NoClash(cfg) && Valid()
      ensures outcome.Completed? ==> forall c: Component :: levels[c] == if c == Internal || IsLate(c) then START else 2
    {
      ValidIsOrderly(cfg, levels, log);
      if !loggerOk { return LoggerFailed; }
      outcome := InternalPhase(INITIALIZE, fails);
      if !outcome.Completed? { return; }
      outcome := InitOrderPhase(INITIALIZE, fails);
      if !outcome.Completed? { return; }
      outcome := CoreStartPhase(fails);
    }

    /** A second preStart, of which start consists at first: the internal services and the network manager are
        initialized again, and the DNS transport manager panics, exactly unless something fails before. */
    method PreStartAgain(loggerOk: bool, fails: Event -> bool) returns (outcome: Outcome)
      requires WellTagged(cfg) && DnsTransport in levels && levels[DnsTransport] > INITIALIZE
      modifies this`log
      ensures !outcome.Completed?
      ensures outcome == Panicked(DnsTransport, INITIALIZE) <==>
                loggerOk && forall x :: x in ItemsFor(Internal, cfg.internals) + [Itself(Network)] ==>
                              !fails(Event(x, INITIALIZE))
    {
      var before := ItemsFor(Internal, cfg.internals) + [Itself(Network)];
      if !loggerOk { return LoggerFailed; }
      assert before[|before| - 1] == Itself(Network);
      var visited, ok := Visit(ItemsFor(Internal, cfg.internals), INITIALIZE, fails);
      log := log + Events(visited, INITIALIZE);
      if !ok { return Failed(Internal, INITIALIZE); }
      visited, ok := Visit([Itself(Network)], INITIALIZE, fails);
      log := log + Events(visited, INITIALIZE);
      if !ok { return Failed(Network, INITIALIZE); }
      return Panicked(DnsTransport, INITIALIZE);
    }

    /** PreStart and then Start on one box never comes up: once PreStart has completed, Start ends in the "already
        started" panic or in an earlier failure. */
    method PreStartThenStart(loggerOk: bool, fails: Event -> bool, failsAgain: Event -> bool)
      returns (first: Outcome, second: Outcome)
      requires Valid() && forall c: Component :: levels[c] == 0
      modifies this
      ensures first.Completed? ==> !second.Completed?
      ensures first.Completed? && loggerOk && (forall e: Event :: !failsAgain(e)) ==>
                second == Panicked(DnsTransport, INITIALIZE)
    {
      first := PreStart(loggerOk, fails);
      second := first;
      if first.Completed? { second := PreStartAgain(loggerOk, failsAgain); }
    }

    /** start: on a fresh box, however it is cut short, no manager panics, everyone has been offered a
        strictly increasing prefix of the stages, and no inbound was started too early.  The start loop crashes only,
        and cannot complete, when an endpoint has an outbound's or the fallback's tag. */
    method Start(loggerOk: bool, fails: Event -> bool) returns (outcome: Outcome)
      requires Valid() && forall c: Component :: levels[c] == 0
      modifies this
      ensures !outcome.Panicked? && Orderly(log) && InboundsWait(cfg, log)
      ensures outcome.Crashed? ==> !NoClash(cfg)
      ensures outcome.Completed? ==> NoClash(cfg)
      ensures outcome.Completed? ==> Valid() && forall c: Component :: levels[c] == 4
    {
      outcome := PreStart(loggerOk, fails);
      if !outcome.Completed? { return; }
      outcome := InternalPhase(START, fails);
      if !outcome.Completed? { return; }
      outcome := LateStartPhase(fails);
      if !outcome.Completed? { return; }
      outcome := PostOrderPhase(fails);
      if !outcome.Completed? { return; }
      outcome := InternalPhase(POST_START, fails);
      if !outcome.Completed? { return; }
      outcome := InitOrderPhase(STARTED, fails);
      if !outcome.Completed? { return; }
      outcome := InternalPhase(STARTED, fails);
    }
  }

  /** Concretely: no outbound and an endpoint called direct.  The options check accepts these tags, and the start loop
      crashes although nothing fails. */
  method DirectEndpointCrashes() returns (accepted: bool, visited: seq<Item>, ok: bool, crashed: bool)
    ensures accepted && crashed && !ok
  {
    var cfg := Config([], [DS.Item("direct", [])], [], [], [], [], "");
    accepted := CheckOutbounds(TagsOf(cfg.outbounds), TagsOf(cfg.endpoints));
    DirectEndpoint(cfg);
    var box := new Box(cfg);
    visited, ok, crashed := box.StartOutbounds(e => false);
  }

  lemma DirectEndpoint(cfg: Config)
    requires cfg == Config([], [DS.Item("direct", [])], [], [], [], [], "")
    ensures WellTagged(cfg) && !NoClash(cfg) && GoodStart(cfg, e => false)
    ensures Distinct(EffectiveTags(TagsOf(cfg.outbounds)) + EffectiveTags(TagsOf(cfg.endpoints)))
  {
    var list := StartList(cfg);
    assert list == [DIRECT, DS.Item("direct", [])] && list[0].tag == list[1].tag;
    forall path | |path| >= 2 ensures !DS.Walk(list, path) {
      assert !DS.Edge(list, path[0], path[0 + 1]);
    }
  }

  lemma ValidIsOrderly(cfg: Config, levels: Levels, log: seq<Event>)
    requires LogInv(cfg, levels, log)
    ensures Orderly(log)
  {
    forall x
      ensures Offered(log, x) <= (if x == Fallback then STAGES[1..] else STAGES)
    {
      ExpectedIsOrderly(cfg, levels, x);
    }
  }

  // ----- The tag check of the options -----

  /** An empty tag stands for the position in its list. */
  function EffectiveTags(tags: seq<string>): (r: seq<string>)
    ensures |r| == |tags|
  {
    seq(|tags|, i requires 0 <= i < |tags| => if tags[i] == "" then Decimal.ToString(i) else tags[i])
  }

  lemma DistinctGrows(s: seq<string>, t: string)
    requires Distinct(s)
    ensures Distinct(s + [t]) <==> t !in s
  {
    if t in s {
      var j :| 0 <= j < |s| && s[j] == t;
      assert (s + [t])[j] == (s + [t])[|s|];
    }
  }

  lemma DistinctPrefix(s: seq<string>, longer: seq<string>)
    requires s <= longer && Distinct(longer)
    ensures Distinct(s)
  {
    assert forall i :: 0 <= i < |s| ==> s[i] == longer[i];
  }

  /** One of the two loops of the check: `before` are the tags already seen. */
  method SeeTags(tags: seq<string>, seen0: set<string>, ghost before: seq<string>) returns (ok: bool, seen: set<string>)
    requires Distinct(before) && forall t :: t in seen0 <==> t in before
    ensures ok <==> Distinct(before + EffectiveTags(tags))
    ensures ok ==> forall t :: t in seen <==> t in before + EffectiveTags(tags)
  {
    seen := seen0;
    ghost var all := EffectiveTags(tags);
    ghost var now := before;
    for i := 0 to |tags|
      invariant now == before + all[..i] && Distinct(now) && forall t :: t in seen <==> t in now
    {
      var tag := if tags[i] == "" then Decimal.ToString(i) else tags[i];
      assert now + [tag] == before + all[..i + 1];
      DistinctGrows(now, tag);
      if tag in seen {
        if Distinct(before + all) { DistinctPrefix(now + [tag], before + all); }
        return false, seen;
      }
      seen, now := seen + {tag}, now + [tag];
    }
    assert all[..|all|] == all;
    ok := true;
  }

  /** checkOutbounds: nil exactly when all effective tags of outbounds and endpoints differ. */
  method CheckOutbounds(outbounds: seq<string>, endpoints: seq<string>) returns (ok: bool)
    ensures ok <==> Distinct(EffectiveTags(outbounds) + EffectiveTags(endpoints))
  {
    var seen;
    ok, seen := SeeTags(outbounds, {}, []);
    assert [] + EffectiveTags(outbounds) == EffectiveTags(outbounds);
    if !ok {
      if Distinct(EffectiveTags(outbounds) + EffectiveTags(endpoints)) {
        DistinctPrefix(EffectiveTags(outbounds), EffectiveTags(outbounds) + EffectiveTags(endpoints));
      }
      return;
    }
    ok, seen := SeeTags(endpoints, seen, EffectiveTags(outbounds));
  }

  lemma FallbackListDistinct(endpoints: seq<DS.Item>)
    requires Distinct(TagsOf(endpoints))
    ensures DS.DistinctTags([DIRECT] + endpoints) <==> DIRECT.tag !in TagsOf(endpoints)
  {
    var list, tags := [DIRECT] + endpoints, TagsOf(endpoints);
    if DIRECT.tag in tags {
      var k :| 0 <= k < |endpoints| && tags[k] == DIRECT.tag;
      assert list[0].tag == list[k + 1].tag;
    } else {
      FallbackApart(endpoints);
    }
  }

  lemma FallbackApart(endpoints: seq<DS.Item>)
    requires Distinct(TagsOf(endpoints)) && DIRECT.tag !in TagsOf(endpoints)
    ensures DS.DistinctTags([DIRECT] + endpoints)
  {
    var list, tags := [DIRECT] + endpoints, TagsOf(endpoints);
    forall i, j | 0 <= i < j < |list| ensures list[i].tag != list[j].tag {
      assert list[j] == endpoints[j - 1] && tags[j - 1] == list[j].tag;
      if i > 0 { assert list[i] == endpoints[i - 1] && tags[i - 1] == list[i].tag; }
    }
  }

  /** What the check does not cover: its tags start cleanly exactly when the fallback outbound
      "direct" is not needed or no endpoint has that tag. */
  lemma CheckedTagsStartCleanlyExactly(cfg: Config)
    requires Distinct(TagsOf(cfg.outbounds) + TagsOf(cfg.endpoints))
    ensures DS.DistinctTags(StartList(cfg)) <==> !(UsesFallback(cfg) && DIRECT.tag in TagsOf(cfg.endpoints))
  {
    var all := TagsOf(cfg.outbounds) + TagsOf(cfg.endpoints);
    if UsesFallback(cfg) {
      assert all == TagsOf(cfg.endpoints);
      FallbackListDistinct(cfg.endpoints);
    } else {
      assert all == TagsOf(StartList(cfg));
      assert forall k :: 0 <= k < |all| ==> StartList(cfg)[k].tag == all[k];
    }
  }
}
