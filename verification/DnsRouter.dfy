/** The rule-driven DNS router: matchDNS and the retry loops of Exchange and Lookup.

    Rules match on the query's metadata, of which only the addresses change between retries: first
    those in the caller's context, then those last shown to an address-limit check.  Rule matching, the address limits
    and the client are functions of what they can see; the client's own caching is behind `client`. */
module DnsRouter {
  import opened Optional

  type Addr = nat

  datatype Strategy = AsIs | PreferIPv4 | PreferIPv6 | IPv4Only | IPv6Only
  datatype Options = Options(strategy: Strategy, disableCache: bool, rewriteTtl: Option<nat>, subnet: Option<string>)
  datatype Transport = Transport(tag: string, isFakeIP: bool, legacy: Option<Legacy>)
  datatype Legacy = Legacy(strategy: Strategy, subnet: Option<string>)

  datatype Action =
    | Route(server: string, options: Options)
    | RouteOptions(options: Options)
    | RejectDefault
    | RejectDrop
    | Predefined(rcode: nat, answers: seq<Addr>)

  datatype Rule = Rule(action: Action, addressLimit: bool)

  /** What a client call reports.  `seen` are the addresses the check was shown, if it ran. */
  datatype Reply = Response(id: nat) | Error(code: nat) | Rejected(seen: Option<seq<Addr>>)
  datatype LookupReply = Addresses(list: seq<Addr>) | LookupError(code: nat, seen: Option<seq<Addr>>)

  datatype Call = Call(transport: Transport, options: Options, checkedBy: Option<nat>)

  datatype Env = Env(
    rules: seq<Rule>,
    transports: map<string, Transport>,
    fallback: Transport,
    defaultStrategy: Strategy,
    matches: (nat, seq<Addr>) -> bool,
    client: Call -> Reply,
    lookup: Call -> LookupReply)

  /** Exchange allows fakeip and knows the query type; Lookup forbids fakeip and asks for addresses. */
  datatype Mode = Mode(allowFakeIP: bool, addressQuery: bool)

  // ----- matchDNS -----

  function Merge(options: Options, o: Options, forceNoCache: bool): Options {
    Options(if o.strategy.AsIs? then options.strategy else o.strategy,
            options.disableCache || o.disableCache || forceNoCache,
            if o.rewriteTtl.Some? then o.rewriteTtl else options.rewriteTtl,
            if o.subnet.Some? then o.subnet else options.subnet)
  }

  function ForTransport(options: Options, t: Transport): Options {
    match t.legacy
    case None => options
    case Some(l) =>
      options.(strategy := if options.strategy.AsIs? then l.strategy else options.strategy,
               subnet := if options.subnet.None? then l.subnet else options.subnet)
  }

  /** The rule is looked at and matches. */
  predicate Applies(env: Env, mode: Mode, k: nat, seen: seq<Addr>)
    requires k < |env.rules|
  {
    (env.rules[k].addressLimit ==> mode.addressQuery) && env.matches(k, seen)
  }

  /** The rule ends the search: a verdict, or a route whose transport exists and is allowed. */
  predicate Stops(env: Env, mode: Mode, k: nat, seen: seq<Addr>)
    requires k < |env.rules|
  {
    Applies(env, mode, k, seen) &&
    match env.rules[k].action
    case Route(server, _) => server in env.transports && (env.transports[server].isFakeIP ==> mode.allowFakeIP)
    case RouteOptions(_) => false
    case _ => true
  }

  /** The options after the route-options rules in [lo, hi) that apply. */
  function OptionsOver(env: Env, mode: Mode, lo: nat, hi: nat, seen: seq<Addr>, options: Options): Options
    requires lo <= hi <= |env.rules|
    decreases hi - lo
  {
    if lo == hi then options
    else
      var next := if Applies(env, mode, lo, seen) && env.rules[lo].action.RouteOptions?
                  then Merge(options, env.rules[lo].action.options, false) else options;
      OptionsOver(env, mode, lo + 1, hi, seen, next)
  }

  datatype Match = Match(rule: Option<nat>, transport: Option<Transport>, options: Options)

  function Selected(env: Env, k: nat, options: Options): Match
    requires k < |env.rules|
    requires env.rules[k].action.Route? ==> env.rules[k].action.server in env.transports
  {
    match env.rules[k].action
    case Route(server, o) =>
      var t := env.transports[server];
      Match(Some(k), Some(t), ForTransport(Merge(options, o, t.isFakeIP), t))
    case _ => Match(Some(k), None, options)
  }

  /** Said without a loop: the first stopping rule from `from` on, with the options gathered on the way, else the
      default. */
  ghost predicate IsMatch(env: Env, mode: Mode, from: nat, seen: seq<Addr>, options: Options, m: Match)
    requires from <= |env.rules|
  {
    if m.rule.Some? then
      var k := m.rule.value;
      && from <= k < |env.rules| && Stops(env, mode, k, seen)
      && (forall j :: from <= j < k ==> !Stops(env, mode, j, seen))
      && m == Selected(env, k, OptionsOver(env, mode, from, k, seen, options))
    else
      && (forall j :: from <= j < |env.rules| ==> !Stops(env, mode, j, seen))
      && m == Match(None, Some(env.fallback), OptionsOver(env, mode, from, |env.rules|, seen, options))
  }

  lemma MatchIsUnique(env: Env, mode: Mode, from: nat, seen: seq<Addr>, options: Options, a: Match, b: Match)
    requires from <= |env.rules|
    requires IsMatch(env, mode, from, seen, options, a) && IsMatch(env, mode, from, seen, options, b)
    ensures a == b
  {
  }

  lemma {:induction false} OptionsSnoc(env: Env, mode: Mode, lo: nat, hi: nat, seen: seq<Addr>, options: Options)
    requires lo <= hi < |env.rules|
    ensures OptionsOver(env, mode, lo, hi + 1, seen, options) ==
            (var o := OptionsOver(env, mode, lo, hi, seen, options);
             if Applies(env, mode, hi, seen) && env.rules[hi].action.RouteOptions?
             then Merge(o, env.rules[hi].action.options, false) else o)
    decreases hi - lo
  {
    if lo < hi {
      var next := if Applies(env, mode, lo, seen) && env.rules[lo].action.RouteOptions?
                  then Merge(options, env.rules[lo].action.options, false) else options;
      OptionsSnoc(env, mode, lo + 1, hi, seen, next);
    }
  }

  method MatchDns(env: Env, mode: Mode, from: nat, seen: seq<Addr>, base: Options) returns (m: Match)
    requires from <= |env.rules|
    ensures IsMatch(env, mode, from, seen, base, m)
  {
    var options := base;
    var k := from;
    while k < |env.rules|
      invariant from <= k <= |env.rules|
      invariant forall j :: from <= j < k ==> !Stops(env, mode, j, seen)
      invariant options == OptionsOver(env, mode, from, k, seen, base)
    {
      var rule := env.rules[k];
      OptionsSnoc(env, mode, from, k, seen, base);
      if !(rule.addressLimit && !mode.addressQuery) && env.matches(k, seen) {
        match rule.action {
          case Route(server, o) =>
            if server in env.transports {
              var t := env.transports[server];
              if !t.isFakeIP || mode.allowFakeIP {
                return Match(Some(k), Some(t), ForTransport(Merge(options, o, t.isFakeIP), t));
              }
            }
          case RouteOptions(o) => options := Merge(options, o, false);
          case _ => return Match(Some(k), None, options);
        }
      }
      k := k + 1;
    }
    return Match(None, Some(env.fallback), options);
  }

  // ----- Calls and verdicts -----

  datatype Outcome =
    | Refused
    | Dropped
    | PredefinedAnswer(rule: nat)
    | Answered(id: nat)
    | Failed(code: nat)
    | RejectedUnchecked

  function CallFor(env: Env, m: Match): Call
    requires m.transport.Some? && (m.rule.Some? ==> m.rule.value < |env.rules|)
  {
    var options := if m.options.strategy.AsIs? then m.options.(strategy := env.defaultStrategy) else m.options;
    Call(m.transport.value, options, if m.rule.Some? && env.rules[m.rule.value].addressLimit then m.rule else None)
  }

  function Verdict(env: Env, k: nat): Option<Outcome>
    requires k < |env.rules|
  {
    match env.rules[k].action
    case RejectDefault => Some(Refused)
    case RejectDrop => Some(Dropped)
    case Predefined(_, _) => Some(PredefinedAnswer(k))
    case _ => None
  }

  function Shown(before: seq<Addr>, seen: Option<seq<Addr>>): seq<Addr> {
    if seen.Some? then seen.value else before
  }

  function Report(reply: Reply): Outcome {
    match reply
    case Response(id) => Answered(id)
    case Error(code) => Failed(code)
    case Rejected(_) => RejectedUnchecked
  }

  /** One selection and what follows from it. */
  datatype Attempt = Attempt(from: nat, seen: seq<Addr>, selection: Match)

  ghost predicate Matched(env: Env, mode: Mode, base: Options, a: Attempt) {
    a.from <= |env.rules| && IsMatch(env, mode, a.from, a.seen, base, a.selection)
  }

  // ----- The retry loops -----

  datatype Service = Exchanging | LookingUp

  /** The replies that a checked call is retried for, with the addresses its check was shown: a rejection
      for Exchange, any error for Lookup. */
  function Refusal(env: Env, service: Service, call: Call): Option<Option<seq<Addr>>> {
    match service
    case Exchanging => (match env.client(call) case Rejected(seen) => Some(seen) case _ => None)
    case LookingUp => (match env.lookup(call) case LookupError(_, seen) => Some(seen) case _ => None)
  }

  /** The selection made a checked call that was refused. */
  ghost predicate Retried(env: Env, service: Service, a: Attempt) {
    && a.selection.rule.Some? && a.selection.rule.value < |env.rules| && a.selection.transport.Some?
    && env.rules[a.selection.rule.value].addressLimit && Verdict(env, a.selection.rule.value).None?
    && Refusal(env, service, CallFor(env, a.selection)).Some?
  }

  /** The next attempt starts right after the refused rule, with the addresses its check was shown. */
  ghost predicate Follows(env: Env, service: Service, a: Attempt, b: Attempt) {
    && Retried(env, service, a) && b.from == a.selection.rule.value + 1
    && b.seen == Shown(a.seen, Refusal(env, service, CallFor(env, a.selection)).value)
  }

  /** Selections of a retry loop: every one but the last was refused.  `context` are the addresses it starts with. */
  ghost predicate Attempts(
    env: Env, service: Service, mode: Mode, base: Options, context: seq<Addr>, attempts: seq<Attempt>)
  {
    && |attempts| > 0 && attempts[0].from == 0 && attempts[0].seen == context
    && (forall i :: 0 <= i < |attempts| ==> Matched(env, mode, base, attempts[i]))
    && (forall i :: 0 <= i < |attempts| - 1 ==> Follows(env, service, attempts[i], attempts[i + 1]))
  }

  /** The attempts so far, every one of them refused; the next starts at `from` with `seen`. */
  ghost predicate SoFar(
    env: Env, service: Service, mode: Mode, base: Options, context: seq<Addr>, attempts: seq<Attempt>,
    from: nat, seen: seq<Addr>)
  {
    if attempts == [] then from == 0 && seen == context
    else
      Attempts(env, service, mode, base, context, attempts) &&
      Follows(env, service, attempts[|attempts| - 1], Attempt(from, seen, attempts[|attempts| - 1].selection))
  }

  lemma OneMoreAttempt(
    env: Env, service: Service, mode: Mode, base: Options, context: seq<Addr>, attempts: seq<Attempt>, a: Attempt)
    requires SoFar(env, service, mode, base, context, attempts, a.from, a.seen) && Matched(env, mode, base, a)
    ensures Attempts(env, service, mode, base, context, attempts + [a])
  {
    var more := attempts + [a];
    forall i | 0 <= i < |more| - 1 ensures Follows(env, service, more[i], more[i + 1]) {
      assert more[i] == attempts[i];
      assert i < |attempts| - 1 ==> more[i + 1] == attempts[i + 1];
    }
  }

  // ----- What the attempts of either loop say -----

  lemma AttemptIndex(
    env: Env, service: Service, mode: Mode, base: Options, context: seq<Addr>, attempts: seq<Attempt>, i: nat)
    requires Attempts(env, service, mode, base, context, attempts) && i < |attempts|
    ensures attempts[i].from <= |env.rules|
    ensures attempts[i].selection.rule.Some? ==> attempts[i].from <= attempts[i].selection.rule.value < |env.rules|
  {
    assert Matched(env, mode, base, attempts[i]);
  }

  /** Rule indices strictly increase, and only the last selection can be the default. */
  lemma {:induction false} IndicesIncrease(
    env: Env, service: Service, mode: Mode, base: Options, context: seq<Addr>, attempts: seq<Attempt>, i: nat, j: nat)
    requires Attempts(env, service, mode, base, context, attempts) && i < j < |attempts|
    ensures attempts[i].selection.rule.Some? && attempts[i].selection.rule.value < attempts[j].from
    ensures attempts[j].selection.rule.Some? ==> attempts[i].selection.rule.value < attempts[j].selection.rule.value
    decreases j
  {
    assert Follows(env, service, attempts[j - 1], attempts[j]);
    AttemptIndex(env, service, mode, base, context, attempts, j);
    if i < j - 1 {
      IndicesIncrease(env, service, mode, base, context, attempts, i, j - 1);
      AttemptIndex(env, service, mode, base, context, attempts, j - 1);
    }
  }

  /** At most one selection, hence at most one client call, per rule, plus one for the default. */
  lemma FewAttempts(env: Env, service: Service, mode: Mode, base: Options, context: seq<Addr>, attempts: seq<Attempt>)
    requires Attempts(env, service, mode, base, context, attempts)
    ensures |attempts| <= |env.rules| + 1
    ensures forall i :: 0 <= i < |attempts| ==> i <= attempts[i].from <= |env.rules|
  {
    forall i | 0 <= i < |attempts| ensures i <= attempts[i].from <= |env.rules| {
      FewAttemptsFrom(env, service, mode, base, context, attempts, i);
    }
    assert |attempts| - 1 <= attempts[|attempts| - 1].from;
  }

  lemma {:induction false} FewAttemptsFrom(
    env: Env, service: Service, mode: Mode, base: Options, context: seq<Addr>, attempts: seq<Attempt>, i: nat)
    requires Attempts(env, service, mode, base, context, attempts) && i < |attempts|
    ensures i <= attempts[i].from <= |env.rules|
  {
    AttemptIndex(env, service, mode, base, context, attempts, i);
    if i == 0 {
    } else {
      FewAttemptsFrom(env, service, mode, base, context, attempts, i - 1);
      AttemptIndex(env, service, mode, base, context, attempts, i - 1);
      assert Follows(env, service, attempts[i - 1], attempts[i]);
    }
  }

  lemma {:induction false} AttemptsAgree(
    env: Env, service: Service, mode: Mode, base: Options, context: seq<Addr>, a: seq<Attempt>, b: seq<Attempt>, i: nat)
    requires Attempts(env, service, mode, base, context, a) && Attempts(env, service, mode, base, context, b)
    requires i < |a| && i < |b|
    ensures a[i] == b[i]
  {
    if i == 0 {
    } else {
      AttemptsAgree(env, service, mode, base, context, a, b, i - 1);
      assert Follows(env, service, a[i - 1], a[i]) && Follows(env, service, b[i - 1], b[i]);
    }
    assert Matched(env, mode, base, a[i]) && Matched(env, mode, base, b[i]);
    MatchIsUnique(env, mode, a[i].from, a[i].seen, base, a[i].selection, b[i].selection);
  }

  lemma NoFurther(
    env: Env, service: Service, mode: Mode, base: Options, context: seq<Addr>, a: seq<Attempt>, b: seq<Attempt>)
    requires Attempts(env, service, mode, base, context, a) && Attempts(env, service, mode, base, context, b)
    requires !Retried(env, service, a[|a| - 1])
    ensures |b| <= |a|
  {
    if |a| < |b| {
      var n := |a| - 1;
      assert Follows(env, service, b[n], b[n + 1]);
      AttemptsAgree(env, service, mode, base, context, a, b, n);
    }
  }

  /** The environment alone decides the selections: a finished loop had no choices. */
  lemma AttemptsAreUnique(
    env: Env, service: Service, mode: Mode, base: Options, context: seq<Addr>, a: seq<Attempt>, b: seq<Attempt>)
    requires Attempts(env, service, mode, base, context, a) && !Retried(env, service, a[|a| - 1])
    requires Attempts(env, service, mode, base, context, b) && !Retried(env, service, b[|b| - 1])
    ensures a == b
  {
    NoFurther(env, service, mode, base, context, a, b);
    NoFurther(env, service, mode, base, context, b, a);
    forall i | 0 <= i < |a| ensures a[i] == b[i] { AttemptsAgree(env, service, mode, base, context, a, b, i); }
  }

  /** The attempt selected rule k, whose checked call was refused. */
  ghost predicate RefusedAt(env: Env, service: Service, a: Attempt, k: nat) {
    a.selection.rule == Some(k) && Retried(env, service, a)
  }

  /** The attempt looked at rule k and went past it. */
  ghost predicate Skipped(env: Env, mode: Mode, a: Attempt, k: nat) {
    && k < |env.rules| && a.from <= k && (a.selection.rule.Some? ==> k < a.selection.rule.value)
    && !Stops(env, mode, k, a.seen)
  }

  /** Every rule before a selection was passed over or refused by some attempt, so the last selection is the
      least-index usable matching rule that was not refused, else the default. */
  lemma {:induction false} EarlierRulesAreAccountedFor(
    env: Env, service: Service, mode: Mode, base: Options, context: seq<Addr>, attempts: seq<Attempt>, n: nat, k: nat)
    requires Attempts(env, service, mode, base, context, attempts) && n < |attempts| && k < |env.rules|
    requires attempts[n].selection.rule.Some? ==> k < attempts[n].selection.rule.value
    ensures exists i :: 0 <= i <= n && (Skipped(env, mode, attempts[i], k) || RefusedAt(env, service, attempts[i], k))
  {
    assert Matched(env, mode, base, attempts[n]);
    if attempts[n].from <= k {
      assert Skipped(env, mode, attempts[n], k);
    } else if n > 0 {
      assert Follows(env, service, attempts[n - 1], attempts[n]);
      if attempts[n - 1].selection.rule.value == k {
        assert RefusedAt(env, service, attempts[n - 1], k);
      } else {
        EarlierRulesAreAccountedFor(env, service, mode, base, context, attempts, n - 1, k);
      }
    }
  }

  // ----- Exchange -----

  ghost predicate Ends(env: Env, a: Attempt, outcome: Outcome) {
    if a.selection.rule.Some? && a.selection.rule.value < |env.rules| && Verdict(env, a.selection.rule.value).Some?
    then outcome == Verdict(env, a.selection.rule.value).value
    else
      && a.selection.transport.Some? && (a.selection.rule.Some? ==> a.selection.rule.value < |env.rules|)
      && var call := CallFor(env, a.selection);
         outcome == Report(env.client(call)) && (call.checkedBy.Some? ==> !env.client(call).Rejected?)
  }

  ghost predicate RetryChain(
    env: Env, mode: Mode, base: Options, context: seq<Addr>, attempts: seq<Attempt>, outcome: Outcome)
  {
    Attempts(env, Exchanging, mode, base, context, attempts) && Ends(env, attempts[|attempts| - 1], outcome)
  }

  /** The retry loop of Exchange: it terminates, and its run is a retry chain. */
  method Exchange(
    env: Env, addressQuery: bool, base: Options, context: seq<Addr>)
    returns (outcome: Outcome, attempts: seq<Attempt>)
    ensures RetryChain(env, Mode(true, addressQuery), base, context, attempts, outcome)
  {
    var mode := Mode(true, addressQuery);
    attempts := [];
    var from, seen := 0, context;
    while true
      invariant from <= |env.rules|
      invariant SoFar(env, Exchanging, mode, base, context, attempts, from, seen)
      decreases |env.rules| - from
    {
      var m := MatchDns(env, mode, from, seen, base);
      OneMoreAttempt(env, Exchanging, mode, base, context, attempts, Attempt(from, seen, m));
      attempts := attempts + [Attempt(from, seen, m)];
      if m.rule.Some? && Verdict(env, m.rule.value).Some? {
        return Verdict(env, m.rule.value).value, attempts;
      }
      var call := CallFor(env, m);
      var reply := env.client(call);
      if reply.Rejected? && call.checkedBy.Some? {
        from, seen := m.rule.value + 1, Shown(seen, reply.seen);
        continue;
      }
      return Report(reply), attempts;
    }
  }

  lemma EndsIsLast(env: Env, a: Attempt, outcome: Outcome)
    requires Ends(env, a, outcome)
    ensures !Retried(env, Exchanging, a)
  {
  }

  lemma ChainIsUnique(
    env: Env, mode: Mode, base: Options, context: seq<Addr>, a: seq<Attempt>, oa: Outcome, b: seq<Attempt>, ob: Outcome)
    requires RetryChain(env, mode, base, context, a, oa) && RetryChain(env, mode, base, context, b, ob)
    ensures a == b && oa == ob
  {
    EndsIsLast(env, a[|a| - 1], oa);
    EndsIsLast(env, b[|b| - 1], ob);
    AttemptsAreUnique(env, Exchanging, mode, base, context, a, b);
  }

  // ----- Options on a retry -----

  /** The options of the route-options rules in [lo, hi) that apply, in order. */
  function AppliedOver(env: Env, mode: Mode, lo: nat, hi: nat, seen: seq<Addr>): seq<Options>
    requires lo <= hi <= |env.rules|
    decreases hi - lo
  {
    if lo == hi then []
    else
      var front := AppliedOver(env, mode, lo, hi - 1, seen);
      if Applies(env, mode, hi - 1, seen) && env.rules[hi - 1].action.RouteOptions?
      then front + [env.rules[hi - 1].action.options] else front
  }

  function MergeAll(base: Options, os: seq<Options>): Options {
    if os == [] then base else Merge(MergeAll(base, os[..|os| - 1]), os[|os| - 1], false)
  }

  lemma {:induction false} OptionsAreMerged(env: Env, mode: Mode, lo: nat, hi: nat, seen: seq<Addr>, base: Options)
    requires lo <= hi <= |env.rules|
    ensures OptionsOver(env, mode, lo, hi, seen, base) == MergeAll(base, AppliedOver(env, mode, lo, hi, seen))
    decreases hi - lo
  {
    if lo == hi {
    } else {
      OptionsAreMerged(env, mode, lo, hi - 1, seen, base);
      OptionsSnoc(env, mode, lo, hi - 1, seen, base);
      var front := AppliedOver(env, mode, lo, hi - 1, seen);
      if Applies(env, mode, hi - 1, seen) && env.rules[hi - 1].action.RouteOptions? {
        assert AppliedOver(env, mode, lo, hi, seen) == front + [env.rules[hi - 1].action.options];
        MergeOneMore(base, front, env.rules[hi - 1].action.options);
      } else {
        assert AppliedOver(env, mode, lo, hi, seen) == front;
      }
    }
  }

  lemma MergeOneMore(base: Options, os: seq<Options>, o: Options)
    ensures MergeAll(base, os + [o]) == Merge(MergeAll(base, os), o, false)
  {
    assert (os + [o])[..|os|] == os;
  }

  /** The rule that ends an attempt's search, or the end of the list. */
  function End(env: Env, a: Attempt): nat { if a.selection.rule.Some? then a.selection.rule.value else |env.rules| }

  /** Options that the attempt itself applied. */
  function Own(env: Env, mode: Mode, a: Attempt): seq<Options>
    requires a.from <= End(env, a) <= |env.rules|
  {
    AppliedOver(env, mode, a.from, End(env, a), a.seen)
  }

  /** Options that the attempts before the i-th applied. */
  ghost function Passed(env: Env, mode: Mode, attempts: seq<Attempt>, i: nat): seq<Options>
    requires i <= |attempts|
    requires forall j :: 0 <= j < |attempts| ==> attempts[j].from <= End(env, attempts[j]) <= |env.rules|
  {
    if i == 0 then [] else Passed(env, mode, attempts, i - 1) + Own(env, mode, attempts[i - 1])
  }

  // The fields of an options value, each as what a rule sets it to, if it does.

  function Strategies(os: seq<Options>): (r: seq<Option<Strategy>>)
    ensures |r| == |os|
    ensures forall i :: 0 <= i < |os| ==> r[i] == if os[i].strategy.AsIs? then None else Some(os[i].strategy)
  {
    seq(|os|, i requires 0 <= i < |os| => if os[i].strategy.AsIs? then None else Some(os[i].strategy))
  }

  function NoCaches(os: seq<Options>): (r: seq<Option<bool>>)
    ensures |r| == |os| && forall i :: 0 <= i < |os| ==> r[i] == if os[i].disableCache then Some(true) else None
  {
    seq(|os|, i requires 0 <= i < |os| => if os[i].disableCache then Some(true) else None)
  }

  function Ttls(os: seq<Options>): (r: seq<Option<Option<nat>>>)
    ensures |r| == |os|
    ensures forall i :: 0 <= i < |os| ==> r[i] == if os[i].rewriteTtl.Some? then Some(os[i].rewriteTtl) else None
  {
    seq(|os|, i requires 0 <= i < |os| => if os[i].rewriteTtl.Some? then Some(os[i].rewriteTtl) else None)
  }

  function Subnets(os: seq<Options>): (r: seq<Option<Option<string>>>)
    ensures |r| == |os| && forall i :: 0 <= i < |os| ==> r[i] == if os[i].subnet.Some? then Some(os[i].subnet) else None
  {
    seq(|os|, i requires 0 <= i < |os| => if os[i].subnet.Some? then Some(os[i].subnet) else None)
  }

  /** A field takes the value last set. */
  function LastSet<T>(base: T, sets: seq<Option<T>>): T {
    if sets == [] then base
    else if sets[|sets| - 1].Some? then sets[|sets| - 1].value
    else LastSet(base, sets[..|sets| - 1])
  }

  lemma {:induction false} MergedFields(base: Options, os: seq<Options>)
    ensures MergeAll(base, os) ==
            Options(LastSet(base.strategy, Strategies(os)), LastSet(base.disableCache, NoCaches(os)),
                    LastSet(base.rewriteTtl, Ttls(os)), LastSet(base.subnet, Subnets(os)))
  {
    if os == [] {
    } else {
      var front := os[..|os| - 1];
      MergedFields(base, front);
      assert Strategies(os)[..|os| - 1] == Strategies(front) && NoCaches(os)[..|os| - 1] == NoCaches(front);
      assert Ttls(os)[..|os| - 1] == Ttls(front) && Subnets(os)[..|os| - 1] == Subnets(front);
    }
  }

  /** Whatever was set before is set again later or to the base value anyway. */
  ghost predicate Restored<T>(base: T, passed: seq<Option<T>>, own: seq<Option<T>>) {
    forall j :: 0 <= j < |passed| && passed[j].Some? && passed[j].value != base ==> SetAfter(passed + own, j)
  }

  ghost predicate SetAfter<T>(sets: seq<Option<T>>, j: int) { exists k :: 0 <= j < k < |sets| && sets[k].Some? }

  lemma {:induction false} LastSetIs<T>(base: T, sets: seq<Option<T>>, k: nat)
    requires k <= |sets| && forall j :: k <= j < |sets| ==> sets[j].None?
    ensures LastSet(base, sets) == if k > 0 && sets[k - 1].Some? then sets[k - 1].value else LastSet(base, sets[..k])
  {
    if k == |sets| {
      assert sets[..k] == sets;
    } else {
      var front := sets[..|sets| - 1];
      LastSetIs(base, front, k);
      assert front[..k] == sets[..k];
    }
  }

  /** The position of the last setting, as a prefix length; 0 when there is none. */
  lemma {:induction false} LastSetting<T>(sets: seq<Option<T>>) returns (k: nat)
    ensures k <= |sets| && (k > 0 ==> sets[k - 1].Some?) && forall j :: k <= j < |sets| ==> sets[j].None?
  {
    if sets == [] || sets[|sets| - 1].Some? {
      k := |sets|;
    } else {
      k := LastSetting(sets[..|sets| - 1]);
      assert forall j :: k <= j < |sets| - 1 ==> sets[j] == sets[..|sets| - 1][j];
    }
  }

  /** Forgetting the earlier settings makes no difference exactly when they are restored. */
  lemma ForgettingIsHarmlessExactly<T>(base: T, passed: seq<Option<T>>, own: seq<Option<T>>)
    ensures LastSet(base, own) == LastSet(base, passed + own) <==> Restored(base, passed, own)
  {
    var all := passed + own;
    var k := LastSetting(all);
    LastSetIs(base, all, k);
    assert forall j :: 0 <= j < k - 1 ==> SetAfter(all, j) by {
      forall j | 0 <= j < k - 1 ensures SetAfter(all, j) { assert all[k - 1].Some?; }
    }
    if k > |passed| {
      assert all[k - 1] == own[k - 1 - |passed|];
      assert forall j :: k - |passed| <= j < |own| ==> own[j] == all[j + |passed|];
      LastSetIs(base, own, k - |passed|);
    } else {
      assert forall j :: 0 <= j < |own| ==> own[j] == all[j + |passed|];
      assert forall j :: 0 <= j < |passed| ==> passed[j] == all[j];
      assert own[..0] == [];
      LastSetIs(base, own, 0);
      assert LastSet(base, own) == base;
      if k > 0 {
        assert !SetAfter(all, k - 1);
        assert passed[k - 1].Some? && LastSet(base, all) == passed[k - 1].value;
      } else {
        assert all[..0] == [];
      }
    }
  }

  /** The options with which an attempt selects are rebuilt from the caller's: the rules passed by earlier attempts
      count for nothing.  That makes no difference exactly when, field by field, every value that an applying
      route-options rule before the attempt set is set again later or is the caller's own. */
  lemma RetryKeepsOptionsExactly(
    env: Env, service: Service, mode: Mode, base: Options, context: seq<Addr>, attempts: seq<Attempt>, i: nat)
    requires Attempts(env, service, mode, base, context, attempts) && i < |attempts|
    ensures forall j :: 0 <= j < |attempts| ==> attempts[j].from <= End(env, attempts[j]) <= |env.rules|
    ensures var a, own := attempts[i], Own(env, mode, attempts[i]);
            a.selection == (if a.selection.rule.Some? then Selected(env, a.selection.rule.value, MergeAll(base, own))
                            else Match(None, Some(env.fallback), MergeAll(base, own)))
    ensures var passed, own := Passed(env, mode, attempts, i), Own(env, mode, attempts[i]);
            MergeAll(base, own) == MergeAll(base, passed + own) <==>
            && Restored(base.strategy, Strategies(passed), Strategies(own))
            && Restored(base.disableCache, NoCaches(passed), NoCaches(own))
            && Restored(base.rewriteTtl, Ttls(passed), Ttls(own))
            && Restored(base.subnet, Subnets(passed), Subnets(own))
  {
    forall j | 0 <= j < |attempts| ensures attempts[j].from <= End(env, attempts[j]) <= |env.rules| {
      AttemptIndex(env, service, mode, base, context, attempts, j);
    }
    assert Matched(env, mode, base, attempts[i]);
    OptionsAreMerged(env, mode, attempts[i].from, End(env, attempts[i]), attempts[i].seen, base);
    ForgottenOptions(base, Passed(env, mode, attempts, i), Own(env, mode, attempts[i]));
  }

  lemma ForgottenOptions(base: Options, passed: seq<Options>, own: seq<Options>)
    ensures MergeAll(base, own) == MergeAll(base, passed + own) <==>
            && Restored(base.strategy, Strategies(passed), Strategies(own))
            && Restored(base.disableCache, NoCaches(passed), NoCaches(own))
            && Restored(base.rewriteTtl, Ttls(passed), Ttls(own))
            && Restored(base.subnet, Subnets(passed), Subnets(own))
  {
    MergedFields(base, own);
    MergedFields(base, passed + own);
    FieldsOfBoth(passed, own);
    ForgettingIsHarmlessExactly(base.strategy, Strategies(passed), Strategies(own));
    ForgettingIsHarmlessExactly(base.disableCache, NoCaches(passed), NoCaches(own));
    ForgettingIsHarmlessExactly(base.rewriteTtl, Ttls(passed), Ttls(own));
    ForgettingIsHarmlessExactly(base.subnet, Subnets(passed), Subnets(own));
  }

  lemma FieldsOfBoth(a: seq<Options>, b: seq<Options>)
    ensures Strategies(a + b) == Strategies(a) + Strategies(b) && NoCaches(a + b) == NoCaches(a) + NoCaches(b)
    ensures Ttls(a + b) == Ttls(a) + Ttls(b) && Subnets(a + b) == Subnets(a) + Subnets(b)
  {
  }

  /** Concretely: a route-options rule that disables the cache, a rejected rule, and a third one that then uses it. */
  lemma RetryForgetsOptions(
    env: Env, mode: Mode, base: Options, context: seq<Addr>, attempts: seq<Attempt>, outcome: Outcome)
    requires RetryChain(env, mode, base, context, attempts, outcome)
    requires |env.rules| == 3 && mode.addressQuery && forall k, seen :: env.matches(k, seen)
    requires env.rules[0].action.RouteOptions? && env.rules[0].action.options.disableCache
    requires env.rules[1].action.Route? && env.rules[1].addressLimit && env.rules[1].action.server in env.transports
    requires env.rules[2].action.Route? && env.rules[2].action.server in env.transports
    requires !env.rules[2].action.options.disableCache
    requires forall t :: t in env.transports ==> !env.transports[t].isFakeIP && env.transports[t].legacy.None?
    requires !base.disableCache && forall call :: env.client(call).Rejected? <==> call.checkedBy == Some(1)
    ensures |attempts| == 2 && attempts[0].selection.options.disableCache && !attempts[1].selection.options.disableCache
  {
    var a := attempts[0];
    assert Matched(env, mode, base, a);
    assert Stops(env, mode, 1, a.seen) && !Stops(env, mode, 0, a.seen);
    assert a.selection.rule == Some(1);
    assert OptionsOver(env, mode, 0, 1, a.seen, base) == Merge(base, env.rules[0].action.options, false);
    assert !Ends(env, a, outcome);
    assert |attempts| > 1 && Follows(env, Exchanging, attempts[0], attempts[1]);
    var b := attempts[1];
    assert Matched(env, mode, base, b) && b.from == 2;
    assert Stops(env, mode, 2, b.seen);
    assert b.selection.rule == Some(2);
    assert OptionsOver(env, mode, 2, 2, b.seen, base) == base;
    FewAttempts(env, Exchanging, mode, base, context, attempts);
    assert !Retried(env, Exchanging, b);
    assert |attempts| > 2 ==> Follows(env, Exchanging, attempts[1], attempts[1 + 1]);
  }

  // ----- Lookup -----

  datatype LookupFault = RcodeFault(rcode: nat) | ClientFault(code: nat) | EmptyResult
  datatype LookupOutcome = RejectedByRule | Returned(addresses: seq<Addr>, fault: Option<LookupFault>)

  const LOOKUP := Mode(false, true)

  function WithEmptyCheck(addresses: seq<Addr>, fault: Option<LookupFault>): LookupOutcome {
    Returned(addresses, if fault.None? && addresses == [] then Some(EmptyResult) else fault)
  }

  /** The error variable still holds the last failed attempt's error when a predefined rule is reached. */
  function LookupVerdict(env: Env, k: nat, stale: Option<LookupFault>): Option<LookupOutcome>
    requires k < |env.rules|
  {
    match env.rules[k].action
    case RejectDefault => Some(RejectedByRule)
    case RejectDrop => Some(RejectedByRule)
    case Predefined(rcode, answers) =>
      Some(if rcode != 0 then WithEmptyCheck([], Some(RcodeFault(rcode))) else WithEmptyCheck(answers, stale))
    case _ => None
  }

  ghost predicate LookupEnds(env: Env, a: Attempt, stale: Option<LookupFault>, outcome: LookupOutcome) {
    if a.selection.rule.Some? && a.selection.rule.value < |env.rules| && Verdict(env, a.selection.rule.value).Some?
    then Some(outcome) == LookupVerdict(env, a.selection.rule.value, stale)
    else
      && a.selection.transport.Some? && (a.selection.rule.Some? ==> a.selection.rule.value < |env.rules|)
      && var call := CallFor(env, a.selection);
         match env.lookup(call)
         case Addresses(list) => outcome == WithEmptyCheck(list, None)
         case LookupError(code, _) => call.checkedBy.None? && outcome == WithEmptyCheck([], Some(ClientFault(code)))
  }

  /** The error of the last of the first n attempts. */
  function LastFault(env: Env, attempts: seq<Attempt>, n: nat): Option<LookupFault>
    requires n <= |attempts|
  {
    if n == 0 then None
    else
      var m := attempts[n - 1].selection;
      if m.transport.Some? && (m.rule.Some? ==> m.rule.value < |env.rules|) && env.lookup(CallFor(env, m)).LookupError?
      then Some(ClientFault(env.lookup(CallFor(env, m)).code)) else None
  }

  ghost predicate LookupChain(
    env: Env, base: Options, context: seq<Addr>, attempts: seq<Attempt>, outcome: LookupOutcome)
  {
    && Attempts(env, LookingUp, LOOKUP, base, context, attempts)
    && LookupEnds(env, attempts[|attempts| - 1], LastFault(env, attempts, |attempts| - 1), outcome)
  }

  /** The retry loop of Lookup. */
  method Lookup(env: Env, base: Options, context: seq<Addr>) returns (outcome: LookupOutcome, attempts: seq<Attempt>)
    ensures LookupChain(env, base, context, attempts, outcome)
  {
    attempts := [];
    var from, seen := 0, context;
    var fault: Option<LookupFault> := None;
    while true
      invariant from <= |env.rules| && fault == LastFault(env, attempts, |attempts|)
      invariant SoFar(env, LookingUp, LOOKUP, base, context, attempts, from, seen)
      decreases |env.rules| - from
    {
      var m := MatchDns(env, LOOKUP, from, seen, base);
      OneMoreAttempt(env, LookingUp, LOOKUP, base, context, attempts, Attempt(from, seen, m));
      attempts := attempts + [Attempt(from, seen, m)];
      assert fault == LastFault(env, attempts, |attempts| - 1);
      if m.rule.Some? && LookupVerdict(env, m.rule.value, fault).Some? {
        return LookupVerdict(env, m.rule.value, fault).value, attempts;
      }
      var call := CallFor(env, m);
      match env.lookup(call) {
        case Addresses(list) => return WithEmptyCheck(list, None), attempts;
        case LookupError(code, shown) =>
          fault := Some(ClientFault(code));
          if call.checkedBy.None? { return WithEmptyCheck([], fault), attempts; }
          LookupIsRetried(env, base, attempts[|attempts| - 1]);
          from, seen := m.rule.value + 1, Shown(seen, shown);
      }
    }
  }

  lemma LookupIsRetried(env: Env, base: Options, a: Attempt)
    requires Matched(env, LOOKUP, base, a) && a.selection.rule.Some? && Verdict(env, a.selection.rule.value).None?
    requires CallFor(env, a.selection).checkedBy.Some? && env.lookup(CallFor(env, a.selection)).LookupError?
    ensures Follows(env, LookingUp, a,
                    Attempt(a.selection.rule.value + 1,
                            Shown(a.seen, env.lookup(CallFor(env, a.selection)).seen), a.selection))
  {
  }

  lemma LookupEndsIsLast(env: Env, a: Attempt, stale: Option<LookupFault>, outcome: LookupOutcome)
    requires LookupEnds(env, a, stale, outcome)
    ensures !Retried(env, LookingUp, a)
  {
  }

  lemma LookupChainIsUnique(
    env: Env, base: Options, context: seq<Addr>, a: seq<Attempt>, oa: LookupOutcome, b: seq<Attempt>, ob: LookupOutcome)
    requires LookupChain(env, base, context, a, oa) && LookupChain(env, base, context, b, ob)
    ensures a == b && oa == ob
  {
    LookupEndsIsLast(env, a[|a| - 1], LastFault(env, a, |a| - 1), oa);
    LookupEndsIsLast(env, b[|b| - 1], LastFault(env, b, |b| - 1), ob);
    AttemptsAreUnique(env, LookingUp, LOOKUP, base, context, a, b);
  }

  /** Rule k is the first that ends the search, with the addresses of the caller's context. */
  ghost predicate FirstStop(env: Env, mode: Mode, context: seq<Addr>, k: nat) {
    k < |env.rules| && Stops(env, mode, k, context) && forall j :: 0 <= j < k ==> !Stops(env, mode, j, context)
  }

  /** When a predefined success with addresses answers a lookup, it comes without an error if and only if it is the
      first rule to end the search from the start: otherwise an earlier checked lookup failed, and the
      caller gets the addresses and that error. */
  lemma PredefinedIsCleanExactly(
    env: Env, base: Options, context: seq<Addr>, attempts: seq<Attempt>, outcome: LookupOutcome, k: nat)
    requires LookupChain(env, base, context, attempts, outcome)
    requires k < |env.rules| && attempts[|attempts| - 1].selection.rule == Some(k)
    requires env.rules[k].action.Predefined? && env.rules[k].action.rcode == 0 && env.rules[k].action.answers != []
    ensures outcome.Returned? && outcome.addresses == env.rules[k].action.answers
    ensures outcome.fault.None? <==> FirstStop(env, LOOKUP, context, k)
  {
    assert Matched(env, LOOKUP, base, attempts[0]);
    var n := |attempts| - 1;
    if n > 0 {
      assert Follows(env, LookingUp, attempts[n - 1], attempts[n]);
      IndicesIncrease(env, LookingUp, LOOKUP, base, context, attempts, 0, n);
    }
  }

  /** And a first-stopping predefined rule does answer, without an error. */
  lemma FirstPredefinedAnswers(
    env: Env, base: Options, context: seq<Addr>, attempts: seq<Attempt>, outcome: LookupOutcome, k: nat)
    requires LookupChain(env, base, context, attempts, outcome) && FirstStop(env, LOOKUP, context, k)
    requires env.rules[k].action.Predefined? && env.rules[k].action.rcode == 0 && env.rules[k].action.answers != []
    ensures outcome == Returned(env.rules[k].action.answers, None) && |attempts| == 1
  {
    assert Matched(env, LOOKUP, base, attempts[0]);
    assert attempts[0].selection.rule == Some(k);
    assert |attempts| > 1 ==> Follows(env, LookingUp, attempts[0], attempts[0 + 1]);
  }

  /** Concretely: a checked rule whose lookup fails with 5, and then a predefined answer 7: the caller gets 7 and
      the error 5. */
  lemma PredefinedAfterFailure(
    env: Env, base: Options, context: seq<Addr>, attempts: seq<Attempt>, outcome: LookupOutcome)
    requires LookupChain(env, base, context, attempts, outcome)
    requires env.rules == [Rule(Route("s", base), true), Rule(Predefined(0, [7]), false)]
    requires "s" in env.transports && !env.transports["s"].isFakeIP && forall k, seen :: env.matches(k, seen)
    requires forall call :: env.lookup(call) == LookupError(5, None)
    ensures outcome == Returned([7], Some(ClientFault(5)))
  {
    var a := attempts[0];
    assert Matched(env, LOOKUP, base, a);
    assert Stops(env, LOOKUP, 0, a.seen);
    assert a.selection.rule == Some(0) && !LookupEnds(env, a, None, outcome);
    assert |attempts| > 1 && Follows(env, LookingUp, attempts[0], attempts[1]);
    var b := attempts[1];
    assert Matched(env, LOOKUP, base, b) && b.from == 1;
    assert Stops(env, LOOKUP, 1, b.seen);
    assert b.selection.rule == Some(1);
    assert |attempts| > 2 ==> Follows(env, LookingUp, attempts[1], attempts[1 + 1]);
  }
}
