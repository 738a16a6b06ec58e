/** Route rule evaluation: matchRule threads the connection's metadata through an ordered
    rule list, in full mode and in pre-match mode.

    Rule matching, sniffing, DNS lookup, the fakeip store and the reverse mapping are
    functions of what they are shown, so that two runs get the same answers to the same
    questions.  The metadata pointer is an in-out value. */
module RouteRules {
  import opened Optional

  type Addr = nat

  datatype Socksaddr = Socksaddr(addr: Option<Addr>, fqdn: string, port: nat)

  const NOWHERE := Socksaddr(None, "", 0)

  predicate IsValid(a: Socksaddr) { a.addr.Some? || a.fqdn != "" }
  predicate IsFqdn(a: Socksaddr) { a.fqdn != "" }

  datatype InboundOptions = InboundOptions(sniff: bool, sniffOverride: bool, strategy: nat, unmapping: bool)

  const NO_OPTIONS := InboundOptions(false, false, 0, false)

  datatype Metadata = Metadata(
    destination: Socksaddr,
    addresses: seq<Addr>,                  // DestinationAddresses
    original: Socksaddr,                   // RouteOriginalDestination
    originDestination: Socksaddr,
    protocol: string, domain: string, fakeIP: bool, inbound: InboundOptions,
    dial: DialOptions)

  /** The settings that only the dialer reads. */
  datatype DialOptions = DialOptions(
    networkStrategy: Option<nat>, networkType: seq<nat>, fallbackNetworkType: seq<nat>, fallbackDelay: nat,
    udpDisableUnmapping: bool, udpConnect: bool, udpTimeout: nat,
    tlsFragment: bool, tlsFragmentDelay: nat, tlsRecordFragment: bool)

  datatype RouteSettings = RouteSettings(overrideAddress: Socksaddr, overridePort: nat, dial: DialOptions)

  datatype ResolveSettings = ResolveSettings(
    server: string, strategy: nat, disableCache: bool, rewriteTtl: Option<nat>, subnet: Option<string>)

  datatype Action =
    | Route(outbound: string, settings: RouteSettings)
    | RouteOptions(settings: RouteSettings)
    | Direct
    | Reject
    | HijackDNS
    | Sniff(overrideDestination: bool)
    | Resolve(settings': ResolveSettings)

  datatype Sniffed =
    | SniffSkipped
    | SniffFatal
    | SniffedAs(protocol: string, domain: string, isDomain: bool)
    | SniffFailed
  datatype FakeRecord = NotFake | FakeMissing | FakeDomain(domain: string)

  datatype Env = Env(
    rules: seq<Action>,
    matches: (nat, Metadata) -> bool,
    sniff: (Metadata, bool) -> Sniffed,
    servers: set<string>,
    lookup: (string, ResolveSettings, Metadata) -> Option<seq<Addr>>,
    fake: Addr -> FakeRecord,
    reverse: Option<Addr> -> Option<string>)

  datatype Fault = MissingFakeRecord | SniffError | ServerNotFound | LookupFailed

  /** What an action or a preparation does to the metadata, and what a rule does to the evaluation. */
  datatype Progress = Proceed(next: Metadata) | Fail(fault: Fault)
  datatype StepResult = Continue(next: Metadata) | Final(last: Metadata) | Abort(fault: Fault)

  function GoOn(p: Progress): StepResult { if p.Proceed? then Continue(p.next) else Abort(p.fault) }

  datatype Outcome = Selected(index: nat, metadata: Metadata) | NoMatch(metadata: Metadata) | Fatal(fault: Fault)

  // ----- Actions -----

  function ApplyDial(d: DialOptions, o: DialOptions): DialOptions {
    DialOptions(
      if o.networkStrategy.Some? then o.networkStrategy else d.networkStrategy,
      if o.networkType != [] then o.networkType else d.networkType,
      if o.fallbackNetworkType != [] then o.fallbackNetworkType else d.fallbackNetworkType,
      if o.fallbackDelay != 0 then o.fallbackDelay else d.fallbackDelay,
      d.udpDisableUnmapping || o.udpDisableUnmapping, d.udpConnect || o.udpConnect,
      if o.udpTimeout > 0 then o.udpTimeout else d.udpTimeout,
      d.tlsFragment || o.tlsFragment, if o.tlsFragment then o.tlsFragmentDelay else d.tlsFragmentDelay,
      d.tlsRecordFragment || o.tlsRecordFragment)
  }

  function ApplySettings(md: Metadata, o: RouteSettings): Metadata {
    var overrides := IsValid(o.overrideAddress) || o.overridePort > 0;
    var m1 := if overrides && !IsValid(md.original) then md.(original := md.destination) else md;
    var m2 := if IsValid(o.overrideAddress)
              then m1.(destination := o.overrideAddress.(port := md.destination.port), addresses := [])
              else m1;
    var m3 := if o.overridePort > 0 then m2.(destination := m2.destination.(port := o.overridePort)) else m2;
    m3.(dial := ApplyDial(md.dial, o.dial))
  }

  function ActionSniff(env: Env, md: Metadata, overrideDestination: bool): Progress {
    match env.sniff(md, overrideDestination)
    case SniffSkipped => Proceed(md)
    case SniffFailed => Proceed(md)
    case SniffFatal => Fail(SniffError)
    case SniffedAs(protocol, domain, isDomain) =>
      var m1 := md.(protocol := protocol, domain := domain);
      Proceed(if overrideDestination && isDomain then m1.(destination := Socksaddr(None, domain, md.destination.port))
              else m1)
  }

  function ActionResolve(env: Env, md: Metadata, o: ResolveSettings): Progress {
    if !IsFqdn(md.destination) then Proceed(md)
    else if o.server != "" && o.server !in env.servers then Fail(ServerNotFound)
    else
      match env.lookup(md.destination.fqdn, o, md)
      case None => Fail(LookupFailed)
      case Some(list) => Proceed(md.(addresses := list))
  }

  /** One rule: skip, act and go on, act and stop, or fail. */
  function StepRule(env: Env, preMatch: bool, k: nat, md: Metadata): StepResult
    requires k < |env.rules|
  {
    if !env.matches(k, md) then Continue(md)
    else
      match env.rules[k]
      case Route(_, o) => Final(ApplySettings(md, o))
      case RouteOptions(o) => Continue(ApplySettings(md, o))
      case Direct => Continue(md)
      case Reject => Final(md)
      case HijackDNS => Final(md)
      case Sniff(overrideDestination) => if preMatch then Final(md) else GoOn(ActionSniff(env, md, overrideDestination))
      case Resolve(o) => GoOn(ActionResolve(env, md, o))
  }

  // ----- Before the rules -----

  function Identify(env: Env, md: Metadata): Progress {
    if md.destination.addr.Some? && env.fake(md.destination.addr.value) != NotFake then
      match env.fake(md.destination.addr.value)
      case FakeDomain(domain) =>
        Proceed(if domain == "" then md
                 else md.(originDestination := md.destination,
                   destination := Socksaddr(None, domain, md.destination.port), fakeIP := true))
      case _ => Fail(MissingFakeRecord)
    else if md.domain == "" && env.reverse(md.destination.addr).Some? then
      Proceed(md.(domain := env.reverse(md.destination.addr).value))
    else Proceed(md)
  }

  /** The deprecated per-inbound options: sniff (not in pre-match), resolve, and then they are cleared. */
  function ApplyInbound(env: Env, preMatch: bool, md: Metadata): Progress {
    if md.inbound == NO_OPTIONS then Proceed(md)
    else
      var sniffed :=
        if !preMatch && md.inbound.sniff then ActionSniff(env, md, md.inbound.sniffOverride) else Proceed(md);
      match sniffed
      case Proceed(m1) =>
        var settings := ResolveSettings("", md.inbound.strategy, false, None, None);
        var resolved := if md.inbound.strategy != 0 then ActionResolve(env, m1, settings) else Proceed(m1);
        (match resolved
         case Proceed(m2) =>
           Proceed(m2.(inbound := NO_OPTIONS,
             dial := m2.dial.(udpDisableUnmapping := m2.dial.udpDisableUnmapping || md.inbound.unmapping)))
         case Fail(f) => Fail(f))
      case Fail(f) => Fail(f)
  }

  function Prepare(env: Env, preMatch: bool, md: Metadata): Progress {
    match Identify(env, md)
    case Proceed(m1) => ApplyInbound(env, preMatch, m1)
    case Fail(f) => Fail(f)
  }

  // ----- The loop as an ordered fold -----

  function Fold(env: Env, preMatch: bool, k: nat, md: Metadata): Outcome
    requires k <= |env.rules|
    decreases |env.rules| - k
  {
    if k == |env.rules| then NoMatch(md)
    else
      match StepRule(env, preMatch, k, md)
      case Continue(next) => Fold(env, preMatch, k + 1, next)
      case Final(last) => Selected(k, last)
      case Abort(fault) => Fatal(fault)
  }

  function MatchAll(env: Env, preMatch: bool, md: Metadata): Outcome {
    match Prepare(env, preMatch, md)
    case Proceed(m) => Fold(env, preMatch, 0, m)
    case Fail(fault) => Fatal(fault)
  }

  /** matchRule. */
  method MatchRule(env: Env, preMatch: bool, input: Metadata) returns (outcome: Outcome)
    ensures outcome == MatchAll(env, preMatch, input)
  {
    var prepared := Prepare(env, preMatch, input);
    if prepared.Fail? { return Fatal(prepared.fault); }
    var metadata := prepared.next;
    for k := 0 to |env.rules|
      invariant Fold(env, preMatch, k, metadata) == MatchAll(env, preMatch, input)
    {
      if !env.matches(k, metadata) { continue; }
      match env.rules[k] {
        case Route(_, o) =>
          metadata := ApplySettings(metadata, o);
          return Selected(k, metadata);
        case RouteOptions(o) =>
          metadata := ApplySettings(metadata, o);
        case Direct =>
        case Reject => return Selected(k, metadata);
        case HijackDNS => return Selected(k, metadata);
        case Sniff(overrideDestination) =>
          if preMatch { return Selected(k, metadata); }
          var r := ActionSniff(env, metadata, overrideDestination);
          if r.Fail? { return Fatal(r.fault); }
          metadata := r.next;
        case Resolve(o) =>
          var r := ActionResolve(env, metadata, o);
          if r.Fail? { return Fatal(r.fault); }
          metadata := r.next;
      }
    }
    return NoMatch(metadata);
  }

  // ----- The metadata each rule is shown -----

  /** `trace[i]` is what rule i was shown; every earlier rule let the evaluation go on. */
  ghost predicate Trace(env: Env, preMatch: bool, trace: seq<Metadata>) {
    0 < |trace| <= |env.rules| + 1 &&
    forall i :: 0 <= i < |trace| - 1 ==> StepRule(env, preMatch, i, trace[i]) == Continue(trace[i + 1])
  }

  /** The fold, declared: the first rule whose action is final on the metadata left by the earlier
      ones is selected, a failing action is fatal, and otherwise no rule is selected. */
  ghost predicate Decides(env: Env, preMatch: bool, trace: seq<Metadata>, outcome: Outcome) {
    && Trace(env, preMatch, trace)
    && var n := |trace| - 1;
       if n == |env.rules| then outcome == NoMatch(trace[n])
       else match StepRule(env, preMatch, n, trace[n])
            case Final(last) => outcome == Selected(n, last)
            case Abort(fault) => outcome == Fatal(fault)
            case Continue(_) => false
  }

  lemma {:induction false} FoldHasATrace(env: Env, preMatch: bool, trace: seq<Metadata>) returns (whole: seq<Metadata>)
    requires Trace(env, preMatch, trace)
    ensures trace <= whole && Decides(env, preMatch, whole, Fold(env, preMatch, |trace| - 1, trace[|trace| - 1]))
    decreases |env.rules| - |trace|
  {
    var n := |trace| - 1;
    whole := trace;
    if n < |env.rules| {
      match StepRule(env, preMatch, n, trace[n])
      case Continue(next) =>
        whole := FoldHasATrace(env, preMatch, trace + [next]);
      case _ =>
    }
  }

  /** Every evaluation that gets past the preparation is decided by one trace. */
  lemma EvaluationIsAFold(env: Env, preMatch: bool, md: Metadata) returns (trace: seq<Metadata>)
    requires Prepare(env, preMatch, md).Proceed?
    ensures Decides(env, preMatch, trace, MatchAll(env, preMatch, md)) && trace[0] == Prepare(env, preMatch, md).next
  {
    trace := FoldHasATrace(env, preMatch, [Prepare(env, preMatch, md).next]);
  }

  lemma {:induction false} TracesAgree(env: Env, preMatch: bool, a: seq<Metadata>, b: seq<Metadata>, i: nat)
    requires Trace(env, preMatch, a) && Trace(env, preMatch, b) && a[0] == b[0] && i < |a| && i < |b|
    ensures a[i] == b[i]
  {
    if i == 0 {
    } else {
      TracesAgree(env, preMatch, a, b, i - 1);
      assert StepRule(env, preMatch, i - 1, a[i - 1]) == Continue(a[i]);
      assert StepRule(env, preMatch, i - 1, b[i - 1]) == Continue(b[i]);
    }
  }

  // ----- Pre-match against full match -----

  /** No sniff rule matched along the trace, including at its end. */
  ghost predicate NoSniff(env: Env, trace: seq<Metadata>) {
    forall i :: 0 <= i < |trace| && i < |env.rules| && env.rules[i].Sniff? ==> !env.matches(i, trace[i])
  }

  lemma SameTraceInBothModes(env: Env, trace: seq<Metadata>, outcome: Outcome)
    requires NoSniff(env, trace)
    ensures Decides(env, true, trace, outcome) <==> Decides(env, false, trace, outcome)
  {
    assert forall i :: 0 <= i < |trace| && i < |env.rules| ==>
      StepRule(env, true, i, trace[i]) == StepRule(env, false, i, trace[i]);
  }

  /** A pre-match trace can meet a matching sniff rule only at its end. */
  lemma PreMatchStopsAtSniff(env: Env, trace: seq<Metadata>, i: nat)
    requires Trace(env, true, trace) && i < |trace| - 1 && env.rules[i].Sniff?
    ensures !env.matches(i, trace[i])
  {
    assert StepRule(env, true, i, trace[i]) == Continue(trace[i + 1]);
  }

  lemma {:induction false} DecidesFold(env: Env, preMatch: bool, trace: seq<Metadata>, outcome: Outcome, i: nat)
    requires Decides(env, preMatch, trace, outcome) && i < |trace|
    ensures Fold(env, preMatch, i, trace[i]) == outcome
    decreases |trace| - i
  {
    if i < |trace| - 1 {
      assert StepRule(env, preMatch, i, trace[i]) == Continue(trace[i + 1]);
      DecidesFold(env, preMatch, trace, outcome, i + 1);
    }
  }

  ghost predicate Rejects(env: Env, outcome: Outcome, k: nat) {
    k < |env.rules| && env.rules[k].Reject? && outcome.Selected? && outcome.index == k
  }

  lemma PrepareSameWithoutSniff(env: Env, md: Metadata)
    requires !md.inbound.sniff
    ensures Prepare(env, true, md) == Prepare(env, false, md)
  {
  }

  /** If pre-matching rejects with rule k, the full evaluation from the same metadata selects rule k
      with the same metadata. */
  lemma PreMatchRejectionStands(env: Env, md: Metadata, k: nat)
    requires !md.inbound.sniff && Rejects(env, MatchAll(env, true, md), k)
    ensures MatchAll(env, false, md) == MatchAll(env, true, md)
  {
    PrepareSameWithoutSniff(env, md);
    var trace := EvaluationIsAFold(env, true, md);
    forall i | 0 <= i < |trace| && i < |env.rules| && env.rules[i].Sniff? ensures !env.matches(i, trace[i]) {
      if i < |trace| - 1 { PreMatchStopsAtSniff(env, trace, i); }
    }
    SameTraceInBothModes(env, trace, MatchAll(env, true, md));
    DecidesFold(env, false, trace, MatchAll(env, true, md), 0);
  }

  /** Conversely a full rejection is already found by pre-matching exactly when no sniff rule matched on the way. */
  lemma FullRejectionIsPreMatchedExactly(env: Env, md: Metadata, k: nat, trace: seq<Metadata>)
    requires !md.inbound.sniff && Rejects(env, MatchAll(env, false, md), k) && Prepare(env, false, md).Proceed?
    requires Decides(env, false, trace, MatchAll(env, false, md)) && trace[0] == Prepare(env, false, md).next
    ensures Rejects(env, MatchAll(env, true, md), k) <==> NoSniff(env, trace)
  {
    PrepareSameWithoutSniff(env, md);
    if NoSniff(env, trace) {
      SameTraceInBothModes(env, trace, MatchAll(env, false, md));
      DecidesFold(env, true, trace, MatchAll(env, false, md), 0);
    } else if Rejects(env, MatchAll(env, true, md), k) {
      PreMatchRejectionStands(env, md, k);
      var pre := EvaluationIsAFold(env, true, md);
      PreTraceIsFull(env, pre, trace);
    }
  }

  lemma PreTraceIsFull(env: Env, pre: seq<Metadata>, full: seq<Metadata>)
    requires Trace(env, true, pre) && Trace(env, false, full) && pre[0] == full[0] && |pre| == |full|
    requires |pre| <= |env.rules| && env.rules[|pre| - 1].Reject?
    ensures NoSniff(env, full)
  {
    assert NoSniff(env, pre) by {
      forall i | 0 <= i < |pre| && i < |env.rules| && env.rules[i].Sniff? ensures !env.matches(i, pre[i]) {
        if i < |pre| - 1 { PreMatchStopsAtSniff(env, pre, i); }
      }
    }
    assert Trace(env, false, pre) by {
      forall i | 0 <= i < |pre| - 1 ensures StepRule(env, false, i, pre[i]) == Continue(pre[i + 1]) {
        assert StepRule(env, true, i, pre[i]) == Continue(pre[i + 1]);
      }
    }
    forall i | 0 <= i < |full| ensures full[i] == pre[i] { TracesAgree(env, false, pre, full, i); }
  }

  // ----- The original destination -----

  lemma StepKeepsOriginal(env: Env, preMatch: bool, k: nat, md: Metadata)
    requires k < |env.rules| && IsValid(md.original)
    ensures StepRule(env, preMatch, k, md).Continue? ==> StepRule(env, preMatch, k, md).next.original == md.original
    ensures StepRule(env, preMatch, k, md).Final? ==> StepRule(env, preMatch, k, md).last.original == md.original
  {
  }

  /** Once recorded, the original destination never changes again. */
  lemma {:induction false} OriginalIsFixed(env: Env, preMatch: bool, trace: seq<Metadata>, i: nat, j: nat)
    requires Trace(env, preMatch, trace) && i <= j < |trace| && IsValid(trace[i].original)
    ensures trace[j].original == trace[i].original
    decreases j
  {
    if i < j {
      OriginalIsFixed(env, preMatch, trace, i, j - 1);
      StepKeepsOriginal(env, preMatch, j - 1, trace[j - 1]);
      assert StepRule(env, preMatch, j - 1, trace[j - 1]) == Continue(trace[j]);
    }
  }

  /** Nor does the rule that ends the evaluation change it, even a Route with an override. */
  lemma OriginalReachesOutcome(env: Env, preMatch: bool, trace: seq<Metadata>, outcome: Outcome, i: nat)
    requires Decides(env, preMatch, trace, outcome) && i < |trace| && IsValid(trace[i].original) && !outcome.Fatal?
    ensures outcome.metadata.original == trace[i].original
  {
    var n := |trace| - 1;
    OriginalIsFixed(env, preMatch, trace, i, n);
    if n < |env.rules| { StepKeepsOriginal(env, preMatch, n, trace[n]); }
  }

  predicate Overrides(action: Action) {
    (action.Route? || action.RouteOptions?) &&
      (IsValid(action.settings.overrideAddress) || action.settings.overridePort > 0)
  }

  /** The first matching override records the destination it replaces; nothing else records one. */
  lemma FirstOverrideRecords(env: Env, preMatch: bool, k: nat, md: Metadata)
    requires k < |env.rules| && !IsValid(md.original)
    ensures var r := StepRule(env, preMatch, k, md);
            var original := if env.matches(k, md) && Overrides(env.rules[k]) then md.destination else md.original;
            (r.Continue? ==> r.next.original == original) && (r.Final? ==> r.last.original == original)
  {
  }

  // ----- Resolved addresses -----

  /** Nonempty addresses are an answer that some lookup of the current domain gave. */
  ghost predicate Fresh(env: Env, md: Metadata) {
    md.addresses != [] ==>
      IsFqdn(md.destination) && exists o, at :: env.lookup(md.destination.fqdn, o, at) == Some(md.addresses)
  }

  predicate SniffsOver(action: Action) { action.Sniff? && action.overrideDestination }

  /** No rule that sniffs with override comes after something that resolves: a Resolve rule or,
      before all rules, the inbound's own domain strategy. */
  predicate SniffsFirst(rules: seq<Action>, strategy: nat) {
    forall j :: 0 <= j < |rules| && SniffsOver(rules[j]) ==>
      strategy == 0 && forall i :: 0 <= i < j ==> !rules[i].Resolve?
  }

  lemma SettingsKeepFresh(env: Env, md: Metadata, o: RouteSettings)
    requires Fresh(env, md)
    ensures Fresh(env, ApplySettings(md, o))
  {
  }

  lemma ResolveKeepsFresh(env: Env, md: Metadata, o: ResolveSettings)
    requires Fresh(env, md)
    ensures ActionResolve(env, md, o).Proceed? ==> Fresh(env, ActionResolve(env, md, o).next)
  {
  }

  /** What rule k is shown: fresh addresses, and none at all before anything has resolved. */
  ghost predicate FreshAt(env: Env, strategy: nat, k: nat, md: Metadata)
    requires k <= |env.rules|
  {
    Fresh(env, md) && (strategy == 0 && (forall i :: 0 <= i < k ==> !env.rules[i].Resolve?) ==> md.addresses == [])
  }

  /** A sniff with override keeps fresh addresses when there are none, and so does any other action always. */
  lemma StepKeepsFresh(env: Env, preMatch: bool, strategy: nat, k: nat, md: Metadata)
    requires k < |env.rules| && FreshAt(env, strategy, k, md) && (preMatch || SniffsFirst(env.rules, strategy))
    ensures StepRule(env, preMatch, k, md).Continue? ==>
              FreshAt(env, strategy, k + 1, StepRule(env, preMatch, k, md).next)
    ensures StepRule(env, preMatch, k, md).Final? ==> Fresh(env, StepRule(env, preMatch, k, md).last)
  {
    match env.rules[k]
    case Route(_, o) => SettingsKeepFresh(env, md, o);
    case RouteOptions(o) => SettingsKeepFresh(env, md, o);
    case Resolve(o) => ResolveKeepsFresh(env, md, o);
    case _ =>
  }

  lemma PrepareIsFresh(env: Env, preMatch: bool, md: Metadata)
    requires md.addresses == [] && Prepare(env, preMatch, md).Proceed?
    ensures FreshAt(env, md.inbound.strategy, 0, Prepare(env, preMatch, md).next)
  {
  }

  lemma {:induction false} FoldKeepsFresh(env: Env, preMatch: bool, strategy: nat, k: nat, md: Metadata)
    requires k <= |env.rules| && FreshAt(env, strategy, k, md) && (preMatch || SniffsFirst(env.rules, strategy))
    ensures var r := Fold(env, preMatch, k, md); !r.Fatal? ==> Fresh(env, r.metadata)
    decreases |env.rules| - k
  {
    if k < |env.rules| {
      StepKeepsFresh(env, preMatch, strategy, k, md);
      if StepRule(env, preMatch, k, md).Continue? {
        FoldKeepsFresh(env, preMatch, strategy, k + 1, StepRule(env, preMatch, k, md).next);
      }
    }
  }

  /** An evaluation of these rules with this inbound strategy, from empty addresses. */
  ghost predicate Begins(env: Env, md: Metadata, rules: seq<Action>, strategy: nat) {
    env.rules == rules && md.addresses == [] && md.inbound.strategy == strategy
  }

  ghost predicate EndsFresh(env: Env, preMatch: bool, md: Metadata) {
    var r := MatchAll(env, preMatch, md);
    !r.Fatal? ==> Fresh(env, r.metadata)
  }

  /** From empty addresses, in pre-match mode always and in full mode when no overriding sniff comes after
      something that resolves, the evaluation ends with addresses that answer the domain it ends with. */
  lemma AddressesAnswerTheDomain(env: Env, preMatch: bool, md: Metadata)
    requires md.addresses == [] && (preMatch || SniffsFirst(env.rules, md.inbound.strategy))
    ensures EndsFresh(env, preMatch, md)
  {
    if Prepare(env, preMatch, md).Proceed? {
      PrepareIsFresh(env, preMatch, md);
      FoldKeepsFresh(env, preMatch, md.inbound.strategy, 0, Prepare(env, preMatch, md).next);
    }
  }

  // Rule lists with an overriding sniff after something that resolves go wrong for some environment.

  /** Only the rules in `which` match; every domain but "a" fails to resolve; sniffing always finds "b". */
  function Adversary(rules: seq<Action>, which: set<nat>): Env {
    Env(rules, (k, md) => k in which, (md, override) => SniffedAs("tls", "b", true),
        set k | 0 <= k < |rules| && rules[k].Resolve? :: rules[k].settings'.server,
        (domain, o, md) => if domain == "a" then Some([1]) else None,
        addr => NotFake, addr => None)
  }

  const NO_DIAL := DialOptions(None, [], [], 0, false, false, 0, false, 0, false)

  function Visitor(strategy: nat): Metadata {
    Metadata(Socksaddr(None, "a", 443), [], NOWHERE, NOWHERE, "", "", false,
      InboundOptions(false, false, strategy, false), NO_DIAL)
  }

  /** Rules that do not match leave the metadata alone. */
  lemma {:induction false} FoldSkips(env: Env, preMatch: bool, k: nat, n: nat, md: Metadata)
    requires k <= n <= |env.rules| && forall i :: k <= i < n ==> !env.matches(i, md)
    ensures Fold(env, preMatch, k, md) == Fold(env, preMatch, n, md)
    decreases n - k
  {
    if k == n {
    } else {
      assert StepRule(env, preMatch, k, md) == Continue(md);
      FoldSkips(env, preMatch, k + 1, n, md);
    }
  }

  /** An overriding sniff at rule j moves a connection resolved for "a" to "b", where it ends. */
  lemma SniffMovesAway(env: Env, k: nat, j: nat, md: Metadata, which: set<nat>)
    requires k <= j < |env.rules| && SniffsOver(env.rules[j]) && env == Adversary(env.rules, which)
    requires j in which && forall i :: k <= i < |env.rules| && i != j ==> i !in which
    requires md.addresses == [1]
    ensures Fold(env, false, k, md).NoMatch? && !Fresh(env, Fold(env, false, k, md).metadata)
    ensures var end := Fold(env, false, k, md).metadata;
            end.destination == Socksaddr(None, "b", md.destination.port) && end.addresses == [1]
  {
    FoldSkips(env, false, k, j, md);
    var moved := ActionSniff(env, md, true).next;
    assert StepRule(env, false, j, md) == Continue(moved);
    FoldSkips(env, false, j + 1, |env.rules|, moved);
    assert "b" != "a" by { assert "b"[0] != "a"[0]; }
  }

  lemma VisitorIsPrepared(rules: seq<Action>, strategy: nat, which: set<nat>)
    ensures var env, md := Adversary(rules, which), Visitor(strategy);
            Prepare(env, false, md) ==
              Proceed(if strategy == 0 then md else md.(addresses := [1], inbound := NO_OPTIONS))
  {
  }

  lemma StaleAfterStrategy(rules: seq<Action>, strategy: nat, j: nat)
    requires strategy != 0 && j < |rules| && SniffsOver(rules[j])
    ensures !EndsFresh(Adversary(rules, {j}), false, Visitor(strategy))
  {
    var env := Adversary(rules, {j});
    VisitorIsPrepared(rules, strategy, {j});
    SniffMovesAway(env, 0, j, Visitor(strategy).(addresses := [1], inbound := NO_OPTIONS), {j});
  }

  lemma StaleAfterResolve(rules: seq<Action>, i: nat, j: nat)
    requires i < j < |rules| && rules[i].Resolve? && SniffsOver(rules[j])
    ensures !EndsFresh(Adversary(rules, {i, j}), false, Visitor(0))
    ensures var r := MatchAll(Adversary(rules, {i, j}), false, Visitor(0));
            r.NoMatch? && r.metadata.destination == Socksaddr(None, "b", 443) && r.metadata.addresses == [1]
  {
    var env, md := Adversary(rules, {i, j}), Visitor(0);
    VisitorIsPrepared(rules, 0, {i, j});
    FoldSkips(env, false, 0, i, md);
    var resolved := md.(addresses := [1]);
    assert rules[i].settings'.server in env.servers;
    assert StepRule(env, false, i, md) == Continue(resolved);
    SniffMovesAway(env, i + 1, j, resolved, {i, j});
  }

  /** Exactly: with a given rule list and inbound strategy, every evaluation from empty addresses ends with addresses
      that answer its domain, whatever matches, is sniffed or is looked up, if and only if it is a
      pre-match or no overriding sniff comes after something that resolves. */
  lemma FreshForEveryEnvironmentExactly(rules: seq<Action>, preMatch: bool, strategy: nat)
    ensures (forall env: Env, md: Metadata :: Begins(env, md, rules, strategy) ==> EndsFresh(env, preMatch, md)) <==>
              (preMatch || SniffsFirst(rules, strategy))
  {
    if preMatch || SniffsFirst(rules, strategy) {
      forall env: Env, md: Metadata | Begins(env, md, rules, strategy)
        ensures EndsFresh(env, preMatch, md)
      {
        AddressesAnswerTheDomain(env, preMatch, md);
      }
    } else {
      var j :| 0 <= j < |rules| && SniffsOver(rules[j]) &&
        !(strategy == 0 && forall i :: 0 <= i < j ==> !rules[i].Resolve?);
      if strategy != 0 {
        StaleAfterStrategy(rules, strategy, j);
        assert Begins(Adversary(rules, {j}), Visitor(strategy), rules, strategy);
      } else {
        var i :| 0 <= i < j && rules[i].Resolve?;
        StaleAfterResolve(rules, i, j);
        assert Begins(Adversary(rules, {i, j}), Visitor(0), rules, strategy);
      }
    }
  }

  /** Concretely: rules [resolve, sniff with override] and a connection to "a" that is sniffed as "b" end with the
      destination "b" and the addresses of "a". */
  lemma SniffAfterResolveGoesStale(o: ResolveSettings)
    ensures var rules := [Resolve(o), Sniff(true)];
            var r := MatchAll(Adversary(rules, {0, 1}), false, Visitor(0));
            r.NoMatch? && r.metadata.destination == Socksaddr(None, "b", 443) && r.metadata.addresses == [1] &&
            !Fresh(Adversary(rules, {0, 1}), r.metadata)
  {
    StaleAfterResolve([Resolve(o), Sniff(true)], 0, 1);
  }
}
