/** Dialing a list of addresses: serially, and as the two-group race of DialParallelNetwork
    (compare section 5 of RFC 8305, Connection Attempts).

    The race is a transition system over all interleavings of the caller, the two
    racers, the fallback timer and the dialed hosts.  Stopping a timer that has fired but
    has not been received may or may not report success: both readings are steps. */
module DialRace {
  import opened Optional

  datatype Family = Four | FourInSix | Six | NoFamily
  datatype Addr = Addr(family: Family, id: nat)
  datatype Destination = Destination(isIP: bool, addr: Addr, port: nat)
  datatype Target = Target(addr: Addr, port: nat)
  // ----- Serial dialing -----

  datatype DialResult = Connected(target: Target) | AllFailed(errors: seq<nat>) | InvalidUsage | Delegated

  /** What one dial attempt reports: no error, or an error number. */
  type Dialer = Target -> Option<nat>

  function Candidates(destination: Destination, addresses: seq<Addr>): seq<Addr> {
    if addresses == [] && destination.isIP then [destination.addr] else addresses
  }

  /** DialSerialNetwork.  `isNetworkDialer` dialers take the whole list over.  A success is to
      a listed address with the destination port after all earlier ones failed; an error
      means that every address was tried, in order, and carries each one's error. */
  method DialSerial(destination: Destination, addresses: seq<Addr>, isNetworkDialer: bool, dial: Dialer)
    returns (result: DialResult, tried: seq<Target>)
    ensures result.InvalidUsage? <==> addresses == [] && !destination.isIP
    ensures result.Delegated? <==> !result.InvalidUsage? && isNetworkDialer
    ensures result.InvalidUsage? || result.Delegated? ==> tried == []
    ensures |tried| <= |Candidates(destination, addresses)|
    ensures forall i :: 0 <= i < |tried| ==> tried[i] == Target(Candidates(destination, addresses)[i], destination.port)
    ensures result.Connected? ==>
              |tried| > 0 && result.target == tried[|tried| - 1] && dial(result.target).None? &&
              forall i :: 0 <= i < |tried| - 1 ==> dial(tried[i]).Some?
    ensures result.AllFailed? ==>
              |tried| == |Candidates(destination, addresses)| == |result.errors| &&
              forall i :: 0 <= i < |tried| ==> dial(tried[i]) == Some(result.errors[i])
  {
    tried := [];
    var list := addresses;
    if |list| == 0 {
      if !destination.isIP { return InvalidUsage, []; }
      list := [destination.addr];
    }
    if isNetworkDialer { return Delegated, []; }
    var errors := [];
    for i := 0 to |list|
      invariant |tried| == |errors| == i
      invariant forall k :: 0 <= k < i ==>
                tried[k] == Target(list[k], destination.port) && dial(tried[k]) == Some(errors[k])
    {
      var target := Target(list[i], destination.port);
      tried := tried + [target];
      match dial(target) {
        case None => return Connected(target), tried;
        case Some(e) => errors := errors + [e];
      }
    }
    result := AllFailed(errors);
  }

  // ----- The two groups -----

  predicate IsFour(a: Addr) { a.family.Four? || a.family.FourInSix? }
  predicate IsSix(a: Addr) { a.family.Six? }

  function Keep(addresses: seq<Addr>, p: Addr -> bool): (r: seq<Addr>)
    ensures forall a :: a in r <==> a in addresses && p(a)
  {
    if addresses == [] then []
    else if p(addresses[0]) then [addresses[0]] + Keep(addresses[1..], p)
    else Keep(addresses[1..], p)
  }

  datatype Plan = PlanInvalid | PlanSerial(list: seq<Addr>) | PlanRace(config: Config)
  datatype Config = Config(primaries: seq<Addr>, fallbacks: seq<Addr>, port: nat)

  function MakePlan(destination: Destination, addresses: seq<Addr>, preferIPv6: bool): Plan {
    if addresses == [] && !destination.isIP then PlanInvalid
    else
      var list := Candidates(destination, addresses);
      var four, six := Keep(list, IsFour), Keep(list, IsSix);
      if four == [] || six == [] then PlanSerial(list)
      else if preferIPv6 then PlanRace(Config(six, four, destination.port))
      else PlanRace(Config(four, six, destination.port))
  }

  ghost predicate Subsequence(a: seq<Addr>, b: seq<Addr>) {
    a == [] || (b != [] && ((a[0] == b[0] && Subsequence(a[1..], b[1..])) || Subsequence(a, b[1..])))
  }

  lemma {:induction false} KeepInOrder(addresses: seq<Addr>, p: Addr -> bool)
    ensures Subsequence(Keep(addresses, p), addresses)
  {
    if addresses == [] {
    } else {
      KeepInOrder(addresses[1..], p);
      if p(addresses[0]) { assert Keep(addresses, p)[1..] == Keep(addresses[1..], p); }
    }
  }

  lemma {:induction false} KeepCounts(addresses: seq<Addr>)
    ensures multiset(Keep(addresses, IsFour)) + multiset(Keep(addresses, IsSix)) +
            multiset(Keep(addresses, a => !IsFour(a) && !IsSix(a))) == multiset(addresses)
  {
    if addresses == [] {
    } else {
      KeepCounts(addresses[1..]);
      assert addresses == [addresses[0]] + addresses[1..];
    }
  }

  lemma OneAddressNoRace(a: Addr)
    ensures Keep([a], IsFour) == [] || Keep([a], IsSix) == []
  {
    assert [a][1..] == [];
  }

  /** The two groups of a race split the valid addresses, in order, copies and all. */
  lemma GroupsPartition(destination: Destination, addresses: seq<Addr>, preferIPv6: bool)
    requires MakePlan(destination, addresses, preferIPv6).PlanRace?
    ensures var c := MakePlan(destination, addresses, preferIPv6).config;
            && c.primaries != [] && c.fallbacks != []
            && Subsequence(c.primaries, addresses) && Subsequence(c.fallbacks, addresses)
            && (forall a :: a in addresses && !a.family.NoFamily? ==> (a in c.primaries) != (a in c.fallbacks))
            && multiset(c.primaries) + multiset(c.fallbacks) <= multiset(addresses)
            && (forall a :: a in c.primaries ==> (preferIPv6 <==> IsSix(a)))
  {
    var list := Candidates(destination, addresses);
    if addresses == [] {
      OneAddressNoRace(destination.addr);
      assert false;
    }
    KeepInOrder(list, IsFour);
    KeepInOrder(list, IsSix);
    KeepCounts(list);
  }

  // ----- The race -----

  /** `after` is history: the addresses its racer failed on before. */
  datatype Conn = Conn(target: Target, byPrimary: bool, after: seq<Addr>)
  datatype Result = Got(conn: Conn) | Lost(failed: seq<Addr>)

  datatype Racer =
    | Idle
    | Dialing(rest: seq<Addr>, failed: seq<Addr>)
    | Offering(result: Result)      // at the select: deliver, or give up once returned is closed
    | Gone

  datatype Timer = Armed(reset: bool) | Fired | Drained   // reset: re-armed with delay 0

  datatype Caller = Looping | ReturnedConn(conn: Conn) | ReturnedError(failed: seq<Addr>)

  datatype State = State(
    primary: Racer, fallback: Racer, timer: Timer, caller: Caller,
    primaryResult: Option<Result>, fallbackResult: Option<Result>,
    established: set<Conn>, closed: seq<Conn>,
    fallbackStarts: nat, delayExpired: bool)

  datatype Step =
    | DialSucceeds(primary: bool)
    | DialFails(primary: bool)
    | TimerFires
    | CallerTimer
    | CallerReceives(primary: bool, stopDrains: bool)
    | RacerGivesUp(primary: bool)

  function Init(c: Config): State {
    State(Dialing(c.primaries, []), Idle, Armed(false), Looping, None, None, {}, [], 0, false)
  }

  function RacerOf(s: State, primary: bool): Racer { if primary then s.primary else s.fallback }

  function WithRacer(s: State, primary: bool, r: Racer): State {
    if primary then s.(primary := r) else s.(fallback := r)
  }

  predicate Enabled(s: State, step: Step) {
    match step
    case DialSucceeds(p) => RacerOf(s, p).Dialing? && RacerOf(s, p).rest != []
    case DialFails(p) => RacerOf(s, p).Dialing? && RacerOf(s, p).rest != []
    case TimerFires => s.caller.Looping? && s.timer.Armed?
    case CallerTimer => s.caller.Looping? && s.timer.Fired?
    case CallerReceives(p, _) => s.caller.Looping? && RacerOf(s, p).Offering?
    case RacerGivesUp(p) => !s.caller.Looping? && RacerOf(s, p).Offering?
  }

  /** fallbackTimer.Stop() && Reset(0) after a failed primary. */
  function StopAndReset(t: Timer, stopDrains: bool): Timer {
    match t
    case Armed(_) => Armed(true)
    case Fired => if stopDrains then Armed(true) else Fired
    case Drained => Drained
  }

  function Next(c: Config, s: State, step: Step): State
    requires Enabled(s, step)
  {
    match step
    case DialSucceeds(p) =>
      var conn := Conn(Target(RacerOf(s, p).rest[0], c.port), p, RacerOf(s, p).failed);
      WithRacer(s, p, Offering(Got(conn))).(established := s.established + {conn})
    case DialFails(p) =>
      var Dialing(rest, failed) := RacerOf(s, p);
      var failed' := failed + [rest[0]];
      WithRacer(s, p, if |rest| == 1 then Offering(Lost(failed')) else Dialing(rest[1..], failed'))
    case TimerFires => s.(timer := Fired, delayExpired := s.delayExpired || !s.timer.reset)
    case CallerTimer =>
      s.(timer := Drained, fallback := Dialing(c.fallbacks, []), fallbackStarts := s.fallbackStarts + 1)
    case CallerReceives(p, stopDrains) =>
      var result := RacerOf(s, p).result;
      var s1 := WithRacer(s, p, Gone);
      if result.Got? then s1.(caller := ReturnedConn(result.conn))
      else
        var s2 := if p then s1.(primaryResult := Some(result)) else s1.(fallbackResult := Some(result));
        if s2.primaryResult.Some? && s2.fallbackResult.Some? then
          s2.(caller := ReturnedError(if s2.primaryResult.value.Lost? then s2.primaryResult.value.failed else []))
        else if p then s2.(timer := StopAndReset(s.timer, stopDrains))
        else s2
    case RacerGivesUp(p) =>
      var result := RacerOf(s, p).result;
      var s1 := WithRacer(s, p, Gone);
      if result.Got? then s1.(closed := s.closed + [result.conn]) else s1
  }

  // ----- What every step keeps -----

  ghost predicate Offers(r: Racer, conn: Conn) { r.Offering? && r.result == Got(conn) }

  /** Dialed from this list, after every earlier address on it had failed. */
  ghost predicate FirstGood(conn: Conn, list: seq<Addr>, port: nat) {
    conn.target.port == port && conn.after + [conn.target.addr] <= list
  }

  function GroupOf(c: Config, conn: Conn): seq<Addr> { if conn.byPrimary then c.primaries else c.fallbacks }

  /** A racer has failed on a prefix of its list and still has the rest to dial. */
  ghost predicate RacerOk(r: Racer, list: seq<Addr>, port: nat, primary: bool) {
    match r
    case Dialing(rest, failed) => rest != [] && failed + rest == list
    case Offering(Got(conn)) => conn.byPrimary == primary && FirstGood(conn, list, port)
    case Offering(Lost(failed)) => failed == list
    case _ => true
  }

  /** Where an established connection of one racer can be: offered, returned or closed, in one place only. */
  ghost predicate Held(s: State, conn: Conn) {
    Offers(RacerOf(s, conn.byPrimary), conn) || s.caller == ReturnedConn(conn) || conn in s.closed
  }

  ghost predicate Conserved(s: State) {
    && (forall conn :: conn in s.established <==> Held(s, conn))
    && (forall conn :: conn in s.established ==>
      RacerOf(s, conn.byPrimary).Offering? || RacerOf(s, conn.byPrimary).Gone?)
    && (forall conn :: conn in s.closed ==> RacerOf(s, conn.byPrimary).Gone? && s.caller != ReturnedConn(conn))
    && (s.caller.ReturnedConn? ==> RacerOf(s, s.caller.conn.byPrimary).Gone?)
    && (forall x, y :: x in s.established && y in s.established && x.byPrimary == y.byPrimary ==> x == y)
    && (forall i, j :: 0 <= i < j < |s.closed| ==> s.closed[i] != s.closed[j])
    && (s.caller.Looping? ==> s.closed == [])
  }

  ghost predicate Progress(c: Config, s: State) {
    && RacerOk(s.primary, c.primaries, c.port, true) && RacerOk(s.fallback, c.fallbacks, c.port, false)
    && !s.primary.Idle?
    && (s.timer.Drained? <==> !s.fallback.Idle?)
    && s.fallbackStarts == (if s.timer.Drained? then 1 else 0)
    && (s.primaryResult.Some? ==> s.primary.Gone? && s.primaryResult == Some(Lost(c.primaries)))
    && (s.fallbackResult.Some? ==> s.fallback.Gone? && s.fallbackResult == Some(Lost(c.fallbacks)))
    && (s.timer.Armed? && s.timer.reset ==> s.primaryResult.Some?)
    && (s.timer.Armed? && !s.timer.reset && s.caller.Looping? ==> s.primaryResult.None?)
    && (!s.timer.Armed? && !s.delayExpired ==> s.primaryResult.Some?)
    && (s.caller.Looping? && s.primary.Gone? ==> s.primaryResult.Some?)
    && (s.caller.Looping? && s.fallback.Gone? ==> s.fallbackResult.Some?)
    && (s.caller.Looping? ==> s.primaryResult.None? || s.fallbackResult.None?)
    && (s.caller.ReturnedError? ==>
          s.primaryResult.Some? && s.fallbackResult.Some? && s.caller.failed == c.primaries && s.established == {})
    && (s.caller.ReturnedConn? ==> FirstGood(s.caller.conn, GroupOf(c, s.caller.conn), c.port))
    && (s.primaryResult.Some? ==> forall conn :: conn in s.established ==> !conn.byPrimary)
    && (s.fallbackResult.Some? ==> forall conn :: conn in s.established ==> conn.byPrimary)
  }

  ghost predicate Inv(c: Config, s: State) { Conserved(s) && Progress(c, s) }

  lemma InitInv(c: Config)
    requires c.primaries != [] && c.fallbacks != []
    ensures Inv(c, Init(c))
  {
  }

  lemma DialFailsKeeps(c: Config, s: State, step: Step)
    requires Inv(c, s) && Enabled(s, step) && step.DialFails?
    ensures Inv(c, Next(c, s, step))
  {
    var s' := Next(c, s, step);
    var Dialing(rest, failed) := RacerOf(s, step.primary);
    assert (failed + [rest[0]]) + rest[1..] == failed + rest;
    if |rest| == 1 { assert failed + [rest[0]] == failed + rest; }
    assert forall conn :: Held(s', conn) <==> Held(s, conn);
    assert Conserved(s');
  }

  lemma DialSucceedsKeeps(c: Config, s: State, step: Step)
    requires Inv(c, s) && Enabled(s, step) && step.DialSucceeds?
    ensures Inv(c, Next(c, s, step))
  {
    var s' := Next(c, s, step);
    var Dialing(rest, failed) := RacerOf(s, step.primary);
    var made := Conn(Target(rest[0], c.port), step.primary, failed);
    assert FirstGood(made, failed + rest, c.port);
    assert forall conn :: conn in s.established ==> conn.byPrimary != step.primary;
    assert forall conn :: Held(s', conn) <==> Held(s, conn) || conn == made;
    assert Conserved(s');
  }

  lemma TimerKeeps(c: Config, s: State, step: Step)
    requires c.primaries != [] && c.fallbacks != []
    requires Inv(c, s) && Enabled(s, step) && (step.TimerFires? || step.CallerTimer?)
    ensures Inv(c, Next(c, s, step))
  {
  }

  lemma ReceiveKeeps(c: Config, s: State, step: Step)
    requires Inv(c, s) && Enabled(s, step) && step.CallerReceives?
    ensures Inv(c, Next(c, s, step))
  {
    var s' := Next(c, s, step);
    var result := RacerOf(s, step.primary).result;
    assert forall conn :: Held(s', conn) <==> Held(s, conn);
    if result.Lost? {
      assert forall conn :: conn in s.established ==> conn.byPrimary != step.primary;
    }
    assert Conserved(s');
  }

  lemma GiveUpKeeps(c: Config, s: State, step: Step)
    requires Inv(c, s) && Enabled(s, step) && step.RacerGivesUp?
    ensures Inv(c, Next(c, s, step))
  {
    var s' := Next(c, s, step);
    var result := RacerOf(s, step.primary).result;
    if result.Got? {
      assert s'.closed[|s.closed|] == result.conn;
      assert forall conn :: conn in s'.closed <==> conn in s.closed || conn == result.conn;
    }
    assert forall conn :: Held(s', conn) <==> Held(s, conn);
  }

  lemma StepKeeps(c: Config, s: State, step: Step)
    requires c.primaries != [] && c.fallbacks != []
    requires Inv(c, s) && Enabled(s, step)
    ensures Inv(c, Next(c, s, step))
  {
    match step
    case DialSucceeds(_) => DialSucceedsKeeps(c, s, step);
    case DialFails(_) => DialFailsKeeps(c, s, step);
    case TimerFires => TimerKeeps(c, s, step);
    case CallerTimer => TimerKeeps(c, s, step);
    case CallerReceives(_, _) => ReceiveKeeps(c, s, step);
    case RacerGivesUp(_) => GiveUpKeeps(c, s, step);
  }

  // ----- Every run -----

  /** The state after a sequence of steps, None when some step was not enabled. */
  function Run(c: Config, steps: seq<Step>): Option<State> {
    if steps == [] then Some(Init(c))
    else
      var before := Run(c, steps[..|steps| - 1]);
      var last := steps[|steps| - 1];
      if before.Some? && Enabled(before.value, last) then Some(Next(c, before.value, last)) else None
  }

  lemma {:induction false} RunKeeps(c: Config, steps: seq<Step>)
    requires c.primaries != [] && c.fallbacks != [] && Run(c, steps).Some?
    ensures Inv(c, Run(c, steps).value)
  {
    if steps == [] {
      InitInv(c);
    } else {
      var front := steps[..|steps| - 1];
      RunKeeps(c, front);
      StepKeeps(c, Run(c, front).value, steps[|steps| - 1]);
    }
  }

  function RacerWork(r: Racer, list: seq<Addr>): nat {
    match r
    case Idle => |list| + 3
    case Dialing(rest, _) => |rest| + 2
    case Offering(_) => 1
    case Gone => 0
  }

  function TimerWork(t: Timer, primaryFailed: bool): nat {
    match t
    case Armed(_) => if primaryFailed then 2 else 4
    case Fired => if primaryFailed then 1 else 3
    case Drained => 0
  }

  function Work(c: Config, s: State): nat {
    2 * RacerWork(s.primary, c.primaries) + 2 * RacerWork(s.fallback, c.fallbacks) +
    (if s.caller.Looping? then TimerWork(s.timer, s.primary.Gone?) + 1 else 0)
  }

  lemma StepShrinks(c: Config, s: State, step: Step)
    requires Inv(c, s) && Enabled(s, step)
    ensures Work(c, Next(c, s, step)) < Work(c, s)
  {
  }

  /** Every run is finite: its length is bounded by the number of addresses. */
  lemma {:induction false} RunIsShort(c: Config, steps: seq<Step>)
    requires c.primaries != [] && c.fallbacks != [] && Run(c, steps).Some?
    ensures |steps| + Work(c, Run(c, steps).value) <= 2 * |c.primaries| + 2 * |c.fallbacks| + 15
  {
    if steps == [] {
    } else {
      var front := steps[..|steps| - 1];
      RunIsShort(c, front);
      RunKeeps(c, front);
      StepShrinks(c, Run(c, front).value, steps[|steps| - 1]);
    }
  }

  /** At each loop head the primary is still working, the timer is armed or pending, or the
      fallback is working, so the caller never waits for nothing. */
  lemma LoopHead(c: Config, steps: seq<Step>)
    requires c.primaries != [] && c.fallbacks != [] && Run(c, steps).Some? && Run(c, steps).value.caller.Looping?
    ensures var s := Run(c, steps).value;
            (s.primary.Dialing? || s.primary.Offering? || s.timer.Armed? || s.timer.Fired? ||
             s.fallback.Dialing? || s.fallback.Offering?) && exists step :: Enabled(s, step)
  {
    RunKeeps(c, steps);
    var s := Run(c, steps).value;
    var step := if s.primary.Dialing? then DialFails(true)
                else if s.primary.Offering? then CallerReceives(true, false)
                else if s.timer.Armed? then TimerFires
                else if s.timer.Fired? then CallerTimer
                else if s.fallback.Dialing? then DialFails(false)
                else CallerReceives(false, false);
    assert Enabled(s, step);
  }

  /** The fallback starts at most once and, before the delay has expired, only after the
      primary's failure was received. */
  lemma FallbackDiscipline(c: Config, steps: seq<Step>)
    requires c.primaries != [] && c.fallbacks != [] && Run(c, steps).Some?
    ensures var s := Run(c, steps).value;
            s.fallbackStarts <= 1 &&
              (s.fallbackStarts == 1 && !s.delayExpired ==> s.primaryResult == Some(Lost(c.primaries)))
  {
    RunKeeps(c, steps);
  }

  /** An error is returned only after every address of both groups was dialed and failed,
      it is the primary group's error, and no connection was ever established. */
  lemma ErrorMeansAllFailed(c: Config, steps: seq<Step>)
    requires c.primaries != [] && c.fallbacks != [] && Run(c, steps).Some? && Run(c, steps).value.caller.ReturnedError?
    ensures var s := Run(c, steps).value;
            s.primaryResult == Some(Lost(c.primaries)) && s.fallbackResult == Some(Lost(c.fallbacks)) &&
            s.caller.failed == c.primaries && s.established == {}
  {
    RunKeeps(c, steps);
  }

  /** When nothing more can happen the caller has returned, and every established
      connection is the returned one or has been closed, exactly once.  The returned one is to
      the first address of its group that did not fail, at the destination's port. */
  lemma NothingLeaks(c: Config, steps: seq<Step>)
    requires c.primaries != [] && c.fallbacks != [] && Run(c, steps).Some?
    requires forall step :: !Enabled(Run(c, steps).value, step)
    ensures var s := Run(c, steps).value;
            && !s.caller.Looping?
            && (forall conn :: conn in s.established <==> (s.caller == ReturnedConn(conn)) != (conn in s.closed))
            && (forall i, j :: 0 <= i < j < |s.closed| ==> s.closed[i] != s.closed[j])
            && (s.caller.ReturnedConn? ==> s.caller.conn in s.established)
            && (s.caller.ReturnedConn? ==> FirstGood(s.caller.conn, GroupOf(c, s.caller.conn), c.port))
  {
    RunKeeps(c, steps);
    var s := Run(c, steps).value;
    if s.caller.Looping? { LoopHead(c, steps); }
    assert !Enabled(s, RacerGivesUp(true)) && !Enabled(s, RacerGivesUp(false));
    forall conn | conn in s.established ensures !Offers(RacerOf(s, conn.byPrimary), conn) {}
  }

  ghost predicate FailedOn(result: Option<Result>, a: Addr) {
    result.Some? && result.value.Lost? && a in result.value.failed
  }

  /** An error from a race planned for a list means that every valid address on it failed. */
  lemma RaceErrorCoversTheList(
    destination: Destination, addresses: seq<Addr>, preferIPv6: bool, steps: seq<Step>, a: Addr)
    requires MakePlan(destination, addresses, preferIPv6).PlanRace? && a in addresses && !a.family.NoFamily?
    requires var r := Run(MakePlan(destination, addresses, preferIPv6).config, steps);
             r.Some? && r.value.caller.ReturnedError?
    ensures var s := Run(MakePlan(destination, addresses, preferIPv6).config, steps).value;
            FailedOn(s.primaryResult, a) || FailedOn(s.fallbackResult, a)
  {
    GroupsPartition(destination, addresses, preferIPv6);
    ErrorMeansAllFailed(MakePlan(destination, addresses, preferIPv6).config, steps);
  }

  /** A success from a race planned for a list is to a listed address of the family of its group, at the
      destination's port, after every earlier address of that group failed. */
  lemma RaceSuccessIsListed(destination: Destination, addresses: seq<Addr>, preferIPv6: bool, steps: seq<Step>)
    requires MakePlan(destination, addresses, preferIPv6).PlanRace?
    requires var r := Run(MakePlan(destination, addresses, preferIPv6).config, steps);
             r.Some? && r.value.caller.ReturnedConn?
    ensures var c := MakePlan(destination, addresses, preferIPv6).config;
            var conn := Run(c, steps).value.caller.conn;
            && conn.target.addr in addresses && conn.target.port == destination.port
            && (conn.byPrimary ==> (preferIPv6 <==> IsSix(conn.target.addr)))
            && conn.after + [conn.target.addr] <= Keep(addresses, if IsSix(conn.target.addr) then IsSix else IsFour)
  {
    var c := MakePlan(destination, addresses, preferIPv6).config;
    GroupsPartition(destination, addresses, preferIPv6);
    RunKeeps(c, steps);
    var conn := Run(c, steps).value.caller.conn;
    var group := GroupOf(c, conn);
    assert group[|conn.after|] == conn.target.addr;
    assert conn.target.addr in group;
  }
}
