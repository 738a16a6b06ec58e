/** The life of a routed connection: dialing, reporting the handshake, registration, copying, shutdown.

    Two goroutines copy the two directions and meet at one atomic flag `done`.  For
    streams the second finisher runs the close handler, for packets the first.  Both are
    modelled as transition systems over all interleavings; every dial, report, read, write, handshake
    and half-close may fail at any time.  Once a connection is registered, the close handler also takes
    it out of the manager's list, so it is logged together with that removal. */
module ConnShutdown {
  import opened Optional

  datatype End = Local | Remote

  /** Direction false copies Local to Remote, direction true Remote to Local. */
  function Destination(direction: bool): End { if direction then Local else Remote }

  // ----- Streams -----

  datatype Pc =
    | Copying
    | EarlyFailed(error: nat)            // cached payload or early handshake failed
    | EarlySecond(error: nat)            // the swap returned true on that path
    | EarlyClosing
    | Copied(result: Option<nat>)        // CopyWithCounters returned
    | Settled(result: Option<nat>)       // closed or half-closed, before the swap
    | Second(result: Option<nat>)        // the swap returned true
    | SecondClosing
    | Finished

  datatype Stream = Stream(
    up: Pc, down: Pc, done: bool,
    closed: set<End>, writeClosed: set<End>,
    onCloses: seq<Option<nat>>, registered: bool, removals: nat,
    second: Option<bool>,                // history: whose swap returned true
    clean: set<bool>,                    // history: directions that ended with a successful half-close
    results: map<bool, Option<nat>>)     // history: how the directions ended

  datatype Step =
    | EarlyFails(direction: bool, error: nat)
    | CopyEnds(direction: bool, result: Option<nat>)
    | Advance(direction: bool, closeWrite: Option<nat>)

  const BOTH := {Local, Remote}

  function StreamInit(): Stream {
    Stream(Copying, Copying, false, {}, {}, [], true, 0, None, {}, map[])
  }

  function At(s: Stream, d: bool): Pc { if d then s.down else s.up }
  function Put(s: Stream, d: bool, pc: Pc): Stream { if d then s.(down := pc) else s.(up := pc) }

  /** A direction has ended with this result. */
  function Settle(s: Stream, d: bool, pc: Pc, result: Option<nat>): Stream {
    Put(s, d, pc).(results := s.results[d := result])
  }

  predicate Enabled(s: Stream, step: Step) {
    match step
    case EarlyFails(d, _) => At(s, d).Copying?
    case CopyEnds(d, _) => At(s, d).Copying?
    case Advance(d, _) => !At(s, d).Copying? && !At(s, d).Finished?
  }

  function RunOnClose(s: Stream, result: Option<nat>): Stream {
    s.(onCloses := s.onCloses + [result], registered := false, removals := s.removals + (if s.registered then 1 else 0))
  }

  /** done.Swap(true), continuing at `late` when it was already set and at `soon` otherwise. */
  function Swap(s: Stream, d: bool, late: Pc, soon: Pc): Stream {
    if s.done then Put(s, d, late).(second := Some(d)) else Put(s, d, soon).(done := true)
  }

  function Next(s: Stream, duplex: End -> bool, step: Step): Stream
    requires Enabled(s, step)
  {
    match step
    case EarlyFails(d, e) => Settle(s, d, EarlyFailed(e), Some(e))
    case CopyEnds(d, r) => Put(s, d, Copied(r))
    case Advance(d, closeWrite) =>
      match At(s, d)
      case EarlyFailed(e) => Swap(s, d, EarlySecond(e), EarlyClosing)
      case EarlySecond(e) => RunOnClose(Put(s, d, EarlyClosing), Some(e))
      case EarlyClosing => Put(s, d, Finished).(closed := BOTH)
      case Copied(Some(e)) => Settle(s, d, Settled(Some(e)), Some(e)).(closed := BOTH)
      case Copied(None) =>
        if duplex(Destination(d)) then
          if closeWrite.None? then
            Settle(s, d, Settled(None), None).(writeClosed := s.writeClosed + {Destination(d)}, clean := s.clean + {d})
          else Settle(s, d, Settled(closeWrite), closeWrite).(closed := BOTH)
        else Settle(s, d, Settled(None), None).(closed := s.closed + {Destination(d)})
      case Settled(r) => Swap(s, d, Second(r), Finished)
      case Second(r) => RunOnClose(Put(s, d, SecondClosing), r)
      case SecondClosing => Put(s, d, Finished).(closed := BOTH)
      case _ => s
  }

  predicate PastSwap(pc: Pc) {
    pc.EarlySecond? || pc.EarlyClosing? || pc.Second? || pc.SecondClosing? || pc.Finished?
  }

  predicate PastOnClose(pc: Pc) { pc.EarlyClosing? || pc.SecondClosing? || pc.Finished? }

  /** A direction that has acted on its ends other than by a successful half-close. */
  predicate Dirty(s: Stream, d: bool) {
    d !in s.clean && (At(s, d).Settled? || At(s, d).Second? || At(s, d).SecondClosing? || At(s, d).Finished?)
  }

  /** The flag, the close handler and the list. */
  ghost predicate FlagInv(s: Stream) { SwapInv(s) && HandlerInv(s) }

  ghost predicate SwapInv(s: Stream) {
    && (s.done <==> PastSwap(s.up) || PastSwap(s.down))
    && (s.second.Some? <==> PastSwap(s.up) && PastSwap(s.down))
    && OnlySecond(s, false) && OnlySecond(s, true)
  }

  ghost predicate HandlerInv(s: Stream) {
    && |s.onCloses| == (if s.second.Some? && PastOnClose(At(s, s.second.value)) then 1 else 0)
    && s.registered == (s.onCloses == []) && s.removals == |s.onCloses|
  }

  ghost predicate OnlySecond(s: Stream, d: bool) {
    IsSecond(At(s, d)) ==> s.second == Some(d)
  }

  /** The ends: a closed end was closed by a dirty direction or by the second finisher. */
  ghost predicate EndInv(s: Stream) {
    ClosedBySecond(s) && ClosedByDirty(s) && CleanOk(s, false) && CleanOk(s, true)
  }

  ghost predicate ClosedBySecond(s: Stream) {
    s.second.Some? && At(s, s.second.value).Finished? ==> s.closed == BOTH
  }

  ghost predicate ClosedByDirty(s: Stream) {
    s.closed != {} ==> s.second.Some? || Dirty(s, false) || Dirty(s, true)
  }

  ghost predicate CleanOk(s: Stream, d: bool) {
    d in s.clean ==> (At(s, d).Settled? || PastSwap(At(s, d))) && Destination(d) in s.writeClosed &&
                     !At(s, d).EarlySecond? && !At(s, d).EarlyClosing?
  }

  /** The handler is given the second finisher's result. */
  ghost predicate ResultInv(s: Stream) {
    && ResultOk(s, false) && ResultOk(s, true)
    && (s.onCloses != [] ==> HandledSecond(s))
  }

  ghost predicate HandledSecond(s: Stream) {
    s.second.Some? && s.second.value in s.results && s.onCloses == [s.results[s.second.value]]
  }

  ghost predicate ResultOk(s: Stream, d: bool) {
    match At(s, d)
    case EarlyFailed(e) => d in s.results && s.results[d] == Some(e)
    case EarlySecond(e) => d in s.results && s.results[d] == Some(e)
    case Settled(r) => d in s.results && s.results[d] == r
    case Second(r) => d in s.results && s.results[d] == r
    case _ => true
  }

  ghost predicate Inv(s: Stream) { FlagInv(s) && EndInv(s) && ResultInv(s) }

  /** The other direction stays where it is. */
  lemma OtherStays(s: Stream, duplex: End -> bool, step: Step)
    requires Enabled(s, step)
    ensures var d, s' := !step.direction, Next(s, duplex, step);
            && At(s', d) == At(s, d) && (d in s'.clean ==> d in s.clean) && s.writeClosed <= s'.writeClosed
            && (d in s.results ==> d in s'.results && s'.results[d] == s.results[d])
  {
    OtherStaysAt(s, duplex, step);
    OtherHistoryStays(s, duplex, step);
  }

  lemma OtherStaysAt(s: Stream, duplex: End -> bool, step: Step)
    requires Enabled(s, step)
    ensures At(Next(s, duplex, step), !step.direction) == At(s, !step.direction)
  {
  }

  lemma OtherHistoryStays(s: Stream, duplex: End -> bool, step: Step)
    requires Enabled(s, step)
    ensures var d, s' := !step.direction, Next(s, duplex, step);
            && (d in s'.clean ==> d in s.clean) && s.writeClosed <= s'.writeClosed
            && (d in s.results ==> d in s'.results && s'.results[d] == s.results[d])
  {
    if (!step.direction) in Next(s, duplex, step).clean { NextClean(s, duplex, step); }
    forall end | end in s.writeClosed
      ensures end in Next(s, duplex, step).writeClosed
    {
      NextWriteClosed(s, duplex, step, end);
    }
    NextResults(s, duplex, step);
  }

  /** A step adds at most its own direction's entries to the histories. */
  lemma NextClean(s: Stream, duplex: End -> bool, step: Step)
    requires Enabled(s, step) && (!step.direction) in Next(s, duplex, step).clean
    ensures (!step.direction) in s.clean
  {
  }

  lemma NextWriteClosed(s: Stream, duplex: End -> bool, step: Step, end: End)
    requires Enabled(s, step) && end in s.writeClosed
    ensures end in Next(s, duplex, step).writeClosed
  {
  }

  lemma NextResults(s: Stream, duplex: End -> bool, step: Step)
    requires Enabled(s, step)
    ensures var d, s' := step.direction, Next(s, duplex, step);
            s'.results == s.results || (d in s'.results && s'.results == s.results[d := s'.results[d]])
  {
  }

  lemma FlagKeeps(s: Stream, duplex: End -> bool, step: Step)
    requires FlagInv(s) && Enabled(s, step)
    ensures FlagInv(Next(s, duplex, step))
  {
    SwapKeeps(s, duplex, step);
    HandlerKeeps(s, duplex, step);
  }

  lemma SwapKeeps(s: Stream, duplex: End -> bool, step: Step)
    requires SwapInv(s) && Enabled(s, step)
    ensures SwapInv(Next(s, duplex, step))
  {
    var d, s' := step.direction, Next(s, duplex, step);
    OtherStaysAt(s, duplex, step);
    MoverSwaps(s, duplex, step);
    if IsSecond(At(s', d)) { MoverBecomesSecond(s, duplex, step); }
    assert s.up == At(s, false) && s.down == At(s, true) && s'.up == At(s', false) && s'.down == At(s', true);
  }

  /** The mover passes the flag exactly when it sets `done` or becomes the second. */
  lemma MoverSwaps(s: Stream, duplex: End -> bool, step: Step)
    requires Enabled(s, step)
    ensures var d, s' := step.direction, Next(s, duplex, step);
            && (PastSwap(At(s, d)) ==> PastSwap(At(s', d)) && s'.done == s.done && s'.second == s.second)
            && (!PastSwap(At(s, d)) && !PastSwap(At(s', d)) ==> s'.done == s.done && s'.second == s.second)
            && (!PastSwap(At(s, d)) && PastSwap(At(s', d)) ==>
                  s'.done && s'.second == (if s.done then Some(d) else s.second))
  {
  }

  lemma MoverBecomesSecond(s: Stream, duplex: End -> bool, step: Step)
    requires Enabled(s, step) && IsSecond(At(Next(s, duplex, step), step.direction))
    ensures IsSecond(At(s, step.direction)) || Next(s, duplex, step).second == Some(step.direction)
  {
  }

  predicate IsSecond(pc: Pc) { pc.EarlySecond? || pc.Second? || pc.SecondClosing? }

  lemma HandlerKeeps(s: Stream, duplex: End -> bool, step: Step)
    requires FlagInv(s) && Enabled(s, step)
    ensures HandlerInv(Next(s, duplex, step))
  {
  }

  lemma ClosedBySecondKeeps(s: Stream, duplex: End -> bool, step: Step)
    requires FlagInv(s) && ClosedBySecond(s) && Enabled(s, step)
    ensures ClosedBySecond(Next(s, duplex, step))
  {
  }

  lemma ClosedByDirtyKeeps(s: Stream, duplex: End -> bool, step: Step)
    requires FlagInv(s) && ClosedByDirty(s) && CleanOk(s, step.direction) && Enabled(s, step)
    ensures ClosedByDirty(Next(s, duplex, step))
  {
    OtherStays(s, duplex, step);
    DirtyStays(s, duplex, step);
  }

  /** A step that closes an end makes its direction dirty or is taken by the second finisher. */
  lemma DirtyStays(s: Stream, duplex: End -> bool, step: Step)
    requires FlagInv(s) && CleanOk(s, step.direction) && Enabled(s, step)
    ensures var d, s' := step.direction, Next(s, duplex, step);
            && (Dirty(s, d) ==> Dirty(s', d)) && (s.second.Some? ==> s'.second.Some?)
            && (s'.closed != s.closed ==> Dirty(s', d) || s'.second.Some?)
  {
  }

  lemma CleanKeeps(s: Stream, duplex: End -> bool, step: Step, d: bool)
    requires CleanOk(s, d) && Enabled(s, step)
    ensures CleanOk(Next(s, duplex, step), d)
  {
    if d == step.direction { MoverClean(s, duplex, step); } else { OtherStays(s, duplex, step); }
  }

  lemma MoverClean(s: Stream, duplex: End -> bool, step: Step)
    requires CleanOk(s, step.direction) && Enabled(s, step)
    ensures CleanOk(Next(s, duplex, step), step.direction)
  {
  }

  lemma ResultKeeps(s: Stream, duplex: End -> bool, step: Step)
    requires FlagInv(s) && ResultInv(s) && Enabled(s, step)
    ensures ResultInv(Next(s, duplex, step))
  {
    ResultOfMover(s, duplex, step);
    ResultOfOther(s, duplex, step);
    ResultsHandled(s, duplex, step);
  }

  lemma ResultOfMover(s: Stream, duplex: End -> bool, step: Step)
    requires ResultOk(s, step.direction) && Enabled(s, step)
    ensures ResultOk(Next(s, duplex, step), step.direction)
  {
  }

  lemma ResultOfOther(s: Stream, duplex: End -> bool, step: Step)
    requires ResultOk(s, !step.direction) && Enabled(s, step)
    ensures ResultOk(Next(s, duplex, step), !step.direction)
  {
    OtherStays(s, duplex, step);
  }

  lemma ResultsHandled(s: Stream, duplex: End -> bool, step: Step)
    requires FlagInv(s) && ResultInv(s) && Enabled(s, step)
    ensures var s' := Next(s, duplex, step);
            s'.onCloses != [] ==> HandledSecond(s')
  {
  }

  lemma StepKeeps(s: Stream, duplex: End -> bool, step: Step)
    requires Inv(s) && Enabled(s, step)
    ensures Inv(Next(s, duplex, step))
  {
    FlagKeeps(s, duplex, step);
    ResultKeeps(s, duplex, step);
    ClosedBySecondKeeps(s, duplex, step);
    ClosedByDirtyKeeps(s, duplex, step);
    CleanKeeps(s, duplex, step, false);
    CleanKeeps(s, duplex, step, true);
  }

  function PcWork(pc: Pc): nat {
    match pc
    case Copying => 5
    case Copied(_) => 4
    case EarlyFailed(_) => 3
    case Settled(_) => 3
    case EarlySecond(_) => 2
    case Second(_) => 2
    case EarlyClosing => 1
    case SecondClosing => 1
    case Finished => 0
  }

  lemma StepShrinks(s: Stream, duplex: End -> bool, step: Step)
    requires Enabled(s, step)
    ensures var s' := Next(s, duplex, step); PcWork(s'.up) + PcWork(s'.down) < PcWork(s.up) + PcWork(s.down)
  {
    OtherStays(s, duplex, step);
    MoverShrinks(s, duplex, step);
    WorkIsSum(s, step.direction);
    WorkIsSum(Next(s, duplex, step), step.direction);
  }

  lemma MoverShrinks(s: Stream, duplex: End -> bool, step: Step)
    requires Enabled(s, step)
    ensures PcWork(At(Next(s, duplex, step), step.direction)) < PcWork(At(s, step.direction))
  {
  }

  lemma WorkIsSum(s: Stream, d: bool)
    ensures PcWork(s.up) + PcWork(s.down) == PcWork(At(s, d)) + PcWork(At(s, !d))
  {
  }

  lemma QuietMeansFinished(s: Stream)
    ensures (forall step :: !Enabled(s, step)) ==> s.up.Finished? && s.down.Finished?
  {
    assert forall d :: Enabled(s, EarlyFails(d, 0)) || Enabled(s, Advance(d, None)) || At(s, d).Finished?;
    assert s.up == At(s, false) && s.down == At(s, true);
  }

  // ----- The whole life of a stream -----

  datatype Setup = Dialing | Reporting | Registering | Running | DialFailed | ReportFailed

  /** `ends` are those there are to close so far. */
  datatype Life = Life(setup: Setup, ends: set<End>, registrations: nat, stream: Stream)

  datatype LifeStep =
    | Dial(error: Option<nat>)
    | Report(error: Option<nat>)
    | Register
    | Copy(step: Step)

  function LifeInit(): Life { Life(Dialing, {Local}, 0, StreamInit().(registered := false)) }

  predicate LifeEnabled(l: Life, step: LifeStep) {
    match step
    case Dial(_) => l.setup.Dialing?
    case Report(_) => l.setup.Reporting?
    case Register => l.setup.Registering?
    case Copy(inner) => l.setup.Running? && Enabled(l.stream, inner)
  }

  /** CloseOnHandshakeFailure: the local end is closed and the handler, not yet tied to the list, is run. */
  function Refuse(s: Stream, error: nat): Stream {
    s.(closed := s.closed + {Local}, onCloses := s.onCloses + [Some(error)])
  }

  function LifeNext(l: Life, duplex: End -> bool, step: LifeStep): Life
    requires LifeEnabled(l, step)
  {
    match step
    case Dial(Some(e)) => l.(setup := DialFailed, stream := Refuse(l.stream, e))
    case Dial(None) => l.(setup := Reporting, ends := l.ends + {Remote})
    case Report(Some(e)) =>
      l.(setup := ReportFailed, stream := Refuse(l.stream.(closed := l.stream.closed + {Remote}), e))
    case Report(None) => l.(setup := Registering)
    case Register => l.(setup := Running, registrations := l.registrations + 1, stream := l.stream.(registered := true))
    case Copy(inner) => l.(stream := Next(l.stream, duplex, inner))
  }

  function Run(duplex: End -> bool, steps: seq<LifeStep>): Option<Life> {
    if steps == [] then Some(LifeInit())
    else
      var before := Run(duplex, steps[..|steps| - 1]);
      var last := steps[|steps| - 1];
      if before.Some? && LifeEnabled(before.value, last) then Some(LifeNext(before.value, duplex, last)) else None
  }

  ghost predicate LifeInv(l: Life) {
    var s := l.stream;
    && l.ends == (if l.setup.Dialing? || l.setup.DialFailed? then {Local} else BOTH)
    && l.registrations == (if l.setup.Running? then 1 else 0)
    && match l.setup
       case Running => Inv(s)
       case DialFailed => FailedSetup(s, {Local})
       case ReportFailed => FailedSetup(s, BOTH)
       case _ => s == StreamInit().(registered := false)
  }

  ghost predicate FailedSetup(s: Stream, closed: set<End>) {
    exists e :: s == StreamInit().(registered := false, closed := closed, onCloses := [Some(e)])
  }

  lemma LifeStepKeeps(l: Life, duplex: End -> bool, step: LifeStep)
    requires LifeInv(l) && LifeEnabled(l, step)
    ensures LifeInv(LifeNext(l, duplex, step))
  {
    match step
    case Dial(Some(e)) =>
      assert LifeNext(l, duplex, step).stream ==
        StreamInit().(registered := false, closed := {Local}, onCloses := [Some(e)]);
    case Report(Some(e)) =>
      assert LifeNext(l, duplex, step).stream ==
        StreamInit().(registered := false, closed := BOTH, onCloses := [Some(e)]);
    case Register => assert LifeNext(l, duplex, step).stream == StreamInit();
    case Copy(inner) => StepKeeps(l.stream, duplex, inner);
    case _ =>
  }

  lemma {:induction false} RunKeeps(duplex: End -> bool, steps: seq<LifeStep>)
    requires Run(duplex, steps).Some?
    ensures LifeInv(Run(duplex, steps).value)
  {
    if steps == [] {
    } else {
      RunKeeps(duplex, steps[..|steps| - 1]);
      LifeStepKeeps(Run(duplex, steps[..|steps| - 1]).value, duplex, steps[|steps| - 1]);
    }
  }

  /** In every run, the close handler runs at most once, a copying connection's only after both directions reached
      the flag and with the second finisher's result; the list removal goes with it. */
  lemma OnCloseAtMostOnce(duplex: End -> bool, steps: seq<LifeStep>)
    requires Run(duplex, steps).Some?
    ensures var l := Run(duplex, steps).value;
            var s := l.stream;
            && |s.onCloses| <= 1 && s.removals <= l.registrations && (s.registered <==> s.removals < l.registrations)
            && (l.setup.Running? ==> s.removals == |s.onCloses|)
            && (l.setup.Running? && s.onCloses != [] ==> PastSwap(s.up) && PastSwap(s.down) && HandledSecond(s))
  {
    RunKeeps(duplex, steps);
  }

  /** When both directions are over: exactly one close handler call, exactly one removal, both ends closed. */
  lemma ShutdownComplete(duplex: End -> bool, steps: seq<LifeStep>)
    requires Run(duplex, steps).Some?
    requires var l := Run(duplex, steps).value; l.stream.up.Finished? && l.stream.down.Finished?
    ensures var s := Run(duplex, steps).value.stream;
            |s.onCloses| == 1 && s.removals == 1 && !s.registered && s.closed == BOTH
  {
    RunKeeps(duplex, steps);
  }

  /** A clean half-close alone closes neither end fully: the other direction goes on copying. */
  lemma HalfCloseKeepsBothOpen(duplex: End -> bool, steps: seq<LifeStep>, d: bool)
    requires Run(duplex, steps).Some?
    requires var s := Run(duplex, steps).value.stream; d in s.clean && At(s, !d).Copying?
    ensures var s := Run(duplex, steps).value.stream;
            s.closed == {} && Destination(d) in s.writeClosed && s.onCloses == []
  {
    RunKeeps(duplex, steps);
    var s := Run(duplex, steps).value.stream;
    assert !Dirty(s, d) && !Dirty(s, !d);
  }

  function SetupWork(setup: Setup): nat {
    match setup
    case Dialing => 13
    case Reporting => 12
    case Registering => 11
    case Running => 10
    case _ => 0
  }

  function LifeWork(l: Life): nat {
    if l.setup.Running? then PcWork(l.stream.up) + PcWork(l.stream.down) else SetupWork(l.setup)
  }

  lemma LifeStepShrinks(l: Life, duplex: End -> bool, step: LifeStep)
    requires LifeInv(l) && LifeEnabled(l, step)
    ensures LifeWork(LifeNext(l, duplex, step)) < LifeWork(l)
  {
    if step.Copy? { StepShrinks(l.stream, duplex, step.step); }
  }

  ghost predicate Over(l: Life) { forall step :: !LifeEnabled(l, step) }

  lemma OverMeansFinished(l: Life)
    requires Over(l)
    ensures l.setup.DialFailed? || l.setup.ReportFailed? ||
              (l.setup.Running? && l.stream.up.Finished? && l.stream.down.Finished?)
  {
    assert !LifeEnabled(l, Dial(None)) && !LifeEnabled(l, Report(None)) && !LifeEnabled(l, Register);
    if l.setup.Running? {
      forall step ensures !Enabled(l.stream, step) { assert !LifeEnabled(l, Copy(step)); }
      QuietMeansFinished(l.stream);
    }
  }

  /** Every run has at most thirteen steps, and one that cannot be extended has failed to set up or copied both ways. */
  lemma {:induction false} RunsComplete(duplex: End -> bool, steps: seq<LifeStep>)
    requires Run(duplex, steps).Some?
    ensures var l := Run(duplex, steps).value;
            |steps| + LifeWork(l) <= 13 &&
            (Over(l) ==>
              l.setup.DialFailed? || l.setup.ReportFailed? || (l.stream.up.Finished? && l.stream.down.Finished?))
  {
    if steps == [] {
    } else {
      RunsComplete(duplex, steps[..|steps| - 1]);
      RunKeeps(duplex, steps[..|steps| - 1]);
      LifeStepShrinks(Run(duplex, steps[..|steps| - 1]).value, duplex, steps[|steps| - 1]);
    }
    if Over(Run(duplex, steps).value) { OverMeansFinished(Run(duplex, steps).value); }
  }

  /** Over its whole life, whatever fails, a stream runs its close handler exactly once, closes every end
      that was opened, and is off the list, removed as often as it was registered. */
  lemma StreamCallsOnce(duplex: End -> bool, steps: seq<LifeStep>)
    requires Run(duplex, steps).Some? && Over(Run(duplex, steps).value)
    ensures var l := Run(duplex, steps).value;
            && |l.stream.onCloses| == 1 && l.stream.closed == l.ends
            && !l.stream.registered && l.stream.removals == l.registrations
  {
    RunKeeps(duplex, steps);
    OverMeansFinished(Run(duplex, steps).value);
  }

  // ----- Packets -----

  datatype PacketPc =
    | PCopying
    | PEnded(result: Option<nat>)
    | PFirst(result: Option<nat>)        // the swap returned false: run the close handler
    | PClosing
    | PFinished

  datatype Packet = Packet(
    up: PacketPc, down: PacketPc, done: bool, closed: set<End>,
    onCloses: seq<Option<nat>>, registered: bool, removals: nat,
    first: Option<bool>,                 // history: whose swap returned false
    results: map<bool, Option<nat>>)     // history: how the directions ended

  datatype PacketStep = PCopyEnds(direction: bool, result: Option<nat>) | PAdvance(direction: bool)

  function PacketInit(): Packet { Packet(PCopying, PCopying, false, {}, [], true, 0, None, map[]) }

  function PAt(s: Packet, d: bool): PacketPc { if d then s.down else s.up }
  function PPut(s: Packet, d: bool, pc: PacketPc): Packet { if d then s.(down := pc) else s.(up := pc) }

  predicate PEnabled(s: Packet, step: PacketStep) {
    match step
    case PCopyEnds(d, _) => PAt(s, d).PCopying?
    case PAdvance(d) => !PAt(s, d).PCopying? && !PAt(s, d).PFinished?
  }

  function PNext(s: Packet, step: PacketStep): Packet
    requires PEnabled(s, step)
  {
    match step
    case PCopyEnds(d, r) => PPut(s, d, PEnded(r)).(results := s.results[d := r])
    case PAdvance(d) =>
      match PAt(s, d)
      case PEnded(r) => if s.done then PPut(s, d, PClosing) else PPut(s, d, PFirst(r)).(done := true, first := Some(d))
      case PFirst(r) =>
        PPut(s, d, PClosing).(onCloses := s.onCloses + [r], registered := false,
                              removals := s.removals + (if s.registered then 1 else 0))
      case PClosing => PPut(s, d, PFinished).(closed := BOTH)
      case _ => s
  }

  /** The first finisher is past its handler call. */
  predicate FirstIsPast(s: Packet) {
    s.first.Some? && (PAt(s, s.first.value).PClosing? || PAt(s, s.first.value).PFinished?)
  }

  ghost predicate PResultOk(s: Packet, d: bool) {
    && (!PAt(s, d).PCopying? ==> d in s.results)
    && (PAt(s, d).PEnded? || PAt(s, d).PFirst? ==> s.results[d] == PAt(s, d).result)
  }

  ghost predicate PInv(s: Packet) {
    && (s.done <==> s.first.Some?)
    && (forall d :: PAt(s, d).PFirst? ==> s.first == Some(d))
    && (forall d :: PAt(s, d).PClosing? || PAt(s, d).PFinished? ==> s.done)
    && (s.first.Some? ==> !PAt(s, s.first.value).PCopying? && !PAt(s, s.first.value).PEnded?)
    && PResultOk(s, false) && PResultOk(s, true)
    && (if FirstIsPast(s) then s.first.value in s.results && s.onCloses == [s.results[s.first.value]]
        else s.onCloses == [])
    && s.registered == (s.onCloses == []) && s.removals == |s.onCloses|
    && (s.up.PFinished? || s.down.PFinished? ==> s.closed == BOTH)
    && (!s.up.PFinished? && !s.down.PFinished? ==> s.closed == {})
  }

  lemma PStepKeeps(s: Packet, step: PacketStep)
    requires PInv(s) && PEnabled(s, step)
    ensures PInv(PNext(s, step))
  {
    assert PAt(PNext(s, step), !step.direction) == PAt(s, !step.direction);
  }

  // ----- The whole life of a packet connection -----

  datatype PacketLife = PacketLife(setup: Setup, ends: set<End>, registrations: nat, packet: Packet)

  datatype PacketLifeStep =
    | PDial(error: Option<nat>)
    | PReport(error: Option<nat>)
    | PRegister
    | PCopy(step: PacketStep)

  function PLifeInit(): PacketLife { PacketLife(Dialing, {Local}, 0, PacketInit().(registered := false)) }

  predicate PLifeEnabled(l: PacketLife, step: PacketLifeStep) {
    match step
    case PDial(_) => l.setup.Dialing?
    case PReport(_) => l.setup.Reporting?
    case PRegister => l.setup.Registering?
    case PCopy(inner) => l.setup.Running? && PEnabled(l.packet, inner)
  }

  /** A failed dial goes through CloseOnHandshakeFailure; a failed report closes both ends and returns. */
  function PLifeNext(l: PacketLife, step: PacketLifeStep): PacketLife
    requires PLifeEnabled(l, step)
  {
    match step
    case PDial(Some(e)) =>
      l.(setup := DialFailed,
         packet := l.packet.(closed := l.packet.closed + {Local}, onCloses := l.packet.onCloses + [Some(e)]))
    case PDial(None) => l.(setup := Reporting, ends := l.ends + {Remote})
    case PReport(Some(_)) => l.(setup := ReportFailed, packet := l.packet.(closed := l.packet.closed + {Local, Remote}))
    case PReport(None) => l.(setup := Registering)
    case PRegister =>
      l.(setup := Running, registrations := l.registrations + 1, packet := l.packet.(registered := true))
    case PCopy(inner) => l.(packet := PNext(l.packet, inner))
  }

  function PRun(steps: seq<PacketLifeStep>): Option<PacketLife> {
    if steps == [] then Some(PLifeInit())
    else
      var before := PRun(steps[..|steps| - 1]);
      var last := steps[|steps| - 1];
      if before.Some? && PLifeEnabled(before.value, last) then Some(PLifeNext(before.value, last)) else None
  }

  ghost predicate PLifeInv(l: PacketLife) {
    var s := l.packet;
    && l.ends == (if l.setup.Dialing? || l.setup.DialFailed? then {Local} else BOTH)
    && l.registrations == (if l.setup.Running? then 1 else 0)
    && match l.setup
       case Running => PInv(s)
       case DialFailed => s.closed == {Local} && |s.onCloses| == 1 && !s.registered && s.removals == 0
       case ReportFailed => s == PacketInit().(registered := false, closed := BOTH)
       case _ => s == PacketInit().(registered := false)
  }

  lemma PLifeStepKeeps(l: PacketLife, step: PacketLifeStep)
    requires PLifeInv(l) && PLifeEnabled(l, step)
    ensures PLifeInv(PLifeNext(l, step))
  {
    match step
    case PRegister => assert PLifeNext(l, step).packet == PacketInit();
    case PCopy(inner) => PStepKeeps(l.packet, inner);
    case _ =>
  }

  lemma {:induction false} PRunKeeps(steps: seq<PacketLifeStep>)
    requires PRun(steps).Some?
    ensures PLifeInv(PRun(steps).value)
  {
    if steps == [] {
    } else {
      PRunKeeps(steps[..|steps| - 1]);
      PLifeStepKeeps(PRun(steps[..|steps| - 1]).value, steps[|steps| - 1]);
    }
  }

  /** While copying, the handler has run exactly when the first finisher is past its call, once and with that
      direction's result; the ends are closed as soon as one direction is over. */
  lemma PacketShutdown(steps: seq<PacketLifeStep>)
    requires PRun(steps).Some? && PRun(steps).value.setup.Running?
    ensures var s := PRun(steps).value.packet;
            && (s.first.Some? <==> s.done)
            && (FirstIsPast(s) ==> s.first.value in s.results && s.onCloses == [s.results[s.first.value]])
            && (!FirstIsPast(s) ==> s.onCloses == [])
            && s.removals == |s.onCloses| && (s.registered <==> s.onCloses == [])
            && (s.up.PFinished? || s.down.PFinished? <==> s.closed == BOTH)
            && (s.up.PFinished? && s.down.PFinished? ==> FirstIsPast(s))
  {
    PRunKeeps(steps);
  }

  function PPcWork(pc: PacketPc): nat {
    match pc
    case PCopying => 4
    case PEnded(_) => 3
    case PFirst(_) => 2
    case PClosing => 1
    case PFinished => 0
  }

  function PLifeWork(l: PacketLife): nat {
    match l.setup
    case Dialing => 11
    case Reporting => 10
    case Registering => 9
    case Running => PPcWork(l.packet.up) + PPcWork(l.packet.down)
    case _ => 0
  }

  lemma PStepShrinks(s: Packet, step: PacketStep)
    requires PEnabled(s, step)
    ensures var s' := PNext(s, step); PPcWork(s'.up) + PPcWork(s'.down) < PPcWork(s.up) + PPcWork(s.down)
  {
  }

  ghost predicate POver(l: PacketLife) { forall step :: !PLifeEnabled(l, step) }

  lemma POverMeansFinished(l: PacketLife)
    requires POver(l)
    ensures l.setup.DialFailed? || l.setup.ReportFailed? ||
              (l.setup.Running? && l.packet.up.PFinished? && l.packet.down.PFinished?)
  {
    assert !PLifeEnabled(l, PDial(None)) && !PLifeEnabled(l, PReport(None)) && !PLifeEnabled(l, PRegister);
    if l.setup.Running? {
      forall d ensures PAt(l.packet, d).PFinished? {
        assert !PLifeEnabled(l, PCopy(PCopyEnds(d, None))) && !PLifeEnabled(l, PCopy(PAdvance(d)));
      }
      assert l.packet.up == PAt(l.packet, false) && l.packet.down == PAt(l.packet, true);
    }
  }

  /** Every run has at most eleven steps, and one that cannot be extended has failed to set up or copied both ways. */
  lemma {:induction false} PacketRunsComplete(steps: seq<PacketLifeStep>)
    requires PRun(steps).Some?
    ensures var l := PRun(steps).value;
            |steps| + PLifeWork(l) <= 11 &&
            (POver(l) ==>
              l.setup.DialFailed? || l.setup.ReportFailed? || (l.packet.up.PFinished? && l.packet.down.PFinished?))
  {
    if steps == [] {
    } else {
      var front, last := steps[..|steps| - 1], steps[|steps| - 1];
      PacketRunsComplete(front);
      PRunKeeps(front);
      if last.PCopy? { PStepShrinks(PRun(front).value.packet, last.step); }
    }
    if POver(PRun(steps).value) { POverMeansFinished(PRun(steps).value); }
  }

  ghost predicate ReportFails(steps: seq<PacketLifeStep>) { exists e :: PReport(Some(e)) in steps }

  lemma {:induction false} ReportFailedExactly(steps: seq<PacketLifeStep>)
    requires PRun(steps).Some?
    ensures PRun(steps).value.setup.ReportFailed? <==> ReportFails(steps)
  {
    if steps == [] {
    } else {
      var front, last := steps[..|steps| - 1], steps[|steps| - 1];
      ReportFailedExactly(front);
      assert forall x :: x in steps <==> x in front || x == last;
      assert last.PReport? && last.error.Some? ==> PReport(Some(last.error.value)) in steps;
    }
  }

  /** Concretely: a life that ends with a failed report. */
  lemma FailedReportRunsNoHandler(error: nat)
    ensures var l := PRun([PDial(None), PReport(Some(error))]);
            l.Some? && POver(l.value) && l.value.packet.onCloses == [] && l.value.packet.closed == BOTH
  {
    var steps := [PDial(None), PReport(Some(error))];
    assert steps[..1] == [PDial(None)] && [PDial(None)][..0] == [];
    assert PRun([]) == Some(PLifeInit());
    assert PRun([PDial(None)]) == Some(PLifeNext(PLifeInit(), PDial(None)));
  }

  /** Over its whole life a packet connection closes every end that was opened and is off the list, removed as often
      as it was registered, but its close handler runs exactly once if and only if the handshake report does
      not fail; then it never runs, and nothing was ever registered. */
  lemma PacketCallsOnceExactly(steps: seq<PacketLifeStep>)
    requires PRun(steps).Some? && POver(PRun(steps).value)
    ensures var l := PRun(steps).value;
            && l.packet.closed == l.ends && !l.packet.registered && l.packet.removals == l.registrations
            && (|l.packet.onCloses| == 1 <==> !ReportFails(steps))
            && (ReportFails(steps) ==> l.packet.onCloses == [] && l.ends == BOTH && l.registrations == 0)
  {
    PRunKeeps(steps);
    ReportFailedExactly(steps);
    POverMeansFinished(PRun(steps).value);
  }
}
