/** The core lifecycle: Start, Stop, Restart and ServiceReload over the globals CoreState, Box
    and oldCommandServer.  Every call into the box or the command server may fail.

    Instances and servers are numbered as they are created.  `closeTried` records on whom Close
    has been called; `lostBoxes` and `lostServers` record whom a global stopped referring to
    although Close had not been called. */
module CoreLifecycle {
  import opened Optional

  datatype CoreState = Stopped | Starting | Started | Stopping

  datatype State = State(
    core: CoreState, box: Option<nat>, server: Option<nat>, next: nat,
    closeTried: set<nat>, lostBoxes: set<nat>, lostServers: set<nat>)

  datatype Request = Request(enableServer: bool)
  datatype StartFaults = StartFaults(parse: bool, server: bool, create: bool, start: bool)
  datatype StopFaults = StopFaults(boxClose: bool, serverClose: bool)

  datatype Status =
    | Ok
    | ParsingConfig | CommandServer | CreateService | StartingService
    | NotStarted | NotFound | BoxCloseFailed | ServerCloseFailed

  const FRESH := State(Stopped, None, None, 0, {}, {}, {})

  // ----- The globals -----

  function Unclosed(s: State, id: Option<nat>): set<nat> {
    if id.Some? && id.value !in s.closeTried then {id.value} else {}
  }

  function SetBox(s: State, box: Option<nat>): State {
    s.(box := box, lostBoxes := s.lostBoxes + Unclosed(s, s.box))
  }

  function SetServer(s: State, server: Option<nat>): State {
    s.(server := server, lostServers := s.lostServers + Unclosed(s, s.server))
  }

  function Close(s: State, id: Option<nat>): State {
    if id.Some? then s.(closeTried := s.closeTried + {id.value}) else s
  }

  // ----- Operations -----

  function StopAndAlert(s: State): State {
    var s1 := s.(core := Stopped);
    var s2 := if s1.box.Some? then SetBox(Close(s1, s1.box), None) else s1;
    Close(s2, s2.server)
  }

  function StartService(s: State, request: Request, f: StartFaults): (State, Status) {
    if f.parse then (StopAndAlert(s), ParsingConfig)
    else
      var s1 := if request.enableServer then SetServer(s, Some(s.next)).(next := s.next + 1) else s;
      if request.enableServer && f.server then (StopAndAlert(s1), CommandServer)
      else if f.create then (StopAndAlert(s1), CreateService)
      else
        var instance := s1.next;
        var s2 := s1.(next := s1.next + 1);
        if f.start then (StopAndAlert(s2), StartingService)
        else (SetBox(s2, Some(instance)).(core := Started), Ok)
  }

  function Stop(s: State, f: StopFaults): (State, Status) {
    if s.core != Started then (s, NotStarted)
    else if s.box.None? then (s, NotFound)
    else
      var s1 := Close(s.(core := Stopping), s.box);
      if f.boxClose then (s1, BoxCloseFailed)
      else
        var s2 := SetBox(s1, None);
        if s2.server.Some? then
          var s3 := Close(s2, s2.server);
          if f.serverClose then (s3, ServerCloseFailed)
          else (SetServer(s3, None).(core := Stopped), Ok)
        else (s2.(core := Stopped), Ok)
  }

  function Start(s: State, request: Request, f: StartFaults, sf: StopFaults): (State, Status) {
    var s1 := if s.core != Stopped then Stop(s, sf).0 else s;
    StartService(s1.(core := Starting), request, f)
  }

  function Restart(s: State, request: Request, f: StartFaults, sf: StopFaults): (State, Status) {
    if s.core != Started then (s, NotStarted)
    else if s.box.None? then (s, NotFound)
    else
      var r := Stop(s, sf);
      if !r.1.Ok? then r else StartService(r.0.(core := Starting), request, f)
  }

  function Reload(s: State, f: StartFaults): (State, Status) {
    var s1 := s.(core := Starting);
    var s2 := if s1.server.Some? then SetServer(s1, None) else s1;
    var s3 := if s2.box.Some? then SetBox(Close(s2, s2.box), None) else s2;
    StartService(s3, Request(true), f)
  }

  datatype Op =
    | StartOp(request: Request, faults: StartFaults, stopFaults: StopFaults)
    | StopOp(stopFaults: StopFaults)
    | RestartOp(request: Request, faults: StartFaults, stopFaults: StopFaults)
    | ReloadOp(faults: StartFaults)

  function Apply(s: State, op: Op): (State, Status) {
    match op
    case StartOp(request, f, sf) => Start(s, request, f, sf)
    case StopOp(sf) => Stop(s, sf)
    case RestartOp(request, f, sf) => Restart(s, request, f, sf)
    case ReloadOp(f) => Reload(s, f)
  }

  function Run(ops: seq<Op>): State {
    if ops == [] then FRESH else Apply(Run(ops[..|ops| - 1]), ops[|ops| - 1]).0
  }

  // ----- What holds between operations -----

  /** Numbers already given out. */
  ghost predicate Numbered(s: State) {
    && (s.box.Some? ==> s.box.value < s.next) && (s.server.Some? ==> s.server.value < s.next)
    && (forall id :: id in s.closeTried ==> id < s.next)
    && (s.box.Some? ==> s.server != s.box)
  }

  /** No stored instance is ever given up before Close was called on it. */
  ghost predicate BoxInv(s: State) {
    s.lostBoxes == {} && (s.core != Started && s.core != Starting && s.box.Some? ==> s.box.value in s.closeTried)
  }

  /** While stopped, the command server, if it is still referred to, has been closed. */
  ghost predicate ServerInv(s: State) {
    s.core == Stopped && s.server.Some? ==> s.server.value in s.closeTried
  }

  ghost predicate Inv(s: State) {
    && Numbered(s) && BoxInv(s) && ServerInv(s)
    && (s.core == Started ==> s.box.Some?)
    && (s.core == Stopped ==> s.box.None?)
    && s.core != Starting
  }

  /** The state in which StartService is entered. */
  ghost predicate Entering(s: State) {
    Numbered(s) && s.core == Starting && s.lostBoxes == {} && (s.box.Some? ==> s.box.value in s.closeTried)
  }

  lemma StopAndAlertEnds(s: State)
    requires Numbered(s) && s.lostBoxes == {}
    ensures var s' := StopAndAlert(s); Inv(s') && s'.core == Stopped && s'.lostServers == s.lostServers
  {
  }

  lemma StartServiceEnds(s: State, request: Request, f: StartFaults)
    requires Entering(s)
    ensures var (s', status) := StartService(s, request, f);
            && Inv(s') && (status.Ok? <==> s'.core == Started) && (!status.Ok? <==> s'.core == Stopped)
            && s'.lostServers ==
              (if !f.parse && request.enableServer then SetServer(s, None).lostServers else s.lostServers)
  {
    if !f.parse {
      var s1 := if request.enableServer then SetServer(s, Some(s.next)).(next := s.next + 1) else s;
      StopAndAlertEnds(s1);
      StopAndAlertEnds(s1.(next := s1.next + 1));
    } else {
      StopAndAlertEnds(s);
    }
  }

  lemma StopEnds(s: State, f: StopFaults)
    requires Inv(s)
    ensures var (s', status) := Stop(s, f);
            && Inv(s') && s'.lostServers == s.lostServers
            && (status.Ok? ==> s'.core == Stopped && s'.server.None?) && !status.NotFound?
            && (status.BoxCloseFailed? ==> s'.server == s.server && Unclosed(s', s.server) == Unclosed(s, s.server))
            && (status.ServerCloseFailed? ==> s'.server.Some? && s'.server.value in s'.closeTried)
  {
  }

  lemma StartEnds(s: State, request: Request, f: StartFaults, sf: StopFaults)
    requires Inv(s)
    ensures var s' := Start(s, request, f, sf).0; Inv(s') && (s'.core == Started || s'.core == Stopped)
  {
    StopEnds(s, sf);
    var s1 := if s.core != Stopped then Stop(s, sf).0 else s;
    StartServiceEnds(s1.(core := Starting), request, f);
  }

  lemma ReloadEnds(s: State, f: StartFaults)
    requires Inv(s)
    ensures var s' := Reload(s, f).0;
            && Inv(s') && (s'.core == Started || s'.core == Stopped)
            && s'.lostServers == SetServer(s, None).lostServers
  {
    var s1 := s.(core := Starting);
    var s2 := if s1.server.Some? then SetServer(s1, None) else s1;
    var s3 := if s2.box.Some? then SetBox(Close(s2, s2.box), None) else s2;
    StartServiceEnds(s3, Request(true), f);
  }

  lemma StepKeeps(s: State, op: Op)
    requires Inv(s)
    ensures Inv(Apply(s, op).0)
  {
    match op
    case StartOp(request, f, sf) => StartEnds(s, request, f, sf);
    case StopOp(sf) => StopEnds(s, sf);
    case RestartOp(request, f, sf) =>
      StopEnds(s, sf);
      if s.core == Started && s.box.Some? && Stop(s, sf).1.Ok? {
        StartServiceEnds(Stop(s, sf).0.(core := Starting), request, f);
      }
    case ReloadOp(f) => ReloadEnds(s, f);
  }

  /** After any sequence of operations with any errors: STARTED has a box, STOPPED has none, STARTING does
      not persist, and no stored instance was dropped or overwritten before Close was called on it. */
  lemma {:induction false} RunKeeps(ops: seq<Op>)
    ensures Inv(Run(ops)) && Run(ops).lostBoxes == {}
  {
    if ops == [] {
    } else {
      RunKeeps(ops[..|ops| - 1]);
      StepKeeps(Run(ops[..|ops| - 1]), ops[|ops| - 1]);
    }
  }

  /** Start always ends started or stopped, whatever state and errors it meets. */
  lemma StartSettles(ops: seq<Op>, request: Request, f: StartFaults, sf: StopFaults)
    ensures var s := Start(Run(ops), request, f, sf).0; s.core == Started || s.core == Stopped
  {
    RunKeeps(ops);
    StartEnds(Run(ops), request, f, sf);
  }

  /** A failed close leaves STOPPING, from which Stop and Restart do nothing: only Start or a reload leaves it. */
  lemma StoppingIsLeftOnlyByStartOrReload(ops: seq<Op>, request: Request, f: StartFaults, sf: StopFaults)
    requires Run(ops).core == Stopping
    ensures Stop(Run(ops), sf) == (Run(ops), NotStarted) && Restart(Run(ops), request, f, sf) == (Run(ops), NotStarted)
    ensures Start(Run(ops), request, f, sf).0.core != Stopping && Reload(Run(ops), f).0.core != Stopping
  {
    RunKeeps(ops);
    StartEnds(Run(ops), request, f, sf);
    ReloadEnds(Run(ops), f);
  }

  // ----- Command servers -----

  /** A command server that is referred to and has not been closed. */
  ghost predicate OpenServer(s: State) { s.server.Some? && s.server.value !in s.closeTried }

  /** For command servers the same promise fails, exactly in these cases: a reload always drops
      the server it finds, and Start overwrites one that a failed box close left behind. */
  ghost predicate DropsServer(s: State, op: Op) {
    OpenServer(s) &&
    match op
    case ReloadOp(_) => true
    case StartOp(request, f, sf) =>
      request.enableServer && !f.parse && (s.core == Stopping || (s.core == Started && sf.boxClose))
    case _ => false
  }

  lemma RestartKeepsServers(s: State, request: Request, f: StartFaults, sf: StopFaults)
    requires Inv(s)
    ensures Restart(s, request, f, sf).0.lostServers == s.lostServers
  {
    StopEnds(s, sf);
    if s.core == Started && Stop(s, sf).1.Ok? {
      StartServiceEnds(Stop(s, sf).0.(core := Starting), request, f);
    }
  }

  lemma StartDropsServerExactly(s: State, request: Request, f: StartFaults, sf: StopFaults)
    requires Inv(s)
    ensures Start(s, request, f, sf).0.lostServers ==
            if DropsServer(s, StartOp(request, f, sf)) then s.lostServers + {s.server.value} else s.lostServers
  {
    StopEnds(s, sf);
    var s1 := if s.core != Stopped then Stop(s, sf).0 else s;
    StartServiceEnds(s1.(core := Starting), request, f);
  }

  lemma ServerDroppedExactly(ops: seq<Op>, op: Op)
    ensures Apply(Run(ops), op).0.lostServers ==
            if DropsServer(Run(ops), op) then Run(ops).lostServers + {Run(ops).server.value} else Run(ops).lostServers
  {
    RunKeeps(ops);
    var s := Run(ops);
    match op
    case StartOp(request, f, sf) => StartDropsServerExactly(s, request, f, sf);
    case StopOp(sf) => StopEnds(s, sf);
    case RestartOp(request, f, sf) => RestartKeepsServers(s, request, f, sf);
    case ReloadOp(f) => ReloadEnds(s, f);
  }

  /** The request of a reload carries no configuration, so it cannot be parsed: from every state of every run the
      reload ends stopped, with the box closed and the server it found dropped as it was. */
  lemma EmptyReloadStops(ops: seq<Op>, f: StartFaults)
    requires f.parse
    ensures var s, (s', status) := Run(ops), Reload(Run(ops), f);
            && status == ParsingConfig && s'.core == Stopped && s'.box.None? && s'.server.None?
            && (s.box.Some? ==> s.box.value in s'.closeTried) && s'.lostBoxes == {}
            && (OpenServer(s) ==> s.server.value in s'.lostServers && s.server.value !in s'.closeTried)
  {
    RunKeeps(ops);
    ReloadEnds(Run(ops), f);
  }

  /** Concretely: such a reload after a start with a command server drops that server, number 0, unclosed. */
  lemma ReloadDropsOpenServer()
    ensures var start := StartOp(Request(true), StartFaults(false, false, false, false), StopFaults(false, false));
            var reload := ReloadOp(StartFaults(true, false, false, false));
            var s := Run([start, reload]);
            s.lostServers == {0} && 0 !in s.closeTried && s.core == Stopped && s.box.None?
  {
    var start := StartOp(Request(true), StartFaults(false, false, false, false), StopFaults(false, false));
    var reload := ReloadOp(StartFaults(true, false, false, false));
    assert [start, reload][..1] == [start] && [start][..0] == [];
    assert Run([start]) == State(Started, Some(1), Some(0), 2, {}, {}, {});
  }

  // ----- The globals as an object -----

  class Core {
    var core: CoreState
    var box: Option<nat>
    var server: Option<nat>
    var next: nat
    ghost var closeTried: set<nat>
    ghost var lostBoxes: set<nat>
    ghost var lostServers: set<nat>

    ghost function Abs(): State
      reads this
    {
      State(core, box, server, next, closeTried, lostBoxes, lostServers)
    }

    constructor ()
      ensures Abs() == FRESH && Inv(Abs())
    {
      core, box, server, next := Stopped, None, None, 0;
      closeTried, lostBoxes, lostServers := {}, {}, {};
    }

    method AssignBox(value: Option<nat>)
      modifies this`box, this`lostBoxes
      ensures Abs() == SetBox(old(Abs()), value)
    {
      if box.Some? && box.value !in closeTried { lostBoxes := lostBoxes + {box.value}; }
      box := value;
    }

    method AssignServer(value: Option<nat>)
      modifies this`server, this`lostServers
      ensures Abs() == SetServer(old(Abs()), value)
    {
      if server.Some? && server.value !in closeTried { lostServers := lostServers + {server.value}; }
      server := value;
    }

    method DoStopAndAlert()
      modifies this
      ensures Abs() == StopAndAlert(old(Abs()))
    {
      core := Stopped;
      if box.Some? {
        closeTried := closeTried + {box.value};
        AssignBox(None);
      }
      if server.Some? { closeTried := closeTried + {server.value}; }
    }

    method DoStartService(request: Request, f: StartFaults) returns (status: Status)
      modifies this
      ensures (Abs(), status) == StartService(old(Abs()), request, f)
    {
      if f.parse { DoStopAndAlert(); return ParsingConfig; }
      if request.enableServer {
        AssignServer(Some(next));
        next := next + 1;
        if f.server { DoStopAndAlert(); return CommandServer; }
      }
      if f.create { DoStopAndAlert(); return CreateService; }
      var instance := next;
      next := next + 1;
      if f.start { DoStopAndAlert(); return StartingService; }
      AssignBox(Some(instance));
      core := Started;
      return Ok;
    }

    method DoStop(f: StopFaults) returns (status: Status)
      modifies this
      ensures (Abs(), status) == Stop(old(Abs()), f)
      ensures old(Inv(Abs())) ==> Inv(Abs())
    {
      if Inv(Abs()) { StopEnds(Abs(), f); }
      if core != Started { return NotStarted; }
      if box.None? { return NotFound; }
      core := Stopping;
      closeTried := closeTried + {box.value};
      if f.boxClose { return BoxCloseFailed; }
      AssignBox(None);
      if server.Some? {
        closeTried := closeTried + {server.value};
        if f.serverClose { return ServerCloseFailed; }
        AssignServer(None);
      }
      core := Stopped;
      return Ok;
    }

    method DoStart(request: Request, f: StartFaults, sf: StopFaults) returns (status: Status)
      modifies this
      ensures (Abs(), status) == Start(old(Abs()), request, f, sf)
      ensures old(Inv(Abs())) ==> Inv(Abs()) && (core == Started || core == Stopped)
    {
      if Inv(Abs()) { StartEnds(Abs(), request, f, sf); }
      if core != Stopped { var _ := DoStop(sf); }
      core := Starting;
      status := DoStartService(request, f);
    }

    method DoRestart(request: Request, f: StartFaults, sf: StopFaults) returns (status: Status)
      modifies this
      ensures (Abs(), status) == Restart(old(Abs()), request, f, sf)
      ensures old(Inv(Abs())) ==> Inv(Abs())
    {
      if Inv(Abs()) { StepKeeps(Abs(), RestartOp(request, f, sf)); }
      if core != Started { return NotStarted; }
      if box.None? { return NotFound; }
      status := DoStop(sf);
      if !status.Ok? { return; }
      core := Starting;
      status := DoStartService(request, f);
    }

    method DoReload(f: StartFaults) returns (status: Status)
      modifies this
      ensures (Abs(), status) == Reload(old(Abs()), f)
      ensures old(Inv(Abs())) ==> Inv(Abs()) && (core == Started || core == Stopped)
    {
      if Inv(Abs()) { ReloadEnds(Abs(), f); }
      core := Starting;
      if server.Some? { AssignServer(None); }
      if box.Some? {
        closeTried := closeTried + {box.value};
        AssignBox(None);
      }
      status := DoStartService(Request(true), f);
    }
  }
}
