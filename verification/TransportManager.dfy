/** The DNS transport manager.  It keeps the same index as the outbound manager and adds
    the fakeip rules: the default server must not be fakeip and there is one fakeip server. */
module TransportManager {
  import opened Optional
  import opened TagIndex
  import DS = DependencyStart

  datatype State = State(ix: Index, default: Option<Member>, fakeIP: Option<Member>, started: bool, stage: nat)

  datatype Status =
    | Ok
    | Invalid
    | RegistryError
    | StartError
    | CloseError
    | DefaultIsFakeIP               // "default server cannot be fakeip"
    | MultipleFakeIP                // "multiple fakeip server are not supported"
    | DependedBy(dependents: seq<string>)
    | DefaultNotFound
    | IndexPanic
    | AlreadyStarted

  const FAKEIP := "fakeip"          // C.DNSTypeFakeIP
  const START_STAGE: nat := 1
  const FRESH := State(EMPTY, None, None, false, 0)

  // ----- Operations on the abstract state -----

  /** The index is updated before the two fakeip checks, so both errors leave the transport registered. */
  function Create(
    s: State, defaultTag: string, tag: string, made: Option<Member>, startOk: bool, closeOk: bool): (State, Status)
  {
    if tag == "" then (s, Invalid)
    else if made.None? then (s, RegistryError)
    else if s.started && !startOk then (s, StartError)
    else if tag in s.ix.byTag && s.started && !closeOk then (s, CloseError)
    else if tag in s.ix.byTag && s.ix.byTag[tag] !in s.ix.list then (s, IndexPanic)
    else
      var m := made.value.(tag := tag);
      var s1 := s.(ix := Replace(s.ix, m));
      var becomesDefault := tag == defaultTag || (defaultTag == "" && s.default.None?);
      if becomesDefault && m.kind == FAKEIP then (s1, DefaultIsFakeIP)
      else
        var s2 := if becomesDefault then s1.(default := Some(m)) else s1;
        if m.kind != FAKEIP then (s2, Ok)
        else if s.fakeIP.Some? then (s2, MultipleFakeIP)
        else (s2.(fakeIP := Some(m)), Ok)
  }

  /** The guard on the next default tests the fakeip type with `!=`. */
  function Remove(s: State, tag: string): (State, Status) {
    if tag !in s.ix.byTag then (s, Invalid)
    else if s.ix.byTag[tag] !in s.ix.list then (s.(ix := s.ix.(byTag := s.ix.byTag - {tag})), IndexPanic)
    else
      var gone := s.ix.byTag[tag];
      var s1 := s.(ix := Detach(s.ix, tag));
      if s.default == Some(gone) && |s1.ix.list| > 0 && s1.ix.list[0].kind != FAKEIP then (s1, DefaultIsFakeIP)
      else
        var s2 := if s.default != Some(gone) then s1
                  else s1.(default := if |s1.ix.list| > 0 then Some(s1.ix.list[0]) else None);
        if |Get(s1.ix.dependBy, tag)| > 0 then (s2, DependedBy(Get(s1.ix.dependBy, tag)))
        else (s2.(ix := s2.ix.(dependBy := DropDeps(s1.ix.dependBy, gone.deps, tag))), Ok)
  }

  /** Start up to the point where the members themselves are started. */
  function BeginStart(s: State, defaultTag: string, stage: nat): (State, Status) {
    if s.started && s.stage >= stage then (s, AlreadyStarted)
    else
      (s.(started := true, stage := stage),
       if stage == START_STAGE && defaultTag != "" && s.default.None? then DefaultNotFound else Ok)
  }

  // ----- Every run from creation to Close -----

  datatype Op =
    | CreateOp(tag: string, made: Option<Member>, startOk: bool, closeOk: bool)
    | RemoveOp(tag: string)
    | StartOp(stage: nat)

  function Apply(s: State, defaultTag: string, op: Op): (State, Status) {
    match op
    case CreateOp(tag, made, startOk, closeOk) => Create(s, defaultTag, tag, made, startOk, closeOk)
    case RemoveOp(tag) => Remove(s, tag)
    case StartOp(stage) => BeginStart(s, defaultTag, stage)
  }

  function Run(s: State, defaultTag: string, ops: seq<Op>): State {
    if ops == [] then s else Apply(Run(s, defaultTag, ops[..|ops| - 1]), defaultTag, ops[|ops| - 1]).0
  }

  ghost predicate CleanDeps(op: Op) {
    op.CreateOp? && op.made.Some? ==> DuplicateFree(op.made.value.deps)
  }

  ghost predicate CleanState(s: State) {
    Complete(s.ix) && forall m :: m in s.ix.list ==> DuplicateFree(m.deps)
  }

  lemma CreateKeeps(s: State, defaultTag: string, op: Op)
    requires Consistent(s.ix) && op.CreateOp?
    ensures var r := Apply(s, defaultTag, op);
            !r.1.IndexPanic? && Consistent(r.0.ix) && (CleanDeps(op) && CleanState(s) ==> CleanState(r.0))
  {
    var r := Apply(s, defaultTag, op);
    if op.made.Some? { ReplaceKeeps(s.ix, op.made.value.(tag := op.tag)); }
    assert r.0.ix == s.ix || (op.made.Some? && r.0.ix == Replace(s.ix, op.made.value.(tag := op.tag)));
  }

  lemma RemoveKeeps(s: State, defaultTag: string, op: Op)
    requires Consistent(s.ix) && op.RemoveOp?
    ensures var r := Apply(s, defaultTag, op);
            !r.1.IndexPanic? && Consistent(r.0.ix) && (CleanState(s) ==> CleanState(r.0))
  {
    if op.tag in s.ix.byTag {
      var ix, gone := Detach(s.ix, op.tag), s.ix.byTag[op.tag];
      DetachKeeps(s.ix, op.tag);
      if CleanState(s) {
        DropKeepsCompleteExactly(ix, gone);
        DuplicateFreeNeverLoses(ix, gone);
      }
    }
  }

  lemma StepKeeps(s: State, defaultTag: string, op: Op)
    requires Consistent(s.ix)
    ensures var r := Apply(s, defaultTag, op);
            !r.1.IndexPanic? && Consistent(r.0.ix) && (CleanDeps(op) && CleanState(s) ==> CleanState(r.0))
  {
    match op
    case CreateOp(_, _, _, _) => CreateKeeps(s, defaultTag, op);
    case RemoveOp(_) => RemoveKeeps(s, defaultTag, op);
    case StartOp(_) =>
  }

  lemma {:induction false} RunKeeps(defaultTag: string, ops: seq<Op>)
    ensures Consistent(Run(FRESH, defaultTag, ops).ix)
    ensures forall op :: !Apply(Run(FRESH, defaultTag, ops), defaultTag, op).1.IndexPanic?
    ensures (forall op :: op in ops ==> CleanDeps(op)) ==> CleanState(Run(FRESH, defaultTag, ops))
  {
    if ops == [] {
    } else {
      var front, op := ops[..|ops| - 1], ops[|ops| - 1];
      RunKeeps(defaultTag, front);
      StepKeeps(Run(FRESH, defaultTag, front), defaultTag, op);
      assert forall x :: x in front ==> x in ops;
    }
    forall op { StepKeeps(Run(FRESH, defaultTag, ops), defaultTag, op); }
  }

  lemma RemoveIsSafe(defaultTag: string, ops: seq<Op>, tag: string)
    requires forall op :: op in ops ==> CleanDeps(op)
    ensures var before := Run(FRESH, defaultTag, ops);
            var (after, status) := Remove(before, tag);
            status.Ok? ==> !DependedOn(before.ix, tag) && !DependedOn(after.ix, tag)
  {
    RunKeeps(defaultTag, ops);
    var before := Run(FRESH, defaultTag, ops);
    if tag in before.ix.byTag { DetachKeeps(before.ix, tag); }
  }

  // ----- The default server -----

  /** The default server, when there is one, is registered and is not fakeip. */
  ghost predicate GoodDefault(s: State) {
    s.default.Some? ==> s.default.value in s.ix.list && s.default.value.kind != FAKEIP
  }

  /** Remove keeps a good default exactly when the removed server was not the default or
      was the last one: with servers left over, the inverted test either leaves the
      default on the removed server or hands it to the fakeip server. */
  lemma RemoveKeepsGoodDefaultExactly(s: State, tag: string)
    requires Consistent(s.ix) && GoodDefault(s) && tag in s.ix.byTag
    ensures GoodDefault(Remove(s, tag).0) <==> (s.default != Some(s.ix.byTag[tag]) || |s.ix.list| == 1)
  {
    DetachKeeps(s.ix, tag);
    var s' := Remove(s, tag).0;
    assert |s'.ix.list| == |s.ix.list| - 1;
    if s.default == Some(s.ix.byTag[tag]) && |s.ix.list| > 1 {
      assert s.ix.byTag[tag] !in s'.ix.list;
    }
  }

  /** Concretely: of two ordinary servers, removing the default one fails with "default server cannot be fakeip" and
      leaves it the default, off the list. */
  lemma RemovedServerStaysDefault(a: string, b: string, ma: Member, mb: Member, s: State)
    requires a != b && ma == Member(a, [], "udp", 0) && mb == Member(b, [], "udp", 1)
    requires s == State(Index([ma, mb], map[a := ma, b := mb], map[]), Some(ma), None, false, 0)
    ensures Remove(s, a).1 == DefaultIsFakeIP && Remove(s, a).0.default == Some(ma) && Remove(s, a).0.ix.list == [mb]
  {
    assert s.ix.list[0] == ma && ma in s.ix.list;
    assert IndexOf(s.ix.list, ma) == 0;
    assert "udp" != FAKEIP by { assert |"udp"| != |FAKEIP|; }
  }

  /** Without Remove the default is never fakeip, whatever Create calls fail. */
  lemma {:induction false} CreateRunsNeverDefaultToFakeIP(defaultTag: string, ops: seq<Op>)
    requires forall op :: op in ops ==> !op.RemoveOp?
    ensures var s := Run(FRESH, defaultTag, ops); s.default.Some? ==> s.default.value.kind != FAKEIP
  {
    if ops == [] {
    } else {
      assert ops[|ops| - 1] in ops;
      CreateRunsNeverDefaultToFakeIP(defaultTag, ops[..|ops| - 1]);
    }
  }

  /** Remove never clears the fakeip server, so once it is removed every later fakeip
      Create that is not refused earlier ends in "multiple fakeip server". */
  lemma RemovedFakeIPBlocksAnother(
    s: State, defaultTag: string, tag: string, made: Member, startOk: bool, closeOk: bool)
    requires Consistent(s.ix) && s.fakeIP.Some? && s.fakeIP.value.tag in s.ix.byTag
    requires made.kind == FAKEIP
    ensures var s' := Remove(s, s.fakeIP.value.tag).0;
            s'.fakeIP == s.fakeIP && !Create(s', defaultTag, tag, Some(made), startOk, closeOk).1.Ok?
  {
  }

  /** The list that is started and the index that is diagnosed hold the same tags. */
  lemma StartedTransports(ix: Index)
    requires Consistent(ix)
    ensures DS.DistinctTags(Items(ix.list)) && DS.IndexAgrees(Items(ix.list), ItemIndex(ix.byTag))
    ensures forall t :: t in ItemIndex(ix.byTag) <==> DS.Listed(Items(ix.list), t)
  {
    StartListAgrees(ix, []);
    assert ix.list + [] == ix.list;
    var items := Items(ix.list);
    forall t ensures t in ItemIndex(ix.byTag) <==> DS.Listed(items, t) {
      if t in ix.byTag {
        var k :| 0 <= k < |items| && items[k] == ItemIndex(ix.byTag)[t];
        assert items[k].tag == t;
      }
      if DS.Listed(items, t) {
        var k :| 0 <= k < |items| && items[k].tag == t;
        assert ix.list[k] in ix.list;
      }
    }
  }

  // ----- The class -----

  class Manager {
    const defaultTag: string
    var started: bool
    var stage: nat
    var transports: seq<Member>
    var transportByTag: map<string, Member>
    var dependByTag: DependIndex
    var defaultTransport: Option<Member>
    var fakeIPTransport: Option<Member>

    ghost function Abs(): State
      reads this
    {
      State(Index(transports, transportByTag, dependByTag), defaultTransport, fakeIPTransport, started, stage)
    }

    constructor (defaultTag: string)
      ensures this.defaultTag == defaultTag && Abs() == FRESH && Consistent(Abs().ix)
    {
      this.defaultTag := defaultTag;
      started, stage, transports, transportByTag, dependByTag := false, 0, [], map[], map[];
      defaultTransport, fakeIPTransport := None, None;
    }

    method CreateTransport(tag: string, made: Option<Member>, startOk: bool, closeOk: bool) returns (status: Status)
      modifies this
      ensures (Abs(), status) == Create(old(Abs()), defaultTag, tag, made, startOk, closeOk)
      ensures old(Consistent(Abs().ix)) ==> Consistent(Abs().ix) && !status.IndexPanic?
    {
      if Consistent(Abs().ix) { StepKeeps(Abs(), defaultTag, CreateOp(tag, made, startOk, closeOk)); }
      if tag == "" { return Invalid; }
      if made.None? { return RegistryError; }
      if started && !startOk { return StartError; }
      var m := made.value.(tag := tag);
      if tag in transportByTag && started && !closeOk { return CloseError; }
      var ok, list, byTag, db := ReplaceIn(transports, transportByTag, dependByTag, m);
      if !ok { return IndexPanic; }
      transports, transportByTag, dependByTag := list, byTag, db;
      if tag == defaultTag || (defaultTag == "" && defaultTransport.None?) {
        if m.kind == FAKEIP { return DefaultIsFakeIP; }
        defaultTransport := Some(m);
      }
      if m.kind == FAKEIP {
        if fakeIPTransport.Some? { return MultipleFakeIP; }
        fakeIPTransport := Some(m);
      }
      return Ok;
    }

    method RemoveTransport(tag: string) returns (status: Status)
      modifies this
      ensures (Abs(), status) == Remove(old(Abs()), tag)
      ensures old(Consistent(Abs().ix)) ==> Consistent(Abs().ix) && !status.IndexPanic?
    {
      if Consistent(Abs().ix) { StepKeeps(Abs(), defaultTag, RemoveOp(tag)); }
      if tag !in transportByTag { return Invalid; }
      var gone := transportByTag[tag];
      var ok;
      ok, transports, transportByTag := DetachIn(transports, transportByTag, tag);
      if !ok { return IndexPanic; }
      if defaultTransport == Some(gone) {
        if |transports| > 0 {
          if transports[0].kind != FAKEIP { return DefaultIsFakeIP; }
          defaultTransport := Some(transports[0]);
        } else {
          defaultTransport := None;
        }
      }
      var dependBy := Get(dependByTag, tag);
      if |dependBy| > 0 { return DependedBy(dependBy); }
      dependByTag := DropAll(dependByTag, gone.deps, tag);
      return Ok;
    }

    /** For transports the diagnosed list and the index hold the same tags, so a "not
        found" report names a dependency that no registered transport has. */
    method Start(newStage: nat, fails: set<string>) returns (status: Status, outcome: DS.Outcome, order: seq<string>)
      requires Consistent(Abs().ix)
      modifies this`started, this`stage
      ensures (Abs(), status) == BeginStart(old(Abs()), defaultTag, newStage)
      ensures status.Ok? && newStage == START_STAGE ==>
        var items := Items(transports);
        && DS.StartOrder(items, order)
        && (outcome.Started? <==> DS.Closed(items) && DS.Acyclic(items) && DS.NoneFails(items, fails))
        && !outcome.NilDereference?
        && (outcome.Circular? || outcome.NotFound? ==>
              DS.Truthful(items, ItemIndex(transportByTag), DS.Elements(order), outcome))
        && (outcome.NotFound? ==> !DS.Listed(items, outcome.dependency))
      ensures status.Ok? && newStage != START_STAGE ==>
        |order| <= |transports| && (forall i :: 0 <= i < |order| ==> order[i] == transports[i].tag) &&
        (outcome.Started? <==> DS.NoneFails(Items(transports), fails))
    {
      if started && stage >= newStage { return AlreadyStarted, DS.Started, []; }
      started, stage := true, newStage;
      if newStage == START_STAGE {
        if defaultTag != "" && defaultTransport.None? { return DefaultNotFound, DS.Started, []; }
        StartedTransports(Index(transports, transportByTag, dependByTag));
        outcome, order := DS.StartAll(Items(transports), ItemIndex(transportByTag), fails);
      } else {
        outcome, order := StartStage(transports, fails);
      }
      return Ok, outcome, order;
    }
  }
}
