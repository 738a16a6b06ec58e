/** The outbound manager: Create, Remove, Start and Close over the tag index.

    Each operation is given as a function on the manager's abstract state, the class
    below is proved to implement these functions, and the invariants are proved over
    every sequence of operations.  Registry, starters and closers appear as the
    outcomes they report. */
module OutboundManager {
  import opened Optional
  import opened TagIndex
  import DS = DependencyStart

  datatype State = State(ix: Index, default: Option<Member>, started: bool, stage: nat)

  datatype Status =
    | Ok
    | Invalid                       // os.ErrInvalid
    | RegistryError
    | StartError
    | CloseError
    | DependedBy(dependents: seq<string>)
    | DefaultNotFound
    | FallbackError
    | IndexPanic                    // panic("invalid inbound index")
    | AlreadyStarted                // panic("already started")

  const START_STAGE: nat := 1       // adapter.StartStateStart
  const FRESH := State(EMPTY, None, false, 0)

  // ----- Operations on the abstract state -----

  function Create(
    s: State, defaultTag: string, tag: string, made: Option<Member>, startOk: bool, closeOk: bool): (State, Status)
  {
    if tag == "" then (s, Invalid)
    else if made.None? then (s, RegistryError)
    else if s.started && !startOk then (s, StartError)
    else if tag in s.ix.byTag && s.started && !closeOk then (s, CloseError)
    else if tag in s.ix.byTag && s.ix.byTag[tag] !in s.ix.list then (s, IndexPanic)
    else
      var m := made.value.(tag := tag);
      var ix := Replace(s.ix, m);
      var becomesDefault := tag == defaultTag || (defaultTag == "" && s.default.None?);
      (s.(ix := ix, default := if becomesDefault then Some(m) else s.default), Ok)
  }

  function NextDefault(s: State, gone: Member, rest: seq<Member>): Option<Member> {
    if s.default != Some(gone) then s.default
    else if |rest| > 0 then Some(rest[0])
    else None
  }

  /** The list, the map and the default change before the dependents are looked at. */
  function Remove(s: State, tag: string, closeOk: bool): (State, Status) {
    if tag !in s.ix.byTag then (s, Invalid)
    else if s.ix.byTag[tag] !in s.ix.list then (s.(ix := s.ix.(byTag := s.ix.byTag - {tag})), IndexPanic)
    else
      var gone := s.ix.byTag[tag];
      var ix := Detach(s.ix, tag);
      var s1 := s.(ix := ix, default := NextDefault(s, gone, ix.list));
      if |Get(ix.dependBy, tag)| > 0 then (s1, DependedBy(Get(ix.dependBy, tag)))
      else
        var s2 := s1.(ix := ix.(dependBy := DropDeps(ix.dependBy, gone.deps, tag)));
        (s2, if s.started && !closeOk then CloseError else Ok)
  }

  function FindTag(members: seq<Member>, tag: string): (m: Option<Member>)
    ensures m.Some? ==> m.value in members && m.value.tag == tag
    ensures m.None? ==> forall x :: x in members ==> x.tag != tag
  {
    if members == [] then None
    else if members[0].tag == tag then Some(members[0])
    else FindTag(members[1..], tag)
  }

  /** Start up to the point where the members themselves are started. */
  function Prepare(
    s: State, defaultTag: string, stage: nat, endpoints: seq<Member>, fallback: Option<Member>): (State, Status)
  {
    if s.started && s.stage >= stage then (s, AlreadyStarted)
    else
      var s1 := s.(started := true, stage := stage);
      if stage != START_STAGE then (s1, Ok)
      else if defaultTag != "" && s.default.None? then
        match FindTag(endpoints, defaultTag)
        case Some(e) => (s1.(default := Some(e)), Ok)
        case None => (s1, DefaultNotFound)
      else if s.default.None? then
        match fallback
        case Some(m) =>
          (s1.(ix := s.ix.(list := s.ix.list + [m], byTag := s.ix.byTag[m.tag := m]), default := Some(m)), Ok)
        case None => (s1, FallbackError)
      else (s1, Ok)
  }

  /** Close empties the list and leaves the map alone. */
  function Close(s: State): State {
    if s.started then s.(started := false, ix := s.ix.(list := [])) else s
  }

  // ----- Every run from creation to Close -----

  datatype Op =
    | CreateOp(tag: string, made: Option<Member>, startOk: bool, closeOk: bool)
    | RemoveOp(tag: string, closeOk: bool)
    | StartOp(stage: nat, endpoints: seq<Member>, fallback: Option<Member>)

  function Apply(s: State, defaultTag: string, op: Op): (State, Status) {
    match op
    case CreateOp(tag, made, startOk, closeOk) => Create(s, defaultTag, tag, made, startOk, closeOk)
    case RemoveOp(tag, closeOk) => Remove(s, tag, closeOk)
    case StartOp(stage, endpoints, fallback) => Prepare(s, defaultTag, stage, endpoints, fallback)
  }

  function Run(s: State, defaultTag: string, ops: seq<Op>): State {
    if ops == [] then s else Apply(Run(s, defaultTag, ops[..|ops| - 1]), defaultTag, ops[|ops| - 1]).0
  }

  /** The second clause is why the fallback outbound can never clash with a listed one. */
  ghost predicate Inv(s: State, defaultTag: string) {
    Consistent(s.ix) && (defaultTag == "" && s.default.None? ==> s.ix.list == [])
  }

  /** Every created member has a duplicate-free dependency list, and the fallback has none. */
  ghost predicate CleanDeps(op: Op) {
    && (op.CreateOp? && op.made.Some? ==> DuplicateFree(op.made.value.deps))
    && (op.StartOp? && op.fallback.Some? ==> op.fallback.value.deps == [])
  }

  ghost predicate CleanState(s: State) {
    Complete(s.ix) && forall m :: m in s.ix.list ==> DuplicateFree(m.deps)
  }

  lemma CreateKeeps(s: State, defaultTag: string, op: Op)
    requires Inv(s, defaultTag) && op.CreateOp?
    ensures var r := Apply(s, defaultTag, op);
            !r.1.IndexPanic? && Inv(r.0, defaultTag) && (CleanDeps(op) && CleanState(s) ==> CleanState(r.0))
  {
    var r := Apply(s, defaultTag, op);
    if r.1.Ok? {
      var m := op.made.value.(tag := op.tag);
      ReplaceKeeps(s.ix, m);
    }
  }

  lemma RemoveKeeps(s: State, defaultTag: string, op: Op)
    requires Inv(s, defaultTag) && op.RemoveOp?
    ensures var r := Apply(s, defaultTag, op);
            !r.1.IndexPanic? && Inv(r.0, defaultTag) && (CleanState(s) ==> CleanState(r.0))
  {
    var tag := op.tag;
    if tag in s.ix.byTag {
      var gone := s.ix.byTag[tag];
      DetachKeeps(s.ix, tag);
      var ix := Detach(s.ix, tag);
      if CleanState(s) {
        DropKeepsCompleteExactly(ix, gone);
        DuplicateFreeNeverLoses(ix, gone);
      }
    }
  }

  lemma StartKeeps(s: State, defaultTag: string, op: Op)
    requires Inv(s, defaultTag) && op.StartOp?
    ensures var r := Apply(s, defaultTag, op);
            !r.1.IndexPanic? && Inv(r.0, defaultTag) && (CleanDeps(op) && CleanState(s) ==> CleanState(r.0))
  {
    if s.ix.list == [] {
      assert s.ix.byTag == map[] by { assert forall t :: t in s.ix.byTag ==> s.ix.byTag[t] in s.ix.list; }
    }
  }

  lemma StepKeeps(s: State, defaultTag: string, op: Op)
    requires Inv(s, defaultTag)
    ensures var r := Apply(s, defaultTag, op);
            !r.1.IndexPanic? && Inv(r.0, defaultTag) && (CleanDeps(op) && CleanState(s) ==> CleanState(r.0))
  {
    match op
    case CreateOp(_, _, _, _) => CreateKeeps(s, defaultTag, op);
    case RemoveOp(_, _) => RemoveKeeps(s, defaultTag, op);
    case StartOp(_, _, _) => StartKeeps(s, defaultTag, op);
  }

  /** In every run the list stays duplicate-free and in bijection with the map, so the
      index panics cannot happen; with clean dependency lists the reverse index stays complete. */
  lemma {:induction false} RunKeeps(defaultTag: string, ops: seq<Op>)
    ensures Inv(Run(FRESH, defaultTag, ops), defaultTag)
    ensures forall op :: !Apply(Run(FRESH, defaultTag, ops), defaultTag, op).1.IndexPanic?
    ensures (forall op :: op in ops ==> CleanDeps(op)) ==> CleanState(Run(FRESH, defaultTag, ops))
  {
    if ops == [] {
    } else {
      var front, op := ops[..|ops| - 1], ops[|ops| - 1];
      RunKeeps(defaultTag, front);
      StepKeeps(Run(FRESH, defaultTag, front), defaultTag, op);
      assert forall x :: x in front ==> x in ops;
    }
    forall op { StepKeeps(Run(FRESH, defaultTag, ops), defaultTag, op); }
  }

  /** Remove succeeds only when no listed outbound depends on the tag. */
  lemma RemoveIsSafe(defaultTag: string, ops: seq<Op>, tag: string, closeOk: bool)
    requires forall op :: op in ops ==> CleanDeps(op)
    ensures var before := Run(FRESH, defaultTag, ops);
            var (after, status) := Remove(before, tag, closeOk);
            status.Ok? || status.CloseError? ==> !DependedOn(before.ix, tag) && !DependedOn(after.ix, tag)
  {
    RunKeeps(defaultTag, ops);
    var before := Run(FRESH, defaultTag, ops);
    if tag in before.ix.byTag { DetachKeeps(before.ix, tag); }
  }

  /** Endpoints have dependencies too, through their detour, but these are never recorded. */
  ghost predicate EndpointNeeds(endpoints: seq<Member>, tag: string) { exists e :: e in endpoints && tag in e.deps }

  /** Counting live endpoints as well, Remove gets past its check only for a tag that nothing needs if and only if
      no endpoint needs it or a record makes Remove refuse anyway. */
  lemma RemoveSparesEndpointsExactly(
    defaultTag: string, ops: seq<Op>, endpoints: seq<Member>, tag: string, closeOk: bool)
    requires forall op :: op in ops ==> CleanDeps(op)
    ensures var before := Run(FRESH, defaultTag, ops);
            var (after, status) := Remove(before, tag, closeOk);
            (status.Ok? || status.CloseError? ==> !DependedOn(after.ix, tag) && !EndpointNeeds(endpoints, tag)) <==>
            (tag !in before.ix.byTag || Get(before.ix.dependBy, tag) != [] || !EndpointNeeds(endpoints, tag))
  {
    RunKeeps(defaultTag, ops);
    RemoveIsSafe(defaultTag, ops, tag, closeOk);
  }

  /** Concretely: an outbound a, alone in the manager, goes although an endpoint has it as its detour. */
  lemma EndpointLosesItsDetour(a: string, ma: Member, endpoint: Member)
    requires a != "" && ma == Member(a, [], "x", 0) && endpoint == Member("ep", [a], "x", 1)
    ensures Remove(Run(FRESH, "", [Registration(ma)]), a, true).1.Ok? && EndpointNeeds([endpoint], a)
  {
    Registered([], ma);
    assert [] + [Registration(ma)] == [Registration(ma)];
    assert [ma][0] == ma && [a][0] == a && [endpoint][0] == endpoint;
  }

  /** For one Remove on any complete index, repeated dependencies included: the reverse
      index stays complete exactly when no repeated dependency loses its last live record. */
  lemma RemoveKeepsCompleteExactly(s: State, tag: string, closeOk: bool)
    requires Consistent(s.ix) && Complete(s.ix) && tag in s.ix.byTag && Get(s.ix.dependBy, tag) == []
    ensures Complete(Remove(s, tag, closeOk).0.ix) <==> !LosesRecord(Detach(s.ix, tag), s.ix.byTag[tag])
  {
    DetachKeeps(s.ix, tag);
    DropKeepsCompleteExactly(Detach(s.ix, tag), s.ix.byTag[tag]);
  }

  /** a depends on c and b lists c twice.  Whatever the three tags are, removing b
      erases a's record, and then c can be removed although a is live and depends on it. */
  lemma RepeatedDependencyLosesRecord(a: string, b: string, c: string)
    requires a != b && b != c && a != c && a != "" && b != "" && c != ""
    ensures var s := Run(FRESH, "", [Registration(Member(c, [], "", 0)), Registration(Member(a, [c], "", 1)),
                                     Registration(Member(b, [c, c], "", 2))]);
            var s' := Remove(s, b, true).0;
            Remove(s', c, true).1.Ok? && DependedOn(Remove(s', c, true).0.ix, c)
  {
    var mc, ma, mb := Member(c, [], "", 0), Member(a, [c], "", 1), Member(b, [c, c], "", 2);
    var three := [Registration(mc), Registration(ma), Registration(mb)];
    ThreeRegistered(mc, ma, mb);
    var s3 := Run(FRESH, "", three);
    assert Consistent(s3.ix) by { RunKeeps("", three); }
    ThreeRecords(a, b, c);
    RemovingErases(s3, ma, mb, mc);
  }

  function Registration(m: Member): Op { CreateOp(m.tag, Some(m), true, true) }

  lemma Registered(ops: seq<Op>, m: Member)
    requires var s := Run(FRESH, "", ops); m.tag != "" && m.tag !in s.ix.byTag && !s.started
    ensures var s, s' := Run(FRESH, "", ops), Run(FRESH, "", ops + [Registration(m)]);
            s'.ix == Attach(s.ix, m) && !s'.started
  {
    assert (ops + [Registration(m)])[..|ops|] == ops;
  }

  lemma ThreeRegistered(x: Member, y: Member, z: Member)
    requires x.tag != y.tag && y.tag != z.tag && x.tag != z.tag && x.tag != "" && y.tag != "" && z.tag != ""
    ensures var s := Run(FRESH, "", [Registration(x), Registration(y), Registration(z)]);
            && s.ix.byTag == map[x.tag := x, y.tag := y, z.tag := z] && !s.started
            && s.ix.dependBy == RecordDeps(RecordDeps(RecordDeps(map[], x.deps, x.tag), y.deps, y.tag), z.deps, z.tag)
  {
    Registered([], x);
    assert [] + [Registration(x)] == [Registration(x)];
    Registered([Registration(x)], y);
    assert [Registration(x)] + [Registration(y)] == [Registration(x), Registration(y)];
    Registered([Registration(x), Registration(y)], z);
    assert [Registration(x), Registration(y)] + [Registration(z)] ==
      [Registration(x), Registration(y), Registration(z)];
  }

  lemma RemovingErases(s3: State, ma: Member, mb: Member, mc: Member)
    requires ma.tag != mb.tag && mb.tag != mc.tag && ma.tag != mc.tag
    requires Consistent(s3.ix) && s3.ix.byTag == map[mc.tag := mc, ma.tag := ma, mb.tag := mb] && !s3.started
    requires ma.deps == [mc.tag] && mb.deps == [mc.tag, mc.tag]
    requires Get(s3.ix.dependBy, mc.tag) == [ma.tag, mb.tag, mb.tag] && Get(s3.ix.dependBy, mb.tag) == []
    ensures var s4 := Remove(s3, mb.tag, true).0;
            Remove(s4, mc.tag, true).1.Ok? && DependedOn(Remove(s4, mc.tag, true).0.ix, mc.tag)
  {
    assert s3.ix.byTag[ma.tag] == ma && s3.ix.byTag[mb.tag] == mb && s3.ix.byTag[mc.tag] == mc;
    RecordErased(s3.ix.dependBy, ma.tag, mb.tag, mc.tag);
    RemoveUnneeded(s3, mb.tag);
    var s4 := Remove(s3, mb.tag, true).0;
    RemoveUnneeded(s4, mc.tag);
    assert ma in s4.ix.list;
  }

  lemma RecordErased(db: DependIndex, a: string, b: string, c: string)
    requires a != b && Get(db, c) == [a, b, b]
    ensures Get(DropDeps(db, [c, c], b), c) == []
  {
    assert [a, b, b][1] == b;
    DropDepsExact(db, [c, c], b, c);
    FilterThree(a, b);
    assert multiset([c, c])[c] == 2;
  }

  /** Removing a tag without recorded dependents takes out its member and no other. */
  lemma RemoveUnneeded(s: State, tag: string)
    requires Consistent(s.ix) && tag in s.ix.byTag && !s.started && Get(s.ix.dependBy, tag) == []
    ensures var (s', status) := Remove(s, tag, true);
            && status.Ok? && Consistent(s'.ix) && !s'.started && s'.ix.byTag == s.ix.byTag - {tag}
            && s'.ix.dependBy == DropDeps(s.ix.dependBy, s.ix.byTag[tag].deps, tag)
            && forall m :: m in s'.ix.list <==> m in s.ix.list && m.tag != tag
  {
    DetachKeeps(s.ix, tag);
  }

  lemma ThreeRecords(a: string, b: string, c: string)
    requires a != b && b != c && a != c
    ensures var db := RecordDeps(RecordDeps(RecordDeps(map[], [], c), [c], a), [c, c], b);
            Get(db, c) == [a, b, b] && Get(db, b) == []
  {
    var db1 := RecordDeps(map[], [], c);
    var db2 := RecordDeps(db1, [c], a);
    RecordDepsAt(db1, [c], a, c);
    RecordDepsAt(db1, [c], a, b);
    RecordDepsAt(db2, [c, c], b, c);
    RecordDepsAt(db2, [c, c], b, b);
    assert Copies(a, 1) == [a] && Copies(b, 2) == [b] + Copies(b, 1);
    assert Get(db2, c) == [a];
  }

  lemma FilterThree(x: string, t: string)
    requires x != t
    ensures Filter([x, t, t], t) == [x]
  {
    assert Filter([t], t) == [];
    assert [t, t][1..] == [t];
    assert Filter([t, t], t) == [];
    assert [x, t, t][1..] == [t, t];
  }

  /** The default is a listed outbound. */
  ghost predicate DefaultListed(s: State) { s.default.Some? && s.default.value in s.ix.list }

  /** A re-created outbound leaves the default pointing at the closed old one exactly when the replaced member
      was the default and its tag is not the configured default.  A default that is an endpoint stays one. */
  lemma CreateStrandsDefaultExactly(
    s: State, defaultTag: string, tag: string, made: Member, startOk: bool, closeOk: bool)
    requires Consistent(s.ix) && (tag in s.ix.byTag ==> made.(tag := tag) != s.ix.byTag[tag])
    requires Create(s, defaultTag, tag, Some(made), startOk, closeOk).1.Ok?
    ensures var s' := Create(s, defaultTag, tag, Some(made), startOk, closeOk).0;
            && ((DefaultListed(s) && s'.default == s.default && !DefaultListed(s')) <==>
                (tag in s.ix.byTag && s.default == Some(s.ix.byTag[tag]) && tag != defaultTag))
            && (s'.default != s.default ==> s'.default == Some(made.(tag := tag)) && DefaultListed(s'))
  {
    if tag in s.ix.byTag { DetachKeeps(s.ix, tag); }
    assert (made.(tag := tag)) in Replace(s.ix, made.(tag := tag)).list;
  }

  // ----- Refused removals -----

  /** Remove refuses exactly when something live depends on the tag, as long as every record is live. */
  lemma RemoveRefusesExactly(s: State, tag: string, closeOk: bool)
    requires Consistent(s.ix) && Complete(s.ix) && RecordsLive(s.ix) && tag in s.ix.byTag
    ensures Remove(s, tag, closeOk).1.DependedBy? <==> DependedOn(s.ix, tag)
  {
    RecordedExactly(s.ix, tag);
  }

  /** A successful Create keeps every record live if and only if it does not replace a member that has a dependency
      the new one lacks. */
  lemma CreateKeepsRecordsLiveExactly(
    s: State, defaultTag: string, tag: string, made: Member, startOk: bool, closeOk: bool)
    requires Consistent(s.ix) && Complete(s.ix) && RecordsLive(s.ix)
    requires Create(s, defaultTag, tag, Some(made), startOk, closeOk).1.Ok?
    ensures RecordsLive(Create(s, defaultTag, tag, Some(made), startOk, closeOk).0.ix) <==>
            (tag in s.ix.byTag ==> forall d :: d in s.ix.byTag[tag].deps ==> d in made.deps)
  {
    ReplaceKeepsRecordsLiveExactly(s.ix, made.(tag := tag));
  }

  /** A Remove keeps every record live if and only if it is not refused or the member, which is gone all the
      same, had no dependency. */
  lemma RemoveKeepsRecordsLiveExactly(s: State, tag: string, closeOk: bool)
    requires Consistent(s.ix) && Complete(s.ix) && RecordsLive(s.ix) && tag in s.ix.byTag
    ensures RecordsLive(Remove(s, tag, closeOk).0.ix) <==> (!DependedOn(s.ix, tag) || s.ix.byTag[tag].deps == [])
  {
    RecordedExactly(s.ix, tag);
    DetachKeepsRecordsLiveExactly(s.ix, tag);
    DropKeepsRecordsLive(s.ix, tag);
  }

  /** Concretely: outbound a, created with dependency c and again without it, leaves a record that makes
      Remove refuse c although nothing live depends on it. */
  lemma StaleRecordRefuses(a: string, c: string, ma: Member, mb: Member, mc: Member)
    requires a != c && a != "" && c != "" && ma == Member(a, [c], "x", 1) && mb == Member(a, [], "x", 2)
    requires mc == Member(c, [], "x", 0)
    ensures var s := Run(FRESH, "", [Registration(mc), Registration(ma), Registration(mb)]);
            Remove(s, c, true).1 == DependedBy([a]) && c in s.ix.byTag && !DependedOn(s.ix, c)
  {
    var two := [Registration(mc), Registration(ma)];
    TwoRegistered(mc, ma);
    OneRecord(a, c);
    RunKeeps("", two);
    Recreated(Run(FRESH, "", two), two, mb);
    assert two + [Registration(mb)] == [Registration(mc), Registration(ma), Registration(mb)];
    RefusedForNobody(Run(FRESH, "", two + [Registration(mb)]), a, c, mb, mc);
  }

  lemma TwoRegistered(x: Member, y: Member)
    requires x.tag != y.tag && x.tag != "" && y.tag != ""
    ensures var s := Run(FRESH, "", [Registration(x), Registration(y)]);
            && s.ix == Attach(Attach(EMPTY, x), y) && !s.started
            && forall m :: m in s.ix.list <==> m == x || m == y
  {
    Registered([], x);
    assert [] + [Registration(x)] == [Registration(x)];
    Registered([Registration(x)], y);
    assert [Registration(x)] + [Registration(y)] == [Registration(x), Registration(y)];
    assert Attach(Attach(EMPTY, x), y).list == [x, y];
    assert [x, y][0] == x && [x, y][1] == y;
  }

  lemma OneRecord(a: string, c: string)
    ensures Get(RecordDeps(RecordDeps(map[], [], c), [c], a), c) == [a]
  {
    RecordDepsAt(map[], [c], a, c);
    assert Copies(a, 1) == [a] + Copies(a, 0);
  }

  lemma RefusedForNobody(s: State, a: string, c: string, mb: Member, mc: Member)
    requires c in s.ix.byTag && s.ix.byTag[c] == mc && Get(s.ix.dependBy, c) == [a] && mb.deps == [] && mc.deps == []
    requires mc in s.ix.list && forall x :: x in s.ix.list ==> x == mb || x == mc
    ensures Remove(s, c, true).1 == DependedBy([a]) && !DependedOn(s.ix, c)
  {
  }

  lemma Recreated(s: State, ops: seq<Op>, m: Member)
    requires s == Run(FRESH, "", ops) && Consistent(s.ix) && !s.started && m.tag != "" && m.tag in s.ix.byTag
    requires m.deps == []
    ensures var s' := Run(FRESH, "", ops + [Registration(m)]);
            && s'.ix.byTag == s.ix.byTag[m.tag := m] && s'.ix.dependBy == s.ix.dependBy
            && forall x :: x in s'.ix.list <==> x == m || (x in s.ix.list && x.tag != m.tag)
  {
    assert (ops + [Registration(m)])[..|ops|] == ops;
    assert Run(FRESH, "", ops + [Registration(m)]).ix == Replace(s.ix, m);
    ReplacedBare(s.ix, m);
  }

  lemma ReplacedBare(ix: Index, m: Member)
    requires Consistent(ix) && m.tag in ix.byTag && m.deps == []
    ensures var ix' := Replace(ix, m);
            && ix'.byTag == ix.byTag[m.tag := m] && ix'.dependBy == ix.dependBy
            && forall x :: x in ix'.list <==> x == m || (x in ix.list && x.tag != m.tag)
  {
    assert forall x :: x in Replace(ix, m).list <==> x == m || (x in ix.list && x.tag != m.tag) by {
      ReplaceKeeps(ix, m);
    }
    Overwritten(ix.byTag, m);
  }

  lemma Overwritten(byTag: map<string, Member>, m: Member)
    ensures (byTag - {m.tag})[m.tag := m] == byTag[m.tag := m]
  {
  }

  /** After Close the map still holds the tags, so Remove reaches the index panic. */
  lemma RemoveAfterClosePanics(s: State, tag: string, closeOk: bool)
    requires s.started && tag in s.ix.byTag
    ensures Remove(Close(s), tag, closeOk).1.IndexPanic?
  {
  }

  // ----- Starting the members -----

  ghost predicate TagsApart(a: seq<Member>, b: seq<Member>) {
    forall x, y :: x in a && y in b ==> x.tag != y.tag
  }

  ghost predicate DistinctMembers(s: seq<Member>) {
    forall i, j :: 0 <= i < j < |s| ==> s[i].tag != s[j].tag
  }

  lemma JoinedDistinct(a: seq<Member>, b: seq<Member>)
    requires DistinctMembers(a) && DistinctMembers(b) && TagsApart(a, b)
    ensures DistinctMembers(a + b)
  {
  }

  lemma DistinctSplits(a: seq<Member>, b: seq<Member>)
    requires DistinctMembers(a + b)
    ensures DistinctMembers(b) && TagsApart(a, b)
  {
    var s := a + b;
    assert forall j :: 0 <= j < |b| ==> s[|a| + j] == b[j];
    forall x, y | x in a && y in b ensures x.tag != y.tag {
      var i :| 0 <= i < |a| && a[i] == x;
      var j :| 0 <= j < |b| && b[j] == y;
      assert s[i].tag != s[|a| + j].tag;
    }
  }

  lemma StartListDistinct(ix: Index, endpoints: seq<Member>)
    requires Consistent(ix)
    ensures DS.DistinctTags(Items(ix.list + endpoints)) <==>
            DS.DistinctTags(Items(endpoints)) && TagsApart(ix.list, endpoints)
  {
    assert DistinctMembers(ix.list);
    if DistinctMembers(ix.list + endpoints) {
      DistinctSplits(ix.list, endpoints);
    } else if DistinctMembers(endpoints) && TagsApart(ix.list, endpoints) {
      JoinedDistinct(ix.list, endpoints);
    }
    ItemsDistinct(ix.list + endpoints);
    ItemsDistinct(endpoints);
  }

  lemma ItemsDistinct(members: seq<Member>)
    ensures DS.DistinctTags(Items(members)) <==> DistinctMembers(members)
  {
    var items := Items(members);
    assert forall i :: 0 <= i < |members| ==> items[i].tag == members[i].tag;
  }

  /** A "not found" report is false, because the member is listed, exactly when it names an endpoint; that endpoint
      could then not have been started by any order. */
  lemma NotFoundIsFalseExactlyForEndpoints(
    ix: Index, endpoints: seq<Member>, order: seq<string>, outcome: DS.Outcome, other: seq<string>)
    requires Consistent(ix)
    requires DS.Stuck(Items(ix.list + endpoints), DS.Elements(order)) && outcome.NotFound?
    requires DS.Truthful(Items(ix.list + endpoints), ItemIndex(ix.byTag), DS.Elements(order), outcome)
    requires DS.StartOrder(Items(ix.list + endpoints), other)
    ensures DS.Listed(Items(ix.list + endpoints), outcome.dependency) <==>
              exists e :: e in endpoints && e.tag == outcome.dependency
    ensures outcome.dependency !in other
  {
    var all := ix.list + endpoints;
    var items := Items(all);
    if DS.Listed(items, outcome.dependency) {
      var k :| 0 <= k < |items| && items[k].tag == outcome.dependency;
      assert all[k] in ix.list || all[k] in endpoints;
    }
    if e :| e in endpoints && e.tag == outcome.dependency {
      var k :| 0 <= k < |endpoints| && endpoints[k] == e;
      assert items[|ix.list| + k].tag == outcome.dependency;
    }
    DS.StuckIsMaximal(items, DS.Elements(order), other);
    assert forall t :: t in other ==> t in DS.Elements(other);
  }

  /** The outbound diagnosis looks only in the outbound map: a self-dependent endpoint
      that an outbound needs is reported as not found although it is listed. */
  lemma EndpointCycleReportedAsMissing()
    ensures var items := [DS.Item("out", ["ep"]), DS.Item("ep", ["ep"])];
            DS.Lint(map["out" := items[0]], {}, ["out"], items[0]) == DS.NotFound("ep", "out") && DS.Listed(items, "ep")
  {
    var items := [DS.Item("out", ["ep"]), DS.Item("ep", ["ep"])];
    assert items[1].tag == "ep";
    assert "out" != "ep" by { assert |"out"| != |"ep"|; }
    assert "ep" in items[0].deps by { assert items[0].deps[0] == "ep"; }
    assert DS.FirstUnstarted(items[0].deps, {}) == "ep";
  }

  // ----- The class -----

  class Manager {
    const defaultTag: string
    var started: bool
    var stage: nat
    var outbounds: seq<Member>
    var outboundByTag: map<string, Member>
    var dependByTag: DependIndex
    var defaultOutbound: Option<Member>

    ghost function Abs(): State
      reads this
    {
      State(Index(outbounds, outboundByTag, dependByTag), defaultOutbound, started, stage)
    }

    constructor (defaultTag: string)
      ensures this.defaultTag == defaultTag && Abs() == FRESH && Inv(Abs(), defaultTag)
    {
      this.defaultTag := defaultTag;
      started, stage, outbounds, outboundByTag, dependByTag, defaultOutbound := false, 0, [], map[], map[], None;
    }

    method CreateOutbound(tag: string, made: Option<Member>, startOk: bool, closeOk: bool) returns (status: Status)
      modifies this
      ensures (Abs(), status) == Create(old(Abs()), defaultTag, tag, made, startOk, closeOk)
      ensures old(Inv(Abs(), defaultTag)) ==> Inv(Abs(), defaultTag) && !status.IndexPanic?
    {
      ghost var before := Abs();
      status := PutIn(tag, made, startOk, closeOk);
      if Inv(before, defaultTag) { StepKeeps(before, defaultTag, CreateOp(tag, made, startOk, closeOk)); }
    }

    /** The body of Create. */
    method PutIn(tag: string, made: Option<Member>, startOk: bool, closeOk: bool) returns (status: Status)
      modifies this
      ensures (Abs(), status) == Create(old(Abs()), defaultTag, tag, made, startOk, closeOk)
    {
      if tag == "" { return Invalid; }
      if made.None? { return RegistryError; }
      if started && !startOk { return StartError; }
      var m := made.value.(tag := tag);
      if tag in outboundByTag && started && !closeOk { return CloseError; }
      var ok, list, byTag, db := ReplaceIn(outbounds, outboundByTag, dependByTag, m);
      if !ok { return IndexPanic; }
      outbounds, outboundByTag, dependByTag := list, byTag, db;
      if tag == defaultTag || (defaultTag == "" && defaultOutbound.None?) {
        defaultOutbound := Some(m);
      }
      return Ok;
    }

    method RemoveOutbound(tag: string, closeOk: bool) returns (status: Status)
      modifies this
      ensures (Abs(), status) == Remove(old(Abs()), tag, closeOk)
      ensures old(Inv(Abs(), defaultTag)) ==> Inv(Abs(), defaultTag) && !status.IndexPanic?
    {
      ghost var before := Abs();
      status := TakeOut(tag, closeOk);
      if Inv(before, defaultTag) { StepKeeps(before, defaultTag, RemoveOp(tag, closeOk)); }
    }

    /** The body of Remove. */
    method TakeOut(tag: string, closeOk: bool) returns (status: Status)
      modifies this
      ensures (Abs(), status) == Remove(old(Abs()), tag, closeOk)
    {
      if tag !in outboundByTag { return Invalid; }
      var gone := outboundByTag[tag];
      var ok;
      ok, outbounds, outboundByTag := DetachIn(outbounds, outboundByTag, tag);
      if !ok { return IndexPanic; }
      if defaultOutbound == Some(gone) {
        defaultOutbound := if |outbounds| > 0 then Some(outbounds[0]) else None;
      }
      var dependBy := Get(dependByTag, tag);
      if |dependBy| > 0 { return DependedBy(dependBy); }
      dependByTag := DropAll(dependByTag, gone.deps, tag);
      return if started && !closeOk then CloseError else Ok;
    }

    /** The part of Start under the lock: stage, default, fallback. */
    method PrepareStart(newStage: nat, endpoints: seq<Member>, fallback: Option<Member>) returns (status: Status)
      requires Inv(Abs(), defaultTag)
      modifies this
      ensures (Abs(), status) == Prepare(old(Abs()), defaultTag, newStage, endpoints, fallback)
      ensures Inv(Abs(), defaultTag)
    {
      StepKeeps(Abs(), defaultTag, StartOp(newStage, endpoints, fallback));
      if started && stage >= newStage { return AlreadyStarted; }
      started, stage := true, newStage;
      if newStage != START_STAGE { return Ok; }
      if defaultTag != "" && defaultOutbound.None? {
        var found := FindTag(endpoints, defaultTag);
        if found.None? { return DefaultNotFound; }
        defaultOutbound := found;
      }
      if defaultOutbound.None? {
        if fallback.None? { return FallbackError; }
        outbounds := outbounds + [fallback.value];
        outboundByTag := outboundByTag[fallback.value.tag := fallback.value];
        defaultOutbound := fallback;
      }
      return Ok;
    }

    /** Start: `order` lists the tags whose own start was called, in call order. */
    method Start(newStage: nat, endpoints: seq<Member>, fallback: Option<Member>, fails: set<string>)
      returns (status: Status, outcome: DS.Outcome, order: seq<string>)
      requires Inv(Abs(), defaultTag)
      modifies this
      ensures (Abs(), status) == Prepare(old(Abs()), defaultTag, newStage, endpoints, fallback)
      ensures Inv(Abs(), defaultTag)
      ensures !status.Ok? ==> order == []
      ensures status.Ok? && newStage == START_STAGE ==>
        var items := Items(outbounds + endpoints);
        && DS.StartOrder(items, order)
        && (outcome.Started? <==>
              DS.DistinctTags(Items(endpoints)) && TagsApart(outbounds, endpoints) &&
              DS.Closed(items) && DS.Acyclic(items) && DS.NoneFails(items, fails))
        && (DS.Closed(items) && DS.Acyclic(items) && DS.NoneFails(items, fails) && !TagsApart(outbounds, endpoints) ==>
              outcome.NilDereference?)
        && (outcome.Circular? || outcome.NotFound? ==>
              DS.Truthful(items, ItemIndex(outboundByTag), DS.Elements(order), outcome))
      ensures status.Ok? && newStage != START_STAGE ==>
        |order| <= |outbounds| && (forall i :: 0 <= i < |order| ==> order[i] == outbounds[i].tag) &&
        (outcome.Started? <==> DS.NoneFails(Items(outbounds), fails)) && (outcome.Started? ==> |order| == |outbounds|)
    {
      outcome, order := DS.Started, [];
      status := PrepareStart(newStage, endpoints, fallback);
      if !status.Ok? { return; }
      if newStage == START_STAGE {
        StartListAgrees(Index(outbounds, outboundByTag, dependByTag), endpoints);
        StartListDistinct(Index(outbounds, outboundByTag, dependByTag), endpoints);
        outcome, order := DS.StartAll(Items(outbounds + endpoints), ItemIndex(outboundByTag), fails);
      } else {
        outcome, order := StartStage(outbounds, fails);
      }
    }

    method CloseAll()
      modifies this
      ensures Abs() == Close(old(Abs()))
    {
      if !started { return; }
      started, outbounds := false, [];
    }
  }
}
