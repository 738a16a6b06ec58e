/** The per-question lock of the DNS client's Exchange.

    Any number of cache-enabled exchanges run concurrently.  Each does LoadOrStore on the
    lock map; the one that stored leads, the others wait for its channel, then all look in
    the cache and call the transport on a miss.  The leader's deferred function deletes the
    entry and then closes the channel, as two separate steps.  A transport call may or may not
    lead to a stored answer, and the cache may evict at any time. */
module QuestionLock {
  import opened Optional

  datatype Key = Key(question: string, tag: string)

  datatype Role = Leader(channel: nat) | Follower

  datatype Pc =
    | Arriving
    | Waiting(channel: nat)
    | Loading(role: Role)
    | Missed(role: Role)                 // before the transport call: loopback and rejection-cache checks
    | Calling(role: Role)
    | Unlocking(channel: nat)            // deferred: Delete comes next
    | Closing(channel: nat)              // deferred: close(cond) comes next
    | Ended

  datatype Exchange = Exchange(question: string, tag: string, pc: Pc)

  datatype State = State(
    exchanges: map<nat, Exchange>,
    lock: map<string, nat>,
    nextChannel: nat,
    closings: seq<nat>,
    cache: set<Key>,
    calls: seq<nat>)                     // exchanges that called their transport, in order

  datatype Step =
    | Enter(id: nat)
    | Wake(id: nat)
    | Load(id: nat)
    | GiveUp(id: nat)
    | Call(id: nat)
    | Return(id: nat, stored: bool)
    | Delete(id: nat)
    | Close(id: nat)
    | Evict(key: Key)

  /** In independent mode answers are filed per transport; the lock is per question either way. */
  function KeyOf(independent: bool, x: Exchange): Key {
    Key(x.question, if independent then x.tag else "")
  }

  ghost predicate Fresh(s: State) {
    (forall id :: id in s.exchanges ==> s.exchanges[id].pc.Arriving?) &&
    s.lock == map[] && s.nextChannel == 0 && s.closings == [] && s.calls == []
  }

  predicate Enabled(s: State, step: Step) {
    step.Evict? || (step.id in s.exchanges &&
      var pc := s.exchanges[step.id].pc;
      match step
      case Enter(_) => pc.Arriving?
      case Wake(_) => pc.Waiting? && pc.channel in s.closings
      case Load(_) => pc.Loading?
      case GiveUp(_) => pc.Missed?
      case Call(_) => pc.Missed?
      case Return(_, _) => pc.Calling?
      case Delete(_) => pc.Unlocking?
      case Close(_) => pc.Closing?
      case Evict(_) => true)
  }

  function Goto(s: State, id: nat, pc: Pc): State
    requires id in s.exchanges
  {
    s.(exchanges := s.exchanges[id := s.exchanges[id].(pc := pc)])
  }

  /** Returning from Exchange: a leader still has to run its deferred function. */
  function Leave(role: Role): Pc { if role.Leader? then Unlocking(role.channel) else Ended }

  function Next(independent: bool, s: State, step: Step): State
    requires Enabled(s, step)
  {
    match step
    case Enter(id) =>
      var q := s.exchanges[id].question;
      if q in s.lock then Goto(s, id, Waiting(s.lock[q]))
      else
        Goto(s, id, Loading(Leader(s.nextChannel))).(
          lock := s.lock[q := s.nextChannel], nextChannel := s.nextChannel + 1)
    case Wake(id) => Goto(s, id, Loading(Follower))
    case Load(id) =>
      var role := s.exchanges[id].pc.role;
      Goto(s, id, if KeyOf(independent, s.exchanges[id]) in s.cache then Leave(role) else Missed(role))
    case GiveUp(id) => Goto(s, id, Leave(s.exchanges[id].pc.role))
    case Call(id) => Goto(s, id, Calling(s.exchanges[id].pc.role)).(calls := s.calls + [id])
    case Return(id, stored) =>
      Goto(s, id, Leave(s.exchanges[id].pc.role)).(
        cache := if stored then s.cache + {KeyOf(independent, s.exchanges[id])} else s.cache)
    case Delete(id) =>
      Goto(s, id, Closing(s.exchanges[id].pc.channel)).(lock := s.lock - {s.exchanges[id].question})
    case Close(id) => Goto(s, id, Ended).(closings := s.closings + [s.exchanges[id].pc.channel])
    case Evict(key) => s.(cache := s.cache - {key})
  }

  // ----- Leaders and channels -----

  /** The channel of a leader whose map entry is in place. */
  function Held(pc: Pc): Option<nat> {
    match pc
    case Loading(Leader(c)) => Some(c)
    case Missed(Leader(c)) => Some(c)
    case Calling(Leader(c)) => Some(c)
    case Unlocking(c) => Some(c)
    case _ => None
  }

  /** The channel of a leader that has yet to close it. */
  function Owned(pc: Pc): Option<nat> { if pc.Closing? then Some(pc.channel) else Held(pc) }

  ghost predicate Owns(s: State, id: nat, channel: nat) {
    id in s.exchanges && Owned(s.exchanges[id].pc) == Some(channel)
  }

  ghost predicate HasOwner(s: State, channel: nat, q: string) {
    exists id :: Owns(s, id, channel) && s.exchanges[id].question == q
  }

  ghost predicate HasHolder(s: State, q: string, channel: nat) {
    exists id :: id in s.exchanges && s.exchanges[id].question == q && Held(s.exchanges[id].pc) == Some(channel)
  }

  ghost predicate LockInv(s: State) {
    && (forall id :: id in s.exchanges && Held(s.exchanges[id].pc).Some? ==>
          s.exchanges[id].question in s.lock && s.lock[s.exchanges[id].question] == Held(s.exchanges[id].pc).value)
    && (forall q :: q in s.lock ==> HasHolder(s, q, s.lock[q]))
  }

  ghost predicate ChannelInv(s: State) {
    && (forall id :: id in s.exchanges && Owned(s.exchanges[id].pc).Some? ==>
          Owned(s.exchanges[id].pc).value < s.nextChannel && Owned(s.exchanges[id].pc).value !in s.closings)
    && (forall x, y :: x in s.exchanges && y in s.exchanges ==>
          SameChannel(s.exchanges[x].pc, s.exchanges[y].pc) ==> x == y)
    && (forall c :: c in s.closings ==> c < s.nextChannel)
    && (forall i, j :: 0 <= i < j < |s.closings| ==> s.closings[i] != s.closings[j])
  }

  predicate SameChannel(a: Pc, b: Pc) { Owned(a).Some? && Owned(a) == Owned(b) }

  ghost predicate WaitInv(s: State) {
    forall id :: id in s.exchanges && s.exchanges[id].pc.Waiting? ==>
      s.exchanges[id].pc.channel in s.closings || HasOwner(s, s.exchanges[id].pc.channel, s.exchanges[id].question)
  }

  ghost predicate Inv(s: State) { LockInv(s) && ChannelInv(s) && WaitInv(s) }

  /** Only `id`'s program counter differs. */
  ghost predicate OneMoves(s: State, s': State, id: nat) {
    && id in s.exchanges && s'.exchanges.Keys == s.exchanges.Keys
    && s'.exchanges[id].question == s.exchanges[id].question && s'.exchanges[id].tag == s.exchanges[id].tag
    && forall x :: x in s.exchanges && x != id ==> s'.exchanges[x] == s.exchanges[x]
  }

  lemma NextMovesOne(independent: bool, s: State, step: Step)
    requires Enabled(s, step) && !step.Evict?
    ensures OneMoves(s, Next(independent, s, step), step.id)
  {
  }

  /** Nobody else moved, so owners other than `id` stay owners. */
  lemma OwnersStay(s: State, s': State, id: nat, channel: nat, q: string)
    requires OneMoves(s, s', id) && HasOwner(s, channel, q)
    requires Owns(s, id, channel) ==> Owns(s', id, channel)
    ensures HasOwner(s', channel, q)
  {
    var x :| Owns(s, x, channel) && s.exchanges[x].question == q;
    assert Owns(s', x, channel);
  }

  lemma HoldersStay(s: State, s': State, id: nat, channel: nat, q: string)
    requires OneMoves(s, s', id) && HasHolder(s, q, channel)
    requires Held(s.exchanges[id].pc) == Some(channel) && s.exchanges[id].question == q ==>
              Held(s'.exchanges[id].pc) == Some(channel)
    ensures HasHolder(s', q, channel)
  {
    var x :| x in s.exchanges && s.exchanges[x].question == q && Held(s.exchanges[x].pc) == Some(channel);
    assert Held(s'.exchanges[x].pc) == Some(channel);
  }

  /** The waiting part, for a step that closes at most the mover's own channel. */
  lemma WaitersStay(s: State, s': State, id: nat)
    requires WaitInv(s) && OneMoves(s, s', id)
    requires forall c :: c in s.closings ==> c in s'.closings
    requires Owned(s.exchanges[id].pc).Some? ==>
               Owned(s'.exchanges[id].pc) == Owned(s.exchanges[id].pc) || Owned(s.exchanges[id].pc).value in s'.closings
    requires s'.exchanges[id].pc.Waiting? ==> HasOwner(s', s'.exchanges[id].pc.channel, s'.exchanges[id].question)
    ensures WaitInv(s')
  {
    forall x | x in s'.exchanges && s'.exchanges[x].pc.Waiting? && x != id
      ensures s'.exchanges[x].pc.channel in s'.closings ||
                HasOwner(s', s'.exchanges[x].pc.channel, s'.exchanges[x].question)
    {
      var c, q := s.exchanges[x].pc.channel, s.exchanges[x].question;
      if c !in s'.closings { OwnersStay(s, s', id, c, q); }
    }
  }

  lemma SameLock(s: State, s': State, id: nat)
    requires LockInv(s) && OneMoves(s, s', id) && s'.lock == s.lock
    requires Held(s'.exchanges[id].pc) == Held(s.exchanges[id].pc)
    ensures LockInv(s')
  {
    forall q | q in s'.lock ensures HasHolder(s', q, s'.lock[q]) { HoldersStay(s, s', id, s.lock[q], q); }
  }

  lemma SameChannels(s: State, s': State, id: nat)
    requires ChannelInv(s) && OneMoves(s, s', id) && s'.nextChannel == s.nextChannel && s'.closings == s.closings
    requires Owned(s'.exchanges[id].pc) == Owned(s.exchanges[id].pc)
    ensures ChannelInv(s')
  {
    forall x, y | x in s'.exchanges && y in s'.exchanges && SameChannel(s'.exchanges[x].pc, s'.exchanges[y].pc)
      ensures x == y
    {
      assert SameChannel(s.exchanges[x].pc, s.exchanges[y].pc);
    }
  }

  /** A move that leaves the lock map and every channel as they are. */
  ghost predicate Quiet(s: State, s': State, id: nat) {
    && OneMoves(s, s', id)
    && s'.lock == s.lock && s'.nextChannel == s.nextChannel && s'.closings == s.closings
    && Held(s'.exchanges[id].pc) == Held(s.exchanges[id].pc) && Owned(s'.exchanges[id].pc) == Owned(s.exchanges[id].pc)
  }

  lemma QuietSteps(independent: bool, s: State, step: Step)
    requires Enabled(s, step)
    requires step.Load? || step.GiveUp? || step.Call? || step.Return? || step.Wake?
    ensures Quiet(s, Next(independent, s, step), step.id) && !Next(independent, s, step).exchanges[step.id].pc.Waiting?
  {
    NextMovesOne(independent, s, step);
  }

  lemma QuietKeeps(independent: bool, s: State, step: Step)
    requires Inv(s) && Enabled(s, step)
    requires step.Load? || step.GiveUp? || step.Call? || step.Return? || step.Wake?
    ensures Inv(Next(independent, s, step))
  {
    var s' := Next(independent, s, step);
    QuietSteps(independent, s, step);
    SameLock(s, s', step.id);
    SameChannels(s, s', step.id);
    WaitersStay(s, s', step.id);
  }

  lemma EnterKeeps(independent: bool, s: State, step: Step)
    requires Inv(s) && Enabled(s, step) && step.Enter?
    ensures Inv(Next(independent, s, step))
  {
    var s', id := Next(independent, s, step), step.id;
    NextMovesOne(independent, s, step);
    var mine := s.exchanges[id].question;
    if mine in s.lock {
      assert HasHolder(s, mine, s.lock[mine]);
      var x :| x in s.exchanges && s.exchanges[x].question == mine && Held(s.exchanges[x].pc) == Some(s.lock[mine]);
      assert Owns(s', x, s.lock[mine]);
      SameLock(s, s', id);
      SameChannels(s, s', id);
    } else {
      NewLeader(s, s', id);
    }
    WaitersStay(s, s', id);
  }

  lemma NewLeader(s: State, s': State, id: nat)
    requires LockInv(s) && ChannelInv(s) && OneMoves(s, s', id) && Owned(s.exchanges[id].pc).None?
    requires s.exchanges[id].question !in s.lock && s'.exchanges[id].pc == Loading(Leader(s.nextChannel))
    requires s'.lock == s.lock[s.exchanges[id].question := s.nextChannel]
    requires s'.nextChannel == s.nextChannel + 1 && s'.closings == s.closings
    ensures LockInv(s') && ChannelInv(s')
  {
    forall q | q in s'.lock ensures HasHolder(s', q, s'.lock[q]) {
      if q in s.lock { HoldersStay(s, s', id, s.lock[q], q); }
      else { assert Held(s'.exchanges[id].pc) == Some(s'.lock[q]); }
    }
    NewChannel(s, s', id);
  }

  lemma NewChannel(s: State, s': State, id: nat)
    requires ChannelInv(s) && OneMoves(s, s', id) && s'.exchanges[id].pc == Loading(Leader(s.nextChannel))
    requires s'.nextChannel == s.nextChannel + 1 && s'.closings == s.closings
    ensures ChannelInv(s')
  {
    forall x, y | x in s'.exchanges && y in s'.exchanges && SameChannel(s'.exchanges[x].pc, s'.exchanges[y].pc)
      ensures x == y
    {
      if x != id && y != id { assert SameChannel(s.exchanges[x].pc, s.exchanges[y].pc); }
    }
  }

  lemma DeleteKeeps(independent: bool, s: State, step: Step)
    requires Inv(s) && Enabled(s, step) && step.Delete?
    ensures Inv(Next(independent, s, step))
  {
    var s' := Next(independent, s, step);
    NextMovesOne(independent, s, step);
    EntryGoes(s, s', step.id);
    SameChannels(s, s', step.id);
    WaitersStay(s, s', step.id);
  }

  lemma OtherHoldersElsewhere(s: State, id: nat, x: nat)
    requires Inv(s) && id in s.exchanges && x in s.exchanges && x != id
    requires Held(s.exchanges[id].pc).Some? && Held(s.exchanges[x].pc).Some?
    ensures s.exchanges[x].question != s.exchanges[id].question
  {
    if s.exchanges[x].question == s.exchanges[id].question { HolderIsUnique(s, x, id); }
  }

  lemma EntryGoes(s: State, s': State, id: nat)
    requires Inv(s) && OneMoves(s, s', id) && s.exchanges[id].pc.Unlocking?
    requires s'.exchanges[id].pc == Closing(s.exchanges[id].pc.channel)
    requires s'.lock == s.lock - {s.exchanges[id].question}
    ensures LockInv(s')
  {
    forall x | x in s'.exchanges && Held(s'.exchanges[x].pc).Some?
      ensures s.exchanges[x].question != s.exchanges[id].question
    {
      OtherHoldersElsewhere(s, id, x);
    }
    forall q | q in s'.lock ensures HasHolder(s', q, s'.lock[q]) { HoldersStay(s, s', id, s.lock[q], q); }
  }

  lemma CloseKeeps(independent: bool, s: State, step: Step)
    requires Inv(s) && Enabled(s, step) && step.Close?
    ensures Inv(Next(independent, s, step))
  {
    var s', id := Next(independent, s, step), step.id;
    NextMovesOne(independent, s, step);
    assert LockInv(s') by { SameLock(s, s', id); }
    assert ChannelInv(s') by { ChannelCloses(s, s', id); }
    assert s.exchanges[id].pc.channel in s'.closings by {
      assert s'.closings[|s.closings|] == s.exchanges[id].pc.channel;
    }
    WaitersStay(s, s', id);
  }

  lemma ChannelCloses(s: State, s': State, id: nat)
    requires ChannelInv(s) && OneMoves(s, s', id) && s.exchanges[id].pc.Closing? && s'.exchanges[id].pc.Ended?
    requires s'.nextChannel == s.nextChannel && s'.closings == s.closings + [s.exchanges[id].pc.channel]
    ensures ChannelInv(s')
    ensures forall c :: c in s'.closings <==> c in s.closings || c == s.exchanges[id].pc.channel
  {
    var ch := s.exchanges[id].pc.channel;
    assert s'.closings[|s.closings|] == ch;
    assert forall c :: c in s'.closings <==> c in s.closings || c == ch;
    forall x | x in s'.exchanges && Owned(s'.exchanges[x].pc).Some?
      ensures Owned(s'.exchanges[x].pc).value !in s'.closings
    {
      assert SameChannel(s.exchanges[x].pc, s.exchanges[id].pc) ==> x == id;
    }
    forall x, y | x in s'.exchanges && y in s'.exchanges && SameChannel(s'.exchanges[x].pc, s'.exchanges[y].pc)
      ensures x == y
    {
      assert SameChannel(s.exchanges[x].pc, s.exchanges[y].pc);
    }
  }

  lemma EvictKeeps(independent: bool, s: State, step: Step)
    requires Inv(s) && step.Evict?
    ensures Inv(Next(independent, s, step))
  {
    var s' := Next(independent, s, step);
    forall q | q in s'.lock ensures HasHolder(s', q, s'.lock[q]) { assert HasHolder(s, q, s.lock[q]); }
    forall id | id in s'.exchanges && s'.exchanges[id].pc.Waiting?
      ensures s'.exchanges[id].pc.channel in s'.closings ||
                HasOwner(s', s'.exchanges[id].pc.channel, s'.exchanges[id].question)
    {
      var c, q := s.exchanges[id].pc.channel, s.exchanges[id].question;
      if c !in s.closings {
        var x :| Owns(s, x, c) && s.exchanges[x].question == q;
        assert Owns(s', x, c);
      }
    }
  }

  lemma StepKeeps(independent: bool, s: State, step: Step)
    requires Inv(s) && Enabled(s, step)
    ensures Inv(Next(independent, s, step))
  {
    match step
    case Enter(_) => EnterKeeps(independent, s, step);
    case Delete(_) => DeleteKeeps(independent, s, step);
    case Close(_) => CloseKeeps(independent, s, step);
    case Evict(_) => EvictKeeps(independent, s, step);
    case _ => QuietKeeps(independent, s, step);
  }

  // ----- Every run -----

  datatype Outcome = Stuck | Reached(state: State)

  function Run(independent: bool, start: State, steps: seq<Step>): Outcome {
    if steps == [] then Reached(start)
    else
      var before := Run(independent, start, steps[..|steps| - 1]);
      var last := steps[|steps| - 1];
      if before.Reached? && Enabled(before.state, last) then Reached(Next(independent, before.state, last)) else Stuck
  }

  lemma {:induction false} RunKeeps(independent: bool, start: State, steps: seq<Step>)
    requires Fresh(start) && Run(independent, start, steps).Reached?
    ensures Inv(Run(independent, start, steps).state)
  {
    if steps == [] {
    } else {
      RunKeeps(independent, start, steps[..|steps| - 1]);
      StepKeeps(independent, Run(independent, start, steps[..|steps| - 1]).state, steps[|steps| - 1]);
    }
  }

  /** At most one leader holds a question, and every channel is closed at most once. */
  lemma OneLeaderPerQuestion(independent: bool, start: State, steps: seq<Step>, x: nat, y: nat)
    requires Fresh(start) && Run(independent, start, steps).Reached?
    requires var e := Run(independent, start, steps).state.exchanges;
             x in e && y in e && e[x].question == e[y].question && Held(e[x].pc).Some? && Held(e[y].pc).Some?
    ensures x == y
    ensures var closings := Run(independent, start, steps).state.closings;
            forall i, j :: 0 <= i < j < |closings| ==> closings[i] != closings[j]
  {
    RunKeeps(independent, start, steps);
    HolderIsUnique(Run(independent, start, steps).state, x, y);
  }

  lemma HolderIsUnique(s: State, x: nat, y: nat)
    requires Inv(s) && x in s.exchanges && y in s.exchanges && s.exchanges[x].question == s.exchanges[y].question
    requires Held(s.exchanges[x].pc).Some? && Held(s.exchanges[y].pc).Some?
    ensures x == y
  {
    assert SameChannel(s.exchanges[x].pc, s.exchanges[y].pc);
  }

  /** The step that a live leader can take next. */
  function LeaderStep(id: nat, pc: Pc): Step {
    match pc
    case Loading(_) => Load(id)
    case Missed(_) => Call(id)
    case Calling(_) => Return(id, false)
    case Unlocking(_) => Delete(id)
    case _ => Close(id)
  }

  /** A blocked follower either can wake or has a live leader that is not itself blocked:
      the lock never deadlocks. */
  lemma FollowersHaveALiveLeader(independent: bool, start: State, steps: seq<Step>, id: nat)
    requires Fresh(start) && Run(independent, start, steps).Reached?
    requires var e := Run(independent, start, steps).state.exchanges; id in e && e[id].pc.Waiting?
    ensures var s := Run(independent, start, steps).state;
            Enabled(s, Wake(id)) ||
            exists x :: Owns(s, x, s.exchanges[id].pc.channel) && s.exchanges[x].question == s.exchanges[id].question &&
                        Enabled(s, LeaderStep(x, s.exchanges[x].pc))
  {
    RunKeeps(independent, start, steps);
    var s := Run(independent, start, steps).state;
    var c, q := s.exchanges[id].pc.channel, s.exchanges[id].question;
    if c !in s.closings {
      var x :| Owns(s, x, c) && s.exchanges[x].question == q;
      assert Enabled(s, LeaderStep(x, s.exchanges[x].pc));
    }
  }

  // ----- Runs that cannot go on are complete -----

  /** Every channel that was handed out has been closed or still has its leader. */
  ghost predicate Accounted(s: State) {
    forall c: nat :: c < s.nextChannel ==> c in s.closings || exists id :: Owns(s, id, c)
  }

  /** What a step does to the mover's channel. */
  ghost predicate KeepsChannel(s: State, s': State, id: nat) {
    && OneMoves(s, s', id) && (forall c :: c in s.closings ==> c in s'.closings)
    && (Owned(s.exchanges[id].pc).Some? ==>
          Owned(s'.exchanges[id].pc) == Owned(s.exchanges[id].pc) || Owned(s.exchanges[id].pc).value in s'.closings)
    && (s'.nextChannel == s.nextChannel || (s'.nextChannel == s.nextChannel + 1 && Owns(s', id, s.nextChannel)))
  }

  lemma StepKeepsChannel(independent: bool, s: State, step: Step)
    requires Enabled(s, step) && !step.Evict?
    ensures KeepsChannel(s, Next(independent, s, step), step.id)
  {
    NextMovesOne(independent, s, step);
    if step.Close? {
      var c := s.exchanges[step.id].pc.channel;
      assert (s.closings + [c])[|s.closings|] == c;
    }
  }

  lemma MoveKeepsAccounted(s: State, s': State, id: nat)
    requires Accounted(s) && KeepsChannel(s, s', id)
    ensures Accounted(s')
  {
    forall c: nat | c < s'.nextChannel && c !in s'.closings ensures exists x :: Owns(s', x, c) {
      if c < s.nextChannel {
        var x :| Owns(s, x, c);
        assert Owns(s', x, c);
      } else {
        assert Owns(s', id, c);
      }
    }
  }

  lemma StepKeepsAccounted(independent: bool, s: State, step: Step)
    requires Accounted(s) && Enabled(s, step)
    ensures Accounted(Next(independent, s, step))
  {
    var s' := Next(independent, s, step);
    if step.Evict? {
      assert forall id, c: nat :: Owns(s, id, c) ==> Owns(s', id, c);
    } else {
      StepKeepsChannel(independent, s, step);
      MoveKeepsAccounted(s, s', step.id);
    }
  }

  lemma {:induction false} RunAccounted(independent: bool, start: State, steps: seq<Step>)
    requires Fresh(start) && Run(independent, start, steps).Reached?
    ensures Accounted(Run(independent, start, steps).state)
  {
    if steps == [] {
    } else {
      RunAccounted(independent, start, steps[..|steps| - 1]);
      StepKeepsAccounted(independent, Run(independent, start, steps[..|steps| - 1]).state, steps[|steps| - 1]);
    }
  }

  function Rank(pc: Pc): nat {
    match pc
    case Arriving => 7
    case Waiting(_) => 6
    case Loading(_) => 5
    case Missed(_) => 4
    case Calling(_) => 3
    case Unlocking(_) => 2
    case Closing(_) => 1
    case Ended => 0
  }

  function Moves(steps: seq<Step>, id: nat): nat {
    if steps == [] then 0
    else
      var last := steps[|steps| - 1];
      Moves(steps[..|steps| - 1], id) + if !last.Evict? && last.id == id then 1 else 0
  }

  lemma StepLowersRank(independent: bool, s: State, step: Step)
    requires Enabled(s, step) && !step.Evict?
    ensures Rank(Next(independent, s, step).exchanges[step.id].pc) < Rank(s.exchanges[step.id].pc)
  {
  }

  /** An exchange takes at most seven steps in any run, however the others are scheduled. */
  lemma {:induction false} FewMoves(independent: bool, start: State, steps: seq<Step>, id: nat)
    requires Fresh(start) && id in start.exchanges && Run(independent, start, steps).Reached?
    ensures var s := Run(independent, start, steps).state;
            id in s.exchanges && Moves(steps, id) + Rank(s.exchanges[id].pc) <= 7
  {
    if steps == [] {
    } else {
      var front, last := steps[..|steps| - 1], steps[|steps| - 1];
      FewMoves(independent, start, front, id);
      if !last.Evict? {
        NextMovesOne(independent, Run(independent, start, front).state, last);
        StepLowersRank(independent, Run(independent, start, front).state, last);
      }
    }
  }

  /** Only evictions are left to happen. */
  ghost predicate Quiescent(s: State) { forall step :: Enabled(s, step) ==> step.Evict? }

  lemma QuiescentEnds(s: State, id: nat)
    requires Inv(s) && Quiescent(s) && id in s.exchanges
    ensures s.exchanges[id].pc.Ended?
  {
    assert !Enabled(s, Enter(id)) && !Enabled(s, Wake(id));
    assert !Enabled(s, LeaderStep(id, s.exchanges[id].pc));
    forall x, c: nat ensures !Owns(s, x, c) { QuiescentOwnsNothing(s, x, c); }
    assert forall c: nat, q :: !HasOwner(s, c, q);
  }

  lemma QuiescentOwnsNothing(s: State, x: nat, c: nat)
    requires Quiescent(s)
    ensures !Owns(s, x, c)
  {
    assert x in s.exchanges ==> !Enabled(s, LeaderStep(x, s.exchanges[x].pc));
  }

  /** No deadlock: when no exchange can take a step, every exchange has returned, the lock map is
      empty and every channel ever handed out has been closed, exactly once. */
  lemma QuietRunsAreComplete(independent: bool, start: State, steps: seq<Step>)
    requires Fresh(start) && Run(independent, start, steps).Reached? && Quiescent(Run(independent, start, steps).state)
    ensures var s := Run(independent, start, steps).state;
            && (forall id :: id in s.exchanges ==> s.exchanges[id].pc.Ended?) && s.lock == map[]
            && (forall c: nat :: c < s.nextChannel <==> c in s.closings)
            && (forall i, j :: 0 <= i < j < |s.closings| ==> s.closings[i] != s.closings[j])
  {
    var s := Run(independent, start, steps).state;
    RunKeeps(independent, start, steps);
    RunAccounted(independent, start, steps);
    forall id | id in s.exchanges ensures s.exchanges[id].pc.Ended? { QuiescentEnds(s, id); }
    assert forall q :: q in s.lock ==> HasHolder(s, q, s.lock[q]);
  }

  // ----- An answer in the cache spares the transport -----

  ghost predicate Spared(independent: bool, s: State, id: nat, key: Key) {
    id in s.exchanges && KeyOf(independent, s.exchanges[id]) == key && key in s.cache &&
    !s.exchanges[id].pc.Missed? && !s.exchanges[id].pc.Calling?
  }

  lemma SparedStays(independent: bool, s: State, step: Step, id: nat, key: Key)
    requires Enabled(s, step) && step != Evict(key) && Spared(independent, s, id, key)
    ensures Spared(independent, Next(independent, s, step), id, key)
    ensures multiset(Next(independent, s, step).calls)[id] == multiset(s.calls)[id]
  {
  }

  /** While an exchange's key stays in the cache, it never reaches its transport, however
      the run continues: in particular a follower that wakes while the answer is loadable. */
  lemma {:induction false} CachedAnswerSparesTransport(
    independent: bool, start: State, steps: seq<Step>, id: nat, key: Key)
    requires Run(independent, start, steps).Reached? && Evict(key) !in steps
    requires Spared(independent, start, id, key)
    ensures var s := Run(independent, start, steps).state;
            Spared(independent, s, id, key) && multiset(s.calls)[id] == multiset(start.calls)[id]
  {
    if steps == [] {
    } else {
      var front, last := steps[..|steps| - 1], steps[|steps| - 1];
      assert last in steps;
      CachedAnswerSparesTransport(independent, start, front, id, key);
      SparedStays(independent, Run(independent, start, front).state, last, id, key);
    }
  }

  // ----- Single flight -----

  ghost predicate Asks(s: State, id: nat, q: string) { id in s.exchanges && s.exchanges[id].question == q }

  /** Every call stores its answer, and nothing is evicted. */
  predicate Caching(step: Step) { !step.Evict? && !step.GiveUp? && (step.Return? ==> step.stored) }

  ghost predicate Cached(independent: bool, s: State, id: nat)
    requires id in s.exchanges
  {
    KeyOf(independent, s.exchanges[id]) in s.cache
  }

  /** All exchanges of the question look under one key. */
  ghost predicate KeysAgree(independent: bool, s: State, q: string) {
    forall x, y :: Asks(s, x, q) && Asks(s, y, q) ==>
      KeyOf(independent, s.exchanges[x]) == KeyOf(independent, s.exchanges[y])
  }

  /** At most one exchange of the question misses the cache as it is. */
  ghost predicate OneUncached(independent: bool, s: State, q: string) {
    forall x, y :: Asks(s, x, q) && Asks(s, y, q) && !Cached(independent, s, x) && !Cached(independent, s, y) ==> x == y
  }

  ghost predicate CallsKnown(s: State) { forall i :: 0 <= i < |s.calls| ==> s.calls[i] in s.exchanges }

  /** The question reached a transport at most once. */
  ghost predicate OnceFor(s: State, q: string) {
    forall i, j :: 0 <= i < j < |s.calls| ==> !(Asks(s, s.calls[i], q) && Asks(s, s.calls[j], q))
  }

  ghost predicate CallsApart(s: State) { CallsKnown(s) && forall q :: OnceFor(s, q) }

  ghost predicate CalledFor(s: State, q: string) { exists i :: 0 <= i < |s.calls| && Asks(s, s.calls[i], q) }

  // One key per question: the leader's answer serves everybody.

  ghost predicate PcFlight(independent: bool, s: State, id: nat)
    requires id in s.exchanges
  {
    var q := s.exchanges[id].question;
    match s.exchanges[id].pc
    case Arriving => CalledFor(s, q) && q !in s.lock ==> Cached(independent, s, id)
    case Waiting(c) => c in s.closings ==> Cached(independent, s, id)
    case Loading(role) => role.Follower? || CalledFor(s, q) ==> Cached(independent, s, id)
    case Missed(role) => role.Leader? && !CalledFor(s, q)
    case Calling(role) => role.Leader?
    case Unlocking(_) => Cached(independent, s, id)
    case Closing(_) => Cached(independent, s, id)
    case Ended => true
  }

  ghost predicate AllFlight(independent: bool, s: State, q: string) {
    forall id :: Asks(s, id, q) ==> PcFlight(independent, s, id)
  }

  ghost predicate FlightInv(independent: bool, s: State, q: string) {
    KeysAgree(independent, s, q) && CallsKnown(s) && OnceFor(s, q) && AllFlight(independent, s, q)
  }

  lemma NextKeepsKeys(independent: bool, s: State, step: Step, q: string)
    requires Enabled(s, step) && KeysAgree(independent, s, q)
    ensures KeysAgree(independent, Next(independent, s, step), q)
  {
    var s' := Next(independent, s, step);
    assert forall x :: Asks(s', x, q) ==>
      Asks(s, x, q) && KeyOf(independent, s'.exchanges[x]) == KeyOf(independent, s.exchanges[x]);
  }

  /** The same questions, asked by the same exchanges. */
  ghost predicate SameAsks(s: State, s': State) {
    && s'.exchanges.Keys == s.exchanges.Keys
    && forall x :: x in s.exchanges ==> s'.exchanges[x].question == s.exchanges[x].question
  }

  lemma SameCalls(s: State, s': State, q: string)
    requires s'.calls == s.calls && SameAsks(s, s')
    ensures CalledFor(s', q) <==> CalledFor(s, q)
    ensures CallsKnown(s) && OnceFor(s, q) ==> CallsKnown(s') && OnceFor(s', q)
  {
    assert forall id :: Asks(s', id, q) <==> Asks(s, id, q);
  }

  /** Every step but Call leaves the log of calls alone, and the cache only grows. */
  lemma OtherStepsKeepFlight(independent: bool, s: State, step: Step, q: string)
    requires Inv(s) && FlightInv(independent, s, q) && Enabled(s, step) && Caching(step) && !step.Call?
    ensures FlightInv(independent, Next(independent, s, step), q)
  {
    var s' := Next(independent, s, step);
    NextMovesOne(independent, s, step);
    NextKeepsKeys(independent, s, step, q);
    SameCalls(s, s', q);
    forall id | Asks(s', id, q) ensures PcFlight(independent, s', id) {
      assert Asks(s, id, q);
      if id == step.id { MoverFlight(independent, s, step); } else { OtherFlight(independent, s, step, q, id); }
    }
  }

  lemma MoverFlight(independent: bool, s: State, step: Step)
    requires Inv(s) && Enabled(s, step) && Caching(step) && !step.Call? && PcFlight(independent, s, step.id)
    ensures PcFlight(independent, Next(independent, s, step), step.id)
  {
    var q := s.exchanges[step.id].question;
    if q in s.lock { LockedChannelIsOpen(s, q); }
    MovedFlight(independent, s, step);
  }

  lemma MovedFlight(independent: bool, s: State, step: Step)
    requires Enabled(s, step) && Caching(step) && !step.Call? && PcFlight(independent, s, step.id)
    requires var q := s.exchanges[step.id].question; q in s.lock ==> s.lock[q] !in s.closings
    ensures PcFlight(independent, Next(independent, s, step), step.id)
  {
    SameCalls(s, Next(independent, s, step), s.exchanges[step.id].question);
  }

  lemma OtherFlight(independent: bool, s: State, step: Step, q: string, id: nat)
    requires Inv(s) && FlightInv(independent, s, q) && Enabled(s, step) && Caching(step) && !step.Call?
    requires Asks(s, id, q) && id != step.id
    ensures PcFlight(independent, Next(independent, s, step), id)
  {
    var s' := Next(independent, s, step);
    assert PcFlight(independent, s, id);
    NextMovesOne(independent, s, step);
    SameCalls(s, s', q);
    UnlockedIsCached(independent, s, step, q, id);
    WokenIsCached(independent, s, step, q, id);
    CacheGrows(independent, s, step);
    BystanderFlight(independent, s, s', id);
  }

  lemma CacheGrows(independent: bool, s: State, step: Step)
    requires Enabled(s, step) && !step.Evict?
    ensures s.cache <= Next(independent, s, step).cache
  {
  }

  lemma UnlockedIsCached(independent: bool, s: State, step: Step, q: string, id: nat)
    requires FlightInv(independent, s, q) && Enabled(s, step) && !step.Evict? && Asks(s, id, q)
    ensures q in Next(independent, s, step).lock || q !in s.lock || Cached(independent, s, id)
  {
    if step.Delete? && q == s.exchanges[step.id].question {
      assert Asks(s, step.id, q);
      assert PcFlight(independent, s, step.id);
    }
  }

  lemma WokenIsCached(independent: bool, s: State, step: Step, q: string, id: nat)
    requires Inv(s) && FlightInv(independent, s, q) && Enabled(s, step) && Asks(s, id, q)
    ensures s.exchanges[id].pc.Waiting? && s.exchanges[id].pc.channel in Next(independent, s, step).closings ==>
              s.exchanges[id].pc.channel in s.closings || Cached(independent, s, id)
  {
    if step.Close? && s.exchanges[id].pc.Waiting? { ClosedChannelIsCached(independent, s, q, step.id, id); }
  }

  lemma BystanderFlight(independent: bool, s: State, s': State, id: nat)
    requires id in s.exchanges && id in s'.exchanges && s'.exchanges[id] == s.exchanges[id]
    requires PcFlight(independent, s, id)
    requires s.cache <= s'.cache &&
              (CalledFor(s', s.exchanges[id].question) <==> CalledFor(s, s.exchanges[id].question))
    requires s.exchanges[id].question !in s'.lock ==> s.exchanges[id].question !in s.lock || Cached(independent, s, id)
    requires s.exchanges[id].pc.Waiting? && s.exchanges[id].pc.channel in s'.closings ==>
               s.exchanges[id].pc.channel in s.closings || Cached(independent, s, id)
    ensures PcFlight(independent, s', id)
  {
  }

  lemma ClosedChannelIsCached(independent: bool, s: State, q: string, owner: nat, id: nat)
    requires Inv(s) && FlightInv(independent, s, q)
    requires owner in s.exchanges && Asks(s, id, q) && s.exchanges[owner].pc.Closing? && s.exchanges[id].pc.Waiting?
    ensures s.exchanges[id].pc.channel == s.exchanges[owner].pc.channel ==> Cached(independent, s, id)
  {
    var c := s.exchanges[owner].pc.channel;
    if s.exchanges[id].pc.channel == c {
      assert Owns(s, owner, c);
      var x :| Owns(s, x, c) && s.exchanges[x].question == q;
      assert SameChannel(s.exchanges[x].pc, s.exchanges[owner].pc);
      assert Asks(s, owner, q);
      assert PcFlight(independent, s, owner);
    }
  }

  lemma LockedChannelIsOpen(s: State, q: string)
    requires Inv(s) && q in s.lock
    ensures s.lock[q] !in s.closings
  {
    assert HasHolder(s, q, s.lock[q]);
    var x :| x in s.exchanges && s.exchanges[x].question == q && Held(s.exchanges[x].pc) == Some(s.lock[q]);
    assert Owned(s.exchanges[x].pc) == Some(s.lock[q]);
  }

  ghost predicate Calls(s: State, s': State, caller: nat) {
    && OneMoves(s, s', caller)
    && s.exchanges[caller].pc.Missed? && s'.exchanges[caller].pc == Calling(s.exchanges[caller].pc.role)
    && s'.lock == s.lock && s'.closings == s.closings && s'.cache == s.cache && s'.calls == s.calls + [caller]
  }

  lemma CallStep(independent: bool, s: State, step: Step)
    requires Enabled(s, step) && step.Call?
    ensures Calls(s, Next(independent, s, step), step.id)
  {
    NextMovesOne(independent, s, step);
  }

  lemma CallKeepsFlight(independent: bool, s: State, step: Step, q: string)
    requires Inv(s) && FlightInv(independent, s, q) && Enabled(s, step) && step.Call?
    ensures FlightInv(independent, Next(independent, s, step), q)
  {
    var s' := Next(independent, s, step);
    CallStep(independent, s, step);
    NextKeepsKeys(independent, s, step, q);
    if s.exchanges[step.id].question == q {
      CalledKeepsFlight(independent, s, s', step.id, q);
    } else {
      CallElsewhere(independent, s, s', step.id, q);
    }
  }

  lemma CalledKeepsFlight(independent: bool, s: State, s': State, caller: nat, q: string)
    requires Inv(s) && FlightInv(independent, s, q) && Calls(s, s', caller) && Asks(s, caller, q)
    ensures CallsKnown(s') && OnceFor(s', q) && AllFlight(independent, s', q)
  {
    assert PcFlight(independent, s, caller);
    FirstCallFor(s, s', caller, q);
    forall id | Asks(s', id, q) ensures PcFlight(independent, s', id) {
      assert Asks(s, id, q);
      if id != caller { RivalFlight(independent, s, s', caller, id); }
    }
  }

  lemma CallElsewhere(independent: bool, s: State, s': State, caller: nat, q: string)
    requires FlightInv(independent, s, q) && Calls(s, s', caller) && !Asks(s, caller, q)
    ensures CallsKnown(s') && OnceFor(s', q) && AllFlight(independent, s', q)
  {
    CallsOfOthers(s, s', caller, q);
    forall id | Asks(s', id, q) ensures PcFlight(independent, s', id) {
      assert Asks(s, id, q);
      BystanderFlight(independent, s, s', id);
    }
  }

  lemma FirstCallFor(s: State, s': State, caller: nat, q: string)
    requires OneMoves(s, s', caller) && CallsKnown(s) && !CalledFor(s, q) && s'.calls == s.calls + [caller]
    ensures CallsKnown(s') && OnceFor(s', q)
  {
    assert forall i :: 0 <= i < |s.calls| ==> s'.calls[i] == s.calls[i];
    assert forall i :: 0 <= i < |s.calls| ==> !Asks(s', s.calls[i], q) by {
      assert forall id :: Asks(s', id, q) ==> Asks(s, id, q);
    }
  }

  /** Another exchange of the question that is being called for is not its leader. */
  lemma RivalFlight(independent: bool, s: State, s': State, caller: nat, id: nat)
    requires Inv(s) && Calls(s, s', caller) && PcFlight(independent, s, caller)
    requires id != caller && id in s.exchanges && PcFlight(independent, s, id)
    requires s.exchanges[id].question == s.exchanges[caller].question
    ensures PcFlight(independent, s', id)
  {
    assert Held(s.exchanges[caller].pc).Some?;
    var pc := s.exchanges[id].pc;
    if (pc.Loading? || pc.Missed?) && pc.role.Leader? { HolderIsUnique(s, caller, id); }
  }

  lemma CallsOfOthers(s: State, s': State, caller: nat, q: string)
    requires caller in s.exchanges && !Asks(s, caller, q) && s'.calls == s.calls + [caller] && SameAsks(s, s')
    ensures CalledFor(s', q) <==> CalledFor(s, q)
    ensures CallsKnown(s) && OnceFor(s, q) ==> CallsKnown(s') && OnceFor(s', q)
  {
    assert forall i :: 0 <= i < |s.calls| ==> s'.calls[i] == s.calls[i];
    assert forall id :: Asks(s', id, q) <==> Asks(s, id, q);
    if CalledFor(s, q) {
      var i :| 0 <= i < |s.calls| && Asks(s, s.calls[i], q);
      assert Asks(s', s'.calls[i], q);
    }
  }

  ghost predicate CachingRun(independent: bool, start: State, steps: seq<Step>) {
    Run(independent, start, steps).Reached? && forall step :: step in steps ==> Caching(step)
  }

  lemma {:induction false} FlightRun(independent: bool, start: State, steps: seq<Step>, q: string)
    requires Fresh(start) && KeysAgree(independent, start, q) && CachingRun(independent, start, steps)
    ensures FlightInv(independent, Run(independent, start, steps).state, q)
  {
    if steps == [] {
    } else {
      var front, last := steps[..|steps| - 1], steps[|steps| - 1];
      assert last in steps && forall step :: step in front ==> step in steps;
      FlightRun(independent, start, front, q);
      RunKeeps(independent, start, front);
      if last.Call? {
        CallKeepsFlight(independent, Run(independent, start, front).state, last, q);
      } else {
        OtherStepsKeepFlight(independent, Run(independent, start, front).state, last, q);
      }
    }
  }

  // At most one exchange that misses: the others never call, and none calls twice.

  /** Past its transport call. */
  predicate HasCalled(pc: Pc) { pc.Calling? || pc.Unlocking? || pc.Closing? || pc.Ended? }

  ghost predicate CallersMissed(independent: bool, cached: set<Key>, s: State) {
    && cached <= s.cache
    && (forall id :: id in s.exchanges && (s.exchanges[id].pc.Missed? || s.exchanges[id].pc.Calling?) ==>
          KeyOf(independent, s.exchanges[id]) !in cached)
    && (forall i :: 0 <= i < |s.calls| ==> CallerMissed(independent, cached, s, s.calls[i]))
    && (forall i, j :: 0 <= i < j < |s.calls| ==> s.calls[i] != s.calls[j])
  }

  ghost predicate CallerMissed(independent: bool, cached: set<Key>, s: State, id: nat) {
    id in s.exchanges && HasCalled(s.exchanges[id].pc) && KeyOf(independent, s.exchanges[id]) !in cached
  }

  lemma StepKeepsCallers(independent: bool, cached: set<Key>, s: State, step: Step)
    requires Enabled(s, step) && Caching(step) && CallersMissed(independent, cached, s)
    ensures CallersMissed(independent, cached, Next(independent, s, step))
  {
    var s' := Next(independent, s, step);
    forall id | CallerMissed(independent, cached, s, id) ensures CallerMissed(independent, cached, s', id) {
      CallerStays(independent, cached, s, step, id);
    }
    if step.Call? {
      assert forall i :: 0 <= i < |s.calls| ==> s'.calls[i] == s.calls[i];
      assert forall i :: 0 <= i < |s.calls| ==> CallerMissed(independent, cached, s, s.calls[i]);
    }
  }

  lemma CallerStays(independent: bool, cached: set<Key>, s: State, step: Step, id: nat)
    requires Enabled(s, step) && CallerMissed(independent, cached, s, id)
    ensures CallerMissed(independent, cached, Next(independent, s, step), id)
  {
  }

  lemma {:induction false} RunKeepsCallers(independent: bool, start: State, steps: seq<Step>)
    requires Fresh(start) && CachingRun(independent, start, steps)
    ensures var s := Run(independent, start, steps).state;
            && CallersMissed(independent, start.cache, s) && s.exchanges.Keys == start.exchanges.Keys
            && forall id :: id in s.exchanges ==> s.exchanges[id].(pc := Arriving) == start.exchanges[id]
  {
    if steps == [] {
    } else {
      var front, last := steps[..|steps| - 1], steps[|steps| - 1];
      assert last in steps && forall step :: step in front ==> step in steps;
      RunKeepsCallers(independent, start, front);
      StepKeepsCallers(independent, start.cache, Run(independent, start, front).state, last);
      NextMovesOne(independent, Run(independent, start, front).state, last);
    }
  }

  lemma OneUncachedOneCall(independent: bool, start: State, steps: seq<Step>, q: string)
    requires Fresh(start) && CachingRun(independent, start, steps) && OneUncached(independent, start, q)
    ensures OnceFor(Run(independent, start, steps).state, q)
  {
    RunKeepsCallers(independent, start, steps);
    var s := Run(independent, start, steps).state;
    forall i, j | 0 <= i < j < |s.calls| ensures !(Asks(s, s.calls[i], q) && Asks(s, s.calls[j], q)) {
      var x, y := s.calls[i], s.calls[j];
      assert CallerMissed(independent, start.cache, s, x) && CallerMissed(independent, start.cache, s, y);
      assert Asks(s, x, q) ==> Asks(start, x, q) && !Cached(independent, start, x);
      assert Asks(s, y, q) ==> Asks(start, y, q) && !Cached(independent, start, y);
    }
  }

  ghost predicate OneFlight(independent: bool, start: State, q: string) {
    KeysAgree(independent, start, q) || OneUncached(independent, start, q)
  }

  /** When answers are stored and kept, a question whose exchanges share one key, or of which at most one
      misses the cache as it is, reaches a transport at most once in the whole run. */
  lemma SingleFlight(independent: bool, start: State, steps: seq<Step>, q: string)
    requires Fresh(start) && CachingRun(independent, start, steps) && OneFlight(independent, start, q)
    ensures CallsKnown(Run(independent, start, steps).state) && OnceFor(Run(independent, start, steps).state, q)
  {
    RunKeepsCallers(independent, start, steps);
    var s := Run(independent, start, steps).state;
    assert CallsKnown(s) by {
      assert forall i :: 0 <= i < |s.calls| ==> CallerMissed(independent, start.cache, s, s.calls[i]);
    }
    if KeysAgree(independent, start, q) {
      FlightRun(independent, start, steps, q);
    } else {
      OneUncachedOneCall(independent, start, steps, q);
    }
  }

  // Otherwise some run calls twice for one question.

  lemma Extend(independent: bool, start: State, steps: seq<Step>, step: Step) returns (s: State, longer: seq<Step>)
    requires CachingRun(independent, start, steps) && Enabled(Run(independent, start, steps).state, step)
    requires Caching(step)
    ensures s == Next(independent, Run(independent, start, steps).state, step)
    ensures CachingRun(independent, start, longer) && Run(independent, start, longer) == Reached(s)
  {
    longer := steps + [step];
    assert longer[..|steps|] == steps;
    s := Next(independent, Run(independent, start, steps).state, step);
  }

  /** Where exchanges x and w are; all others are as at the start. */
  ghost predicate Pair(s: State, start: State, x: nat, w: nat, px: Pc, pw: Pc) {
    && x in start.exchanges && w in start.exchanges && s.exchanges.Keys == start.exchanges.Keys
    && s.exchanges[x] == start.exchanges[x].(pc := px) && s.exchanges[w] == start.exchanges[w].(pc := pw)
    && forall id :: id in start.exchanges && id != x && id != w ==> s.exchanges[id] == start.exchanges[id]
  }

  lemma BothEnter(independent: bool, start: State, x: nat, w: nat) returns (s: State, steps: seq<Step>)
    requires Fresh(start) && x != w && x in start.exchanges && w in start.exchanges
    requires start.exchanges[x].question == start.exchanges[w].question
    ensures CachingRun(independent, start, steps) && Run(independent, start, steps) == Reached(s)
    ensures Pair(s, start, x, w, Loading(Leader(0)), Waiting(0)) && s.lock == map[start.exchanges[x].question := 0]
    ensures s.cache == start.cache && s.closings == [] && s.calls == []
  {
    s, steps := Extend(independent, start, [], Enter(x));
    assert Pair(s, start, x, w, Loading(Leader(0)), Arriving);
    s, steps := Extend(independent, start, steps, Enter(w));
  }

  /** Exchange x leads, gets its answer from the cache or its transport, and unlocks; w waits for it meanwhile. */
  lemma LeaderFinishes(independent: bool, start: State, x: nat, w: nat) returns (s: State, steps: seq<Step>)
    requires Fresh(start) && x != w && x in start.exchanges && w in start.exchanges
    requires start.exchanges[x].question == start.exchanges[w].question
    ensures CachingRun(independent, start, steps) && Run(independent, start, steps) == Reached(s)
    ensures Pair(s, start, x, w, Unlocking(0), Waiting(0)) && s.lock == map[start.exchanges[x].question := 0]
    ensures s.cache == start.cache + {KeyOf(independent, start.exchanges[x])} && s.closings == []
    ensures s.calls == if Cached(independent, start, x) then [] else [x]
  {
    s, steps := BothEnter(independent, start, x, w);
    s, steps := Extend(independent, start, steps, Load(x));
    if !Cached(independent, start, x) {
      assert Pair(s, start, x, w, Missed(Leader(0)), Waiting(0));
      s, steps := Extend(independent, start, steps, Call(x));
      assert Pair(s, start, x, w, Calling(Leader(0)), Waiting(0)) && s.calls == [x];
      s, steps := Extend(independent, start, steps, Return(x, true));
    }
    assert Pair(s, start, x, w, Unlocking(0), Waiting(0));
  }

  /** Then w wakes as a follower. */
  lemma FollowerWakes(independent: bool, start: State, x: nat, w: nat) returns (s: State, steps: seq<Step>)
    requires Fresh(start) && x != w && x in start.exchanges && w in start.exchanges
    requires start.exchanges[x].question == start.exchanges[w].question
    ensures CachingRun(independent, start, steps) && Run(independent, start, steps) == Reached(s)
    ensures Pair(s, start, x, w, Ended, Loading(Follower)) && s.lock == map[]
    ensures s.cache == start.cache + {KeyOf(independent, start.exchanges[x])}
    ensures s.calls == if Cached(independent, start, x) then [] else [x]
  {
    s, steps := LeaderFinishes(independent, start, x, w);
    ghost var cache, calls := s.cache, s.calls;
    s, steps := Extend(independent, start, steps, Delete(x));
    assert Pair(s, start, x, w, Closing(0), Waiting(0)) && s.lock == map[];
    s, steps := Extend(independent, start, steps, Close(x));
    assert Pair(s, start, x, w, Ended, Waiting(0)) && s.closings == [0] && s.closings[0] == 0;
    s, steps := Extend(independent, start, steps, Wake(w));
    assert s.cache == cache && s.calls == calls;
  }

  /** A loading exchange whose key is not cached goes on to call its transport. */
  lemma MissesAndCalls(independent: bool, start: State, steps0: seq<Step>, id: nat) returns (s: State, steps: seq<Step>)
    requires CachingRun(independent, start, steps0) && id in Run(independent, start, steps0).state.exchanges
    requires var s0 := Run(independent, start, steps0).state;
             s0.exchanges[id].pc.Loading? && !Cached(independent, s0, id)
    ensures CachingRun(independent, start, steps) && Run(independent, start, steps) == Reached(s)
    ensures var s0 := Run(independent, start, steps0).state;
            OneMoves(s0, s, id) && s.calls == s0.calls + [id] && s.lock == s0.lock && s.cache == s0.cache
  {
    ghost var s0 := Run(independent, start, steps0).state;
    s, steps := Extend(independent, start, steps0, Load(id));
    assert s.exchanges[id].pc.Missed? && OneMoves(s0, s, id);
    s, steps := Extend(independent, start, steps, Call(id));
  }

  /** Two calls for the question of exchanges u and v. */
  ghost predicate CalledBoth(s: State, u: nat, v: nat) {
    s.calls == [u, v] && u in s.exchanges && v in s.exchanges && s.exchanges[u].question == s.exchanges[v].question
  }

  /** Two uncached keys: the follower finds the leader's answer under the other key and calls as well. */
  lemma TwoKeysTwoCalls(independent: bool, start: State, u: nat, v: nat) returns (s: State, steps: seq<Step>)
    requires Fresh(start) && u in start.exchanges && v in start.exchanges
    requires start.exchanges[u].question == start.exchanges[v].question
    requires KeyOf(independent, start.exchanges[u]) != KeyOf(independent, start.exchanges[v])
    requires !Cached(independent, start, u) && !Cached(independent, start, v)
    ensures CachingRun(independent, start, steps) && Run(independent, start, steps) == Reached(s) && CalledBoth(s, u, v)
  {
    s, steps := FollowerWakes(independent, start, u, v);
    s, steps := MissesAndCalls(independent, start, steps, v);
    assert [u] + [v] == [u, v];
  }

  /** One cached and one uncached key: the lock is per question but the cache per transport, so a follower of
      the cached exchange misses, holds no lock, and races a new leader to the same key. */
  lemma TwoTransportsTwoCalls(independent: bool, start: State, x: nat, u: nat, v: nat)
    returns (s: State, steps: seq<Step>)
    requires Fresh(start) && x in start.exchanges && u in start.exchanges && v in start.exchanges && u != v
    requires start.exchanges[x].question == start.exchanges[u].question == start.exchanges[v].question
    requires Cached(independent, start, x) && !Cached(independent, start, u) && !Cached(independent, start, v)
    ensures CachingRun(independent, start, steps) && Run(independent, start, steps) == Reached(s) && CalledBoth(s, u, v)
  {
    s, steps := FollowerWakes(independent, start, x, u);
    assert s.exchanges[v] == start.exchanges[v] && s.cache == start.cache;
    s, steps := MissesAndCalls(independent, start, steps, u);
    assert s.calls == [u] && s.exchanges[v] == start.exchanges[v];
    ghost var before := s;
    s, steps := Extend(independent, start, steps, Enter(v));
    assert s.exchanges[v].pc.Loading? && OneMoves(before, s, v) && s.calls == [u] && s.cache == start.cache;
    s, steps := MissesAndCalls(independent, start, steps, v);
    assert [u] + [v] == [u, v];
  }

  lemma CalledBothIsTwice(s: State, u: nat, v: nat)
    requires CalledBoth(s, u, v)
    ensures !CallsApart(s)
  {
    var q := s.exchanges[u].question;
    assert Asks(s, s.calls[0], q) && Asks(s, s.calls[1], q);
    assert !OnceFor(s, q);
  }

  lemma SomeRunCallsTwice(independent: bool, start: State, q: string) returns (steps: seq<Step>)
    requires Fresh(start) && !OneFlight(independent, start, q)
    ensures CachingRun(independent, start, steps) && !CallsApart(Run(independent, start, steps).state)
  {
    var u, v :| Asks(start, u, q) && Asks(start, v, q) && !Cached(independent, start, u) &&
      !Cached(independent, start, v) && u != v;
    var s;
    if KeyOf(independent, start.exchanges[u]) != KeyOf(independent, start.exchanges[v]) {
      s, steps := TwoKeysTwoCalls(independent, start, u, v);
    } else {
      var x :| Asks(start, x, q) &&
        KeyOf(independent, start.exchanges[x]) != KeyOf(independent, start.exchanges[u]) by {
        OddKey(independent, start, q, u);
      }
      if Cached(independent, start, x) {
        s, steps := TwoTransportsTwoCalls(independent, start, x, u, v);
      } else {
        s, steps := TwoKeysTwoCalls(independent, start, x, u);
        CalledBothIsTwice(s, x, u);
        return;
      }
    }
    CalledBothIsTwice(s, u, v);
  }

  lemma OddKey(independent: bool, s: State, q: string, u: nat)
    requires !KeysAgree(independent, s, q) && Asks(s, u, q)
    ensures exists x :: Asks(s, x, q) && KeyOf(independent, s.exchanges[x]) != KeyOf(independent, s.exchanges[u])
  {
    var x, y :| Asks(s, x, q) && Asks(s, y, q) &&
      KeyOf(independent, s.exchanges[x]) != KeyOf(independent, s.exchanges[y]);
    assert Asks(s, x, q) && Asks(s, y, q);
  }

  ghost predicate CallsApartAfter(independent: bool, start: State, steps: seq<Step>) {
    CachingRun(independent, start, steps) ==> CallsApart(Run(independent, start, steps).state)
  }

  /** Exactly: every run that stores and keeps its answers calls at most once per question if and only if, for each
      question, all its exchanges share one key or at most one of them misses the cache it starts with. */
  lemma SingleFlightExactly(independent: bool, start: State)
    requires Fresh(start)
    ensures (forall steps :: CallsApartAfter(independent, start, steps)) <==>
              (forall q :: OneFlight(independent, start, q))
  {
    if forall q :: OneFlight(independent, start, q) {
      forall steps ensures CallsApartAfter(independent, start, steps) {
        if CachingRun(independent, start, steps) {
          SingleFlight(independent, start, steps, "");
          forall q ensures OnceFor(Run(independent, start, steps).state, q) {
            SingleFlight(independent, start, steps, q);
          }
        }
      }
    } else {
      var q :| !OneFlight(independent, start, q);
      var steps := SomeRunCallsTwice(independent, start, q);
      assert !CallsApartAfter(independent, start, steps);
    }
  }
}
