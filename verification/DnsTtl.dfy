/** DNS messages as the client sees them, and the time-to-live arithmetic: choosing one
    TTL for an answer (section 3.2.1 of RFC 1035, section 5 of RFC 2308), writing it to every
    record, the EDNS clean-up that also touches the cached message, and the decay on load.

    TTLs are 32-bit and subtraction wraps; times are in nanoseconds. */
module DnsTtl {
  import opened Optional

  const UINT32 := 0x1_0000_0000
  type uint32 = x: int | 0 <= x < 0x1_0000_0000

  datatype Hint = Hint4(value: string) | Hint6(value: string) | OtherParam(value: string)

  datatype Body =
    | Data(text: string)
    | Soa(text: string, minttl: uint32)
    | Https(text: string, hints: seq<Hint>)
    | Opt

  datatype Record = Record(ttl: uint32, body: Body)

  datatype Message = Message(id: nat, rcode: nat, answer: seq<Record>, ns: seq<Record>, extra: seq<Record>)

  function Records(m: Message): seq<Record> { m.answer + m.ns + m.extra }

  // ----- Choosing a TTL -----

  /** `ttl` is the least positive TTL among the records, 0 when none is positive. */
  ghost predicate IsLowest(rs: seq<Record>, ttl: uint32) {
    && (forall i :: 0 <= i < |rs| && rs[i].ttl > 0 ==> 0 < ttl <= rs[i].ttl)
    && (ttl > 0 ==> exists i :: 0 <= i < |rs| && rs[i].ttl == ttl)
  }

  lemma LowestIsUnique(rs: seq<Record>, a: uint32, b: uint32)
    requires IsLowest(rs, a) && IsLowest(rs, b)
    ensures a == b
  {
  }

  /** The record scan, front to back, as one function of the whole list. */
  function Lowest(rs: seq<Record>): (ttl: uint32)
    ensures IsLowest(rs, ttl)
  {
    if rs == [] then 0
    else
      var n := |rs| - 1;
      var t := Lowest(rs[..n]);
      assert forall i :: 0 <= i < n ==> rs[..n][i] == rs[i];
      if t == 0 || (rs[n].ttl > 0 && rs[n].ttl < t) then rs[n].ttl else t
  }

  method ScanTtl(m: Message) returns (ttl: uint32)
    ensures ttl == Lowest(Records(m))
  {
    ttl := 0;
    var rs := Records(m);
    for i := 0 to |rs|
      invariant ttl == Lowest(rs[..i])
    {
      assert rs[..i + 1][..i] == rs[..i];
      if ttl == 0 || (rs[i].ttl > 0 && rs[i].ttl < ttl) { ttl := rs[i].ttl; }
    }
    assert rs[..|rs|] == rs;
  }

  ghost predicate FirstSoa(ns: seq<Record>, i: nat) {
    i < |ns| && ns[i].body.Soa? && forall j :: 0 <= j < i ==> !ns[j].body.Soa?
  }

  function Smaller(a: uint32, b: uint32): uint32 { if a < b then a else b }

  /** extractNegativeTTL: the first SOA of the authority section decides. */
  function NegativeTtl(ns: seq<Record>): (ttl: Option<uint32>)
    ensures ttl.None? ==> forall i :: 0 <= i < |ns| ==> !ns[i].body.Soa?
    ensures ttl.Some? ==> exists i: nat :: FirstSoa(ns, i) && ttl.value == Smaller(ns[i].ttl, ns[i].body.minttl)
  {
    if ns == [] then None
    else if ns[0].body.Soa? then
      assert FirstSoa(ns, 0);
      Some(Smaller(ns[0].ttl, ns[0].body.minttl))
    else
      var rest := NegativeTtl(ns[1..]);
      assert forall i :: 1 <= i < |ns| ==> ns[i] == ns[1..][i - 1];
      assert forall i: nat :: FirstSoa(ns[1..], i) ==> FirstSoa(ns, i + 1);
      rest
  }

  function ChosenTtl(m: Message, rewrite: Option<uint32>): uint32 {
    if rewrite.Some? then rewrite.value
    else if m.answer == [] && NegativeTtl(m.ns).Some? && NegativeTtl(m.ns).value > 0 then NegativeTtl(m.ns).value
    else Lowest(Records(m))
  }

  /** Without a rewrite, a nonempty answer is never kept longer than any positive TTL it carries. */
  lemma NeverKeptTooLong(m: Message, i: nat)
    requires m.answer != [] && i < |Records(m)| && Records(m)[i].ttl > 0
    ensures 0 < ChosenTtl(m, None) <= Records(m)[i].ttl
  {
    assert IsLowest(Records(m), Lowest(Records(m)));
  }

  /** A negative answer with a SOA is kept for the smaller of the SOA's TTL and MINIMUM, as section 5
      of RFC 2308 asks, exactly when that is positive or no record has a positive TTL: a zero falls
      through to the record scan, which counts the SOA's own TTL. */
  lemma NegativeTtlExactly(m: Message)
    requires m.answer == [] && NegativeTtl(m.ns).Some?
    ensures ChosenTtl(m, None) == NegativeTtl(m.ns).value <==>
            (NegativeTtl(m.ns).value > 0 || forall i :: 0 <= i < |Records(m)| ==> Records(m)[i].ttl == 0)
  {
    assert IsLowest(Records(m), Lowest(Records(m)));
  }

  lemma ZeroMinimumIsCached(text: string, ttl: uint32)
    requires ttl > 0
    ensures ChosenTtl(Message(0, 3, [], [Record(ttl, Soa(text, 0))], []), None) == ttl
  {
    var m := Message(0, 3, [], [Record(ttl, Soa(text, 0))], []);
    assert Records(m) == [Record(ttl, Soa(text, 0))];
    LowestIsUnique(Records(m), Lowest(Records(m)), ttl);
  }

  // ----- Writing it -----

  function SetTtl(rs: seq<Record>, ttl: uint32): (r: seq<Record>)
    ensures |r| == |rs| && forall i :: 0 <= i < |rs| ==> r[i] == rs[i].(ttl := ttl)
  {
    seq(|rs|, i requires 0 <= i < |rs| => rs[i].(ttl := ttl))
  }

  function Normalize(m: Message, ttl: uint32): Message {
    m.(answer := SetTtl(m.answer, ttl), ns := SetTtl(m.ns, ttl), extra := SetTtl(m.extra, ttl))
  }

  // ----- EDNS clean-up of a response that is already in the cache -----

  function DropOpt(rs: seq<Record>): (r: seq<Record>)
    ensures forall x :: x in r <==> x in rs && !x.body.Opt?
  {
    if rs == [] then [] else if rs[0].body.Opt? then DropOpt(rs[1..]) else [rs[0]] + DropOpt(rs[1..])
  }

  predicate HasOpt(rs: seq<Record>) { exists r :: r in rs && r.body.Opt? }

  /** EDNS version and DO bit are read from the TTL field (section 6.1.3 of RFC 6891), which by now holds `ttl`. */
  function Version(ttl: uint32): nat { (ttl / 0x1_0000) % 0x100 }
  predicate DoBit(ttl: uint32) { (ttl / 0x8000) % 2 == 1 }

  /** The OPT record is put back, with only its DO bit, when the request's EDNS version is below the one read. */
  predicate OptReadded(extra: seq<Record>, ttl: uint32, requestVersion: Option<nat>) {
    HasOpt(extra) && requestVersion.Some? && requestVersion.value < Version(ttl)
  }

  function FinishEdns(m: Message, ttl: uint32, requestVersion: Option<nat>): Message {
    if HasOpt(m.extra) && (requestVersion.None? || requestVersion.value < Version(ttl)) then
      var kept := DropOpt(m.extra);
      m.(extra := if requestVersion.Some? then kept + [Record(if DoBit(ttl) then 0x8000 else 0, Opt)] else kept)
    else m
  }

  // ----- Decay on load -----

  function Seconds(n: int): int { n * 1_000_000_000 }   // in nanoseconds

  function Remaining(expireAt: int, now: int): int { (expireAt - now) / 1_000_000_000 }

  function Wrap(x: int): uint32 { x % UINT32 }

  /** One record on load: shifted by the time spent in the cache, or given the remaining time. */
  function DecayRecord(r: Record, origin: uint32, nowTtl: int): Record {
    r.(ttl := if origin > 0 then Wrap(r.ttl - Wrap(origin - nowTtl)) else Wrap(nowTtl))
  }

  function DecayList(rs: seq<Record>, origin: uint32, nowTtl: int): (r: seq<Record>)
    ensures |r| == |rs| && forall i :: 0 <= i < |rs| ==> r[i] == DecayRecord(rs[i], origin, nowTtl)
  {
    seq(|rs|, i requires 0 <= i < |rs| => DecayRecord(rs[i], origin, nowTtl))
  }

  /** loadResponse: the served copy of a cached message. */
  function Decay(m: Message, expireAt: int, now: int): Message {
    var origin, nowTtl := Lowest(Records(m)), Remaining(expireAt, now);
    m.(answer := DecayList(m.answer, origin, nowTtl), ns := DecayList(m.ns, origin, nowTtl),
       extra := DecayList(m.extra, origin, nowTtl))
  }

  lemma DecayedRecords(m: Message, expireAt: int, now: int)
    ensures Records(Decay(m, expireAt, now)) == DecayList(Records(m), Lowest(Records(m)), Remaining(expireAt, now))
  {
  }

  lemma RemainingBounds(ttl: uint32, expireAt: int, now: int)
    requires now <= expireAt <= now + Seconds(ttl)
    ensures 0 <= Remaining(expireAt, now) <= ttl
  {
  }

  /** Subtracting the elapsed time leaves the remaining time: no wrap-around. */
  lemma ShiftLeavesRemaining(ttl: uint32, left: int)
    requires 0 <= left <= ttl
    ensures Wrap(ttl - Wrap(ttl - left)) == left
  {
  }

  /** Measured against the DO bit instead of the TTL, no remaining time comes out right. */
  lemma ShiftFromDoBitIsWrong(ttl: uint32, left: int)
    requires ttl >= 0x1_0000 && 0 <= left <= ttl
    ensures Wrap(ttl - Wrap(0x8000 - left)) != left
  {
    if left <= 0x8000 {
      assert Wrap(0x8000 - left) == 0x8000 - left;
    } else {
      assert Wrap(0x8000 - left) == UINT32 + 0x8000 - left;
      if ttl - 0x8000 + left < UINT32 {
        assert Wrap(ttl - (UINT32 + 0x8000 - left)) == ttl - 0x8000 + left;
      } else {
        assert Wrap(ttl - (UINT32 + 0x8000 - left)) == ttl - 0x8000 + left - UINT32;
      }
    }
  }

  lemma RemainingFalls(expireAt: int, earlier: int, later: int)
    requires earlier <= later
    ensures Remaining(expireAt, later) <= Remaining(expireAt, earlier)
  {
    assert expireAt - later <= expireAt - earlier;
  }

  // ----- The served TTL -----

  lemma LowestAmong(rs: seq<Record>, ttl: uint32, other: uint32, some: Record)
    requires some in rs && some.ttl == ttl > 0 && (other == 0 || other == ttl)
    requires forall r :: r in rs ==> r.ttl == ttl || r.ttl == other
    ensures Lowest(rs) == ttl
  {
    assert forall i :: 0 <= i < |rs| ==> rs[i] in rs;
    LowestIsUnique(rs, Lowest(rs), ttl);
  }

  lemma LowestBelow(rs: seq<Record>, ttl: uint32, low: uint32, some: Record)
    requires some in rs && some.ttl == low && 0 < low < ttl
    requires forall r :: r in rs ==> r.ttl == ttl || r.ttl == low
    ensures Lowest(rs) == low
  {
    assert forall i :: 0 <= i < |rs| ==> rs[i] in rs;
    LowestIsUnique(rs, Lowest(rs), low);
  }

  /** Every record is served with the whole seconds that remain. */
  ghost predicate AllServe(rs: seq<Record>, left: int) {
    forall r :: r in rs ==> r.ttl == left
  }

  /** The same for every record but the OPT, whose TTL field means something else. */
  ghost predicate DataServe(rs: seq<Record>, left: int) {
    forall r :: r in rs && !r.body.Opt? ==> r.ttl == left
  }

  lemma ServedFrom(rs: seq<Record>, origin: uint32, left: int, r: Record)
    requires r in rs
    ensures DecayRecord(r, origin, left) in DecayList(rs, origin, left)
  {
    var i :| 0 <= i < |rs| && rs[i] == r;
    assert DecayList(rs, origin, left)[i] == DecayRecord(r, origin, left);
  }

  lemma ServedComesFrom(rs: seq<Record>, origin: uint32, left: int, served: Record) returns (r: Record)
    requires served in DecayList(rs, origin, left)
    ensures r in rs && served == DecayRecord(r, origin, left)
  {
    var i :| 0 <= i < |rs| && DecayList(rs, origin, left)[i] == served;
    r := rs[i];
  }

  /** Records that all carry one TTL are all served right, whatever that TTL is. */
  lemma OneTtlServesRight(rs: seq<Record>, ttl: uint32, left: int)
    requires 0 <= left < UINT32 && forall r :: r in rs ==> r.ttl == ttl
    ensures AllServe(DecayList(rs, Lowest(rs), left), left)
  {
    if rs != [] {
      OneTtlIsLowest(rs, ttl);
      forall x | x in DecayList(rs, ttl, left) ensures x.ttl == left {
        var r := ServedComesFrom(rs, ttl, left, x);
        DecayedRight(r, left);
      }
    }
  }

  lemma DecayedRight(r: Record, left: int)
    requires 0 <= left < UINT32
    ensures DecayRecord(r, r.ttl, left).ttl == left
  {
    WrapBack(r.ttl, left);
  }

  lemma OneTtlIsLowest(rs: seq<Record>, ttl: uint32)
    requires rs != [] && forall r :: r in rs ==> r.ttl == ttl
    ensures Lowest(rs) == ttl
  {
    assert forall i :: 0 <= i < |rs| ==> rs[i] in rs;
    assert rs[0].ttl == ttl;
    LowestIsUnique(rs, Lowest(rs), ttl);
  }

  lemma WrapBack(ttl: uint32, left: int)
    requires 0 <= left < UINT32
    ensures Wrap(ttl - Wrap(ttl - left)) == left && Wrap(left) == left
  {
  }

  lemma DataServedRight(rs: seq<Record>, ttl: uint32, left: int)
    requires 0 <= left <= ttl && forall r :: r in rs && !r.body.Opt? ==> r.ttl == ttl
    ensures ttl > 0 ==> DataServe(DecayList(rs, ttl, left), left)
  {
    ShiftLeavesRemaining(ttl, left);
    forall x | x in DecayList(rs, ttl, left) && !x.body.Opt? ensures ttl > 0 ==> x.ttl == left {
      var r := ServedComesFrom(rs, ttl, left, x);
    }
  }

  /** A message whose records are at `ttl`, except that an OPT at `put` may be among them. */
  ghost predicate CleanedUp(f: Message, ttl: uint32, put: Option<uint32>) {
    && (forall r :: r in Records(f) ==> r.ttl == ttl || (put.Some? && r == Record(put.value, Opt)))
    && (put.Some? ==>
      Record(put.value, Opt) in Records(f) && (put.value == 0 || put.value == 0x8000) && ttl >= 0x1_0000)
  }

  /** Some record other than the OPT that was put back. */
  ghost predicate HasAt(rs: seq<Record>, ttl: uint32) { exists r :: r in rs && r.ttl == ttl }

  ghost predicate HasData(rs: seq<Record>) { exists r :: r in rs && !r.body.Opt? }

  lemma LowestCleanedUp(f: Message, ttl: uint32, put: Option<uint32>)
    requires CleanedUp(f, ttl, put) && ttl > 0 && HasAt(Records(f), ttl)
    ensures Lowest(Records(f)) == if put == Some(0x8000) then 0x8000 else ttl
  {
    var rs := Records(f);
    var some :| some in rs && some.ttl == ttl;
    if put == Some(0x8000) {
      LowestBelow(rs, ttl, 0x8000, Record(0x8000, Opt));
    } else {
      LowestAmong(rs, ttl, if put.Some? then 0 else ttl, some);
    }
  }

  /** All records of a cleaned-up message are served right if and only if no OPT was put back among others. */
  lemma CleanedUpServesAll(f: Message, ttl: uint32, put: Option<uint32>, expireAt: int, now: int)
    requires CleanedUp(f, ttl, put) && ttl > 0 && now <= expireAt <= now + Seconds(ttl)
    ensures AllServe(Records(Decay(f, expireAt, now)), Remaining(expireAt, now)) <==>
              !(put.Some? && HasAt(Records(f), ttl))
  {
    RemainingBounds(ttl, expireAt, now);
    DecayedRecords(f, expireAt, now);
    DecayServesAll(f, ttl, put, Remaining(expireAt, now));
  }

  lemma DecayServesAll(f: Message, ttl: uint32, put: Option<uint32>, left: int)
    requires CleanedUp(f, ttl, put) && ttl > 0 && 0 <= left <= ttl
    ensures AllServe(DecayList(Records(f), Lowest(Records(f)), left), left) <==> !(put.Some? && HasAt(Records(f), ttl))
  {
    if put.Some? && HasAt(Records(f), ttl) {
      LowestCleanedUp(f, ttl, put);
      PutBackServesWrong(Records(f), ttl, put.value, left);
    } else {
      OneTtlServesRight(Records(f), if put.Some? then put.value else ttl, left);
    }
  }

  lemma PutBackServesWrong(rs: seq<Record>, ttl: uint32, put: uint32, left: int)
    requires HasAt(rs, ttl) && Record(put, Opt) in rs && ttl >= 0x1_0000 && 0 <= left <= ttl
    requires put == 0 || put == 0x8000
    ensures !AllServe(DecayList(rs, if put == 0x8000 then 0x8000 else ttl, left), left)
  {
    if put == 0 {
      ServedFrom(rs, ttl, left, Record(put, Opt));
      ZeroWraps(ttl, left);
    } else {
      var some :| some in rs && some.ttl == ttl;
      ServedFrom(rs, 0x8000, left, some);
      ShiftFromDoBitIsWrong(ttl, left);
    }
  }

  /** An OPT put back at 0 beside records at `ttl` wraps around. */
  lemma ZeroWraps(ttl: uint32, left: int)
    requires 0 < ttl && 0 <= left <= ttl
    ensures Wrap(0 - Wrap(ttl - left)) != left
    ensures left < ttl ==> Wrap(0 - Wrap(ttl - left)) == UINT32 - (ttl - left)
  {
  }

  /** Its data records are served right if and only if no OPT carrying the DO bit was put back beside them. */
  lemma CleanedUpServesData(f: Message, ttl: uint32, put: Option<uint32>, expireAt: int, now: int)
    requires CleanedUp(f, ttl, put) && ttl > 0 && now <= expireAt <= now + Seconds(ttl)
    ensures DataServe(Records(Decay(f, expireAt, now)), Remaining(expireAt, now)) <==>
              !(put == Some(0x8000) && HasData(Records(f)))
  {
    RemainingBounds(ttl, expireAt, now);
    DecayedRecords(f, expireAt, now);
    DecayServesData(f, ttl, put, Remaining(expireAt, now));
  }

  lemma DecayServesData(f: Message, ttl: uint32, put: Option<uint32>, left: int)
    requires CleanedUp(f, ttl, put) && ttl > 0 && 0 <= left <= ttl
    ensures DataServe(DecayList(Records(f), Lowest(Records(f)), left), left) <==>
              !(put == Some(0x8000) && HasData(Records(f)))
  {
    if HasData(Records(f)) {
      assert HasAt(Records(f), ttl);
      LowestCleanedUp(f, ttl, put);
      if put == Some(0x8000) {
        DataServedWrong(Records(f), ttl, left);
      } else {
        DataServedRight(Records(f), ttl, left);
      }
    } else {
      NoDataServed(Records(f), Lowest(Records(f)), left);
    }
  }

  lemma DataServedWrong(rs: seq<Record>, ttl: uint32, left: int)
    requires HasData(rs) && ttl >= 0x1_0000 && 0 <= left <= ttl && forall r :: r in rs && !r.body.Opt? ==> r.ttl == ttl
    ensures !DataServe(DecayList(rs, 0x8000, left), left)
  {
    var some :| some in rs && !some.body.Opt?;
    ServedFrom(rs, 0x8000, left, some);
    ShiftFromDoBitIsWrong(ttl, left);
  }

  lemma NoDataServed(rs: seq<Record>, origin: uint32, left: int)
    requires !HasData(rs)
    ensures DataServe(DecayList(rs, origin, left), left)
  {
    forall x | x in DecayList(rs, origin, left) ensures x.body.Opt? {
      var r := ServedComesFrom(rs, origin, left, x);
    }
  }

  function PutBack(extra: seq<Record>, ttl: uint32, requestVersion: Option<nat>): Option<uint32> {
    if OptReadded(extra, ttl, requestVersion) then Some(if DoBit(ttl) then 0x8000 else 0) else None
  }

  lemma VersionNeedsALongTtl(ttl: uint32)
    requires Version(ttl) > 0
    ensures ttl >= 0x1_0000
  {
  }

  lemma NormalizedRecords(m: Message, ttl: uint32, r: Record)
    requires r in Records(Normalize(m, ttl))
    ensures r.ttl == ttl
  {
  }

  /** What the EDNS clean-up leaves: records at `ttl`, and possibly one OPT holding only the DO bit. */
  lemma FinishCleansUp(m: Message, ttl: uint32, requestVersion: Option<nat>)
    ensures var n := Normalize(m, ttl);
            var f := FinishEdns(n, ttl, requestVersion);
            && CleanedUp(f, ttl, PutBack(n.extra, ttl, requestVersion))
            && forall r :: r in Records(n) && !r.body.Opt? ==> r in Records(f)
  {
    var n := Normalize(m, ttl);
    var f, put := FinishEdns(n, ttl, requestVersion), PutBack(n.extra, ttl, requestVersion);
    if put.Some? { VersionNeedsALongTtl(ttl); }
    forall r | r in Records(f) ensures r.ttl == ttl || (put.Some? && r == Record(put.value, Opt)) {
      if r in Records(n) { NormalizedRecords(m, ttl, r); }
      assert r in f.answer || r in f.ns || r in f.extra;
    }
    if put.Some? { assert Record(put.value, Opt) in f.extra; }
    forall r | r in Records(n) && !r.body.Opt? ensures r in Records(f) {
      assert r in n.answer || r in n.ns || r in n.extra;
      assert r in n.extra ==> r in f.extra;
    }
  }

  /** Some record that the clean-up leaves alone: any in answer or authority, or one other than OPT in additional. */
  ghost predicate KeepsSome(m: Message) { m.answer != [] || m.ns != [] || HasData(m.extra) }

  lemma NormalizedHas(m: Message, ttl: uint32)
    ensures var n := Normalize(m, ttl); HasOpt(n.extra) == HasOpt(m.extra) && HasData(n.extra) == HasData(m.extra)
    ensures HasData(Records(Normalize(m, ttl))) == HasData(Records(m)) && KeepsSome(Normalize(m, ttl)) == KeepsSome(m)
  {
    SetTtlKeepsBodies(m.answer, ttl);
    SetTtlKeepsBodies(m.ns, ttl);
    SetTtlKeepsBodies(m.extra, ttl);
    DataOfRecords(m);
    DataOfRecords(Normalize(m, ttl));
  }

  lemma SetTtlKeepsBodies(rs: seq<Record>, ttl: uint32)
    ensures HasOpt(SetTtl(rs, ttl)) == HasOpt(rs) && HasData(SetTtl(rs, ttl)) == HasData(rs)
  {
    var out := SetTtl(rs, ttl);
    forall r | r in rs ensures r.(ttl := ttl) in out {
      var i :| 0 <= i < |rs| && rs[i] == r;
      assert out[i] == r.(ttl := ttl);
    }
    forall x | x in out ensures exists r :: r in rs && r.body == x.body {
      var i :| 0 <= i < |out| && out[i] == x;
      assert rs[i] in rs && rs[i].body == x.body;
    }
  }

  lemma DataOfRecords(m: Message)
    ensures HasData(Records(m)) <==> HasData(m.answer) || HasData(m.ns) || HasData(m.extra)
  {
    assert forall r :: r in Records(m) <==> r in m.answer || r in m.ns || r in m.extra;
  }

  /** After a put-back, a record at the chosen TTL is one that the clean-up left alone. */
  lemma KeptIsAt(m: Message, ttl: uint32, requestVersion: Option<nat>)
    requires OptReadded(Normalize(m, ttl).extra, ttl, requestVersion)
    ensures HasAt(Records(FinishEdns(Normalize(m, ttl), ttl, requestVersion)), ttl) <==> KeepsSome(m)
  {
    var n := Normalize(m, ttl);
    var f := FinishEdns(n, ttl, requestVersion);
    VersionNeedsALongTtl(ttl);
    NormalizedHas(m, ttl);
    assert forall r :: r in Records(f) <==> r in f.answer || r in f.ns || r in f.extra;
    assert forall r :: r in f.extra && r.ttl == ttl ==> r in n.extra && !r.body.Opt?;
    if m.answer != [] { assert n.answer[0] in f.answer && n.answer[0].ttl == ttl; }
    if m.ns != [] { assert n.ns[0] in f.ns && n.ns[0].ttl == ttl; }
    if HasData(n.extra) {
      var r :| r in n.extra && !r.body.Opt?;
      assert r in f.extra && r in Records(n);
      NormalizedRecords(m, ttl, r);
    }
  }

  /** A cached answer, cleaned up and loaded at any instant before it expires: every record is served
      with "lifetime minus elapsed" if and only if no OPT was put back beside a record that stays. */
  lemma ServedRightExactly(m: Message, ttl: uint32, requestVersion: Option<nat>, expireAt: int, now: int)
    requires ttl > 0 && now <= expireAt <= now + Seconds(ttl)
    ensures 0 <= Remaining(expireAt, now) <= ttl
    ensures var served := Decay(FinishEdns(Normalize(m, ttl), ttl, requestVersion), expireAt, now);
            AllServe(Records(served), Remaining(expireAt, now)) <==>
              !(OptReadded(m.extra, ttl, requestVersion) && KeepsSome(m))
  {
    var n := Normalize(m, ttl);
    RemainingBounds(ttl, expireAt, now);
    FinishCleansUp(m, ttl, requestVersion);
    NormalizedHas(m, ttl);
    CleanedUpServesAll(FinishEdns(n, ttl, requestVersion), ttl, PutBack(n.extra, ttl, requestVersion), expireAt, now);
    if OptReadded(n.extra, ttl, requestVersion) { KeptIsAt(m, ttl, requestVersion); }
  }

  /** Leaving the OPT out of account: the data records are served right if and only if the OPT that
      was put back beside them does not carry the DO bit. */
  lemma DataServedRightExactly(m: Message, ttl: uint32, requestVersion: Option<nat>, expireAt: int, now: int)
    requires ttl > 0 && now <= expireAt <= now + Seconds(ttl)
    ensures var served := Decay(FinishEdns(Normalize(m, ttl), ttl, requestVersion), expireAt, now);
            DataServe(Records(served), Remaining(expireAt, now)) <==>
            !(OptReadded(m.extra, ttl, requestVersion) && DoBit(ttl) && HasData(Records(m)))
  {
    var n := Normalize(m, ttl);
    var f := FinishEdns(n, ttl, requestVersion);
    FinishCleansUp(m, ttl, requestVersion);
    NormalizedHas(m, ttl);
    assert HasData(Records(f)) <==> HasData(Records(n)) by {
      DataOfRecords(n);
      DataOfRecords(f);
    }
    CleanedUpServesData(f, ttl, PutBack(n.extra, ttl, requestVersion), expireAt, now);
  }

  /** The DO bit is not needed for a failure: an answer at 0x10000 whose OPT is put back at 0 and which is
      loaded a second later is served with the right TTL on its data and 0xFFFFFFFF on its OPT. */
  lemma PutBackOptWrapsAround(text: string)
    ensures var m := Message(0, 0, [Record(0x1_0000, Data(text))], [], [Record(0, Opt)]);
            var f := FinishEdns(Normalize(m, 0x1_0000), 0x1_0000, Some(0));
            Decay(f, Seconds(0x1_0000), Seconds(1)) ==
            Message(0, 0, [Record(0xFFFF, Data(text))], [], [Record(0xFFFF_FFFF, Opt)])
  {
    var ttl: uint32 := 0x1_0000;
    var m := Message(0, 0, [Record(ttl, Data(text))], [], [Record(0, Opt)]);
    var n := Normalize(m, ttl);
    assert n.extra == [Record(ttl, Opt)] && n.extra[0].body.Opt?;
    assert DropOpt(n.extra) == [] by { assert n.extra[1..] == []; }
    assert FinishEdns(n, ttl, Some(0)) == Message(0, 0, [Record(ttl, Data(text))], [], [Record(0, Opt)]);
    assert Remaining(Seconds(ttl), Seconds(1)) == 0xFFFF;
    ZeroBesideData(text);
  }

  lemma ZeroBesideData(text: string)
    ensures var f := Message(0, 0, [Record(0x1_0000, Data(text))], [], [Record(0, Opt)]);
            Decay(f, Seconds(0x1_0000), Seconds(1)) ==
            Message(0, 0, [Record(0xFFFF, Data(text))], [], [Record(0xFFFF_FFFF, Opt)])
  {
    var f := Message(0, 0, [Record(0x1_0000, Data(text))], [], [Record(0, Opt)]);
    var rs := Records(f);
    assert rs == [Record(0x1_0000, Data(text)), Record(0, Opt)] && rs[0] in rs;
    LowestAmong(rs, 0x1_0000, 0, rs[0]);
    var left := Remaining(Seconds(0x1_0000), Seconds(1));
    assert left == 0xFFFF;
    assert Wrap(0x1_0000 - Wrap(0x1_0000 - left)) == left && Wrap(0 - Wrap(0x1_0000 - left)) == 0xFFFF_FFFF;
    assert DecayList(f.answer, 0x1_0000, left) == [Record(0xFFFF, Data(text))];
    assert DecayList(f.extra, 0x1_0000, left) == [Record(0xFFFF_FFFF, Opt)];
  }
}
