/** The three structures that the outbound and the DNS transport manager keep in
    step: the ordered member list, the by-tag map, and the reverse dependency index. */
module TagIndex {
  import opened Optional
  import DS = DependencyStart

  /** `id` stands for object identity: two members built from the same options differ. */
  datatype Member = Member(tag: string, deps: seq<string>, kind: string, id: nat)

  type DependIndex = map<string, seq<string>>

  datatype Index = Index(list: seq<Member>, byTag: map<string, Member>, dependBy: DependIndex)

  const EMPTY := Index([], map[], map[])

  // ----- Invariants -----

  /** The list is duplicate-free by tag and in bijection with the map. */
  ghost predicate Consistent(ix: Index) {
    && (forall i, j :: 0 <= i < j < |ix.list| ==> ix.list[i].tag != ix.list[j].tag)
    && (forall m :: m in ix.list ==> m.tag in ix.byTag && ix.byTag[m.tag] == m)
    && (forall t :: t in ix.byTag ==> ix.byTag[t].tag == t && ix.byTag[t] in ix.list)
  }

  /** Every live dependency is recorded in the reverse index. */
  ghost predicate Complete(ix: Index) {
    forall m, d :: m in ix.list && d in m.deps ==> m.tag in Get(ix.dependBy, d)
  }

  /** Live members that depend on `tag`. */
  ghost predicate DependedOn(ix: Index, tag: string) {
    exists m :: m in ix.list && tag in m.deps
  }

  predicate DuplicateFree(deps: seq<string>) {
    forall i, j :: 0 <= i < j < |deps| ==> deps[i] != deps[j]
  }

  // ----- Reverse dependency index -----

  /** Reading a missing key of a Go map of slices gives nil. */
  function Get(db: DependIndex, tag: string): seq<string> {
    if tag in db then db[tag] else []
  }

  function Filter(s: seq<string>, tag: string): (r: seq<string>)
    ensures forall x :: x in r <==> x in s && x != tag
    ensures |r| <= |s|
    ensures tag !in s ==> r == s
  {
    if s == [] then [] else if s[0] == tag then Filter(s[1..], tag) else [s[0]] + Filter(s[1..], tag)
  }

  function RecordDeps(db: DependIndex, deps: seq<string>, tag: string): DependIndex
    decreases deps
  {
    if deps == [] then db else RecordDeps(db[deps[0] := Get(db, deps[0]) + [tag]], deps[1..], tag)
  }

  function DropOne(db: DependIndex, d: string, tag: string): DependIndex {
    if |Get(db, d)| == 1 then db - {d} else db[d := Filter(Get(db, d), tag)]
  }

  function DropDeps(db: DependIndex, deps: seq<string>, tag: string): DependIndex
    decreases deps
  {
    if deps == [] then db else DropDeps(DropOne(db, deps[0], tag), deps[1..], tag)
  }

  function Copies(tag: string, n: nat): (r: seq<string>)
    ensures |r| == n && forall x :: x in r ==> x == tag
  {
    if n == 0 then [] else [tag] + Copies(tag, n - 1)
  }

  lemma OneMoreCopy(entry: seq<string>, tag: string, n: nat)
    ensures entry + [tag] + Copies(tag, n) == entry + Copies(tag, n + 1)
  {
  }

  lemma RecordOneAt(db: DependIndex, x: string, tag: string, d: string)
    ensures Get(db[x := Get(db, x) + [tag]], d) == if x == d then Get(db, d) + [tag] else Get(db, d)
  {
  }

  lemma OccurrencesOf(deps: seq<string>, d: string)
    requires deps != []
    ensures multiset(deps)[d] == multiset(deps[1..])[d] + if deps[0] == d then 1 else 0
  {
    assert deps == [deps[0]] + deps[1..];
  }

  /** Recording appends one copy of the tag per occurrence of the dependency and touches nothing else. */
  lemma {:induction false} RecordDepsAt(db: DependIndex, deps: seq<string>, tag: string, d: string)
    ensures Get(RecordDeps(db, deps, tag), d) == Get(db, d) + Copies(tag, multiset(deps)[d])
    decreases deps
  {
    if deps == [] {
      assert Get(db, d) + [] == Get(db, d);
    } else {
      RecordDepsAt(db[deps[0] := Get(db, deps[0]) + [tag]], deps[1..], tag, d);
      RecordOneAt(db, deps[0], tag, d);
      OccurrencesOf(deps, d);
      OneMoreCopy(Get(db, d), tag, multiset(deps[1..])[d]);
    }
  }

  /** What n removals of the same dependency do to its entry. */
  function DropList(entry: seq<string>, n: nat, tag: string): seq<string>
    decreases n
  {
    if n == 0 then entry else DropList(if |entry| == 1 then [] else Filter(entry, tag), n - 1, tag)
  }

  lemma DropOneAt(db: DependIndex, x: string, tag: string, d: string)
    ensures Get(DropOne(db, x, tag), d) ==
            if x == d then (if |Get(db, d)| == 1 then [] else Filter(Get(db, d), tag)) else Get(db, d)
  {
  }

  lemma {:induction false} DropDepsAt(db: DependIndex, deps: seq<string>, tag: string, d: string)
    ensures Get(DropDeps(db, deps, tag), d) == DropList(Get(db, d), multiset(deps)[d], tag)
    decreases deps
  {
    if deps == [] {
    } else {
      DropDepsAt(DropOne(db, deps[0], tag), deps[1..], tag, d);
      DropOneAt(db, deps[0], tag, d);
      OccurrencesOf(deps, d);
    }
  }

  lemma {:induction false} DropListStable(entry: seq<string>, n: nat, tag: string)
    requires tag !in entry
    ensures DropList(entry, n, tag) == if n > 0 && |entry| == 1 then [] else entry
    decreases n
  {
    if n == 0 {
    } else {
      DropListStable(if |entry| == 1 then [] else entry, n - 1, tag);
    }
  }

  /** One removal: a single record goes whoever it names, otherwise the tag is filtered out. */
  function DropOnce(entry: seq<string>, tag: string): (r: seq<string>)
    ensures tag in entry ==> r == Filter(entry, tag)
  {
    assert |entry| == 1 && tag in entry ==> entry == [tag] && Filter(entry, tag) == [];
    if |entry| == 1 then [] else Filter(entry, tag)
  }

  /** What dropping a member's records does to each entry: one removal, except that a dependency listed
      twice also wipes out the one dependent that is left. */
  lemma DropDepsExact(db: DependIndex, deps: seq<string>, tag: string, d: string)
    ensures Get(DropDeps(db, deps, tag), d) ==
            if d !in deps then Get(db, d)
            else if multiset(deps)[d] >= 2 && |DropOnce(Get(db, d), tag)| == 1 then []
            else DropOnce(Get(db, d), tag)
  {
    DropDepsAt(db, deps, tag, d);
    DropListExact(Get(db, d), multiset(deps)[d], tag);
  }

  lemma DropListExact(entry: seq<string>, n: nat, tag: string)
    ensures DropList(entry, n, tag) ==
            if n == 0 then entry else if n >= 2 && |DropOnce(entry, tag)| == 1 then [] else DropOnce(entry, tag)
  {
    if n > 0 { DropListStable(DropOnce(entry, tag), n - 1, tag); }
  }

  // ----- List and map -----

  function IndexOf(list: seq<Member>, m: Member): (i: int)
    ensures -1 <= i < |list|
    ensures i == -1 <==> m !in list
    ensures i >= 0 ==> list[i] == m && m !in list[..i]
  {
    if list == [] then -1
    else if list[0] == m then 0
    else
      var r := IndexOf(list[1..], m);
      assert r >= 0 ==> list[..r + 1] == [list[0]] + list[1..][..r];
      if r == -1 then -1 else r + 1
  }

  function RemoveAt(list: seq<Member>, i: nat): (r: seq<Member>)
    requires i < |list|
    ensures |r| == |list| - 1
  {
    list[..i] + list[i + 1..]
  }

  /** The list and map after taking out the member filed under `tag`. */
  function Detach(ix: Index, tag: string): Index
    requires tag in ix.byTag && ix.byTag[tag] in ix.list
  {
    ix.(list := RemoveAt(ix.list, IndexOf(ix.list, ix.byTag[tag])), byTag := ix.byTag - {tag})
  }

  function Attach(ix: Index, m: Member): Index {
    Index(ix.list + [m], ix.byTag[m.tag := m], RecordDeps(ix.dependBy, m.deps, m.tag))
  }

  lemma RemovedAtKeeps(list: seq<Member>, i: nat, m: Member)
    requires i < |list| && forall j, k :: 0 <= j < k < |list| ==> list[j].tag != list[k].tag
    ensures m in RemoveAt(list, i) <==> m in list && m.tag != list[i].tag
  {
    var out := RemoveAt(list, i);
    if m in out {
      var k :| 0 <= k < |out| && out[k] == m;
      assert list[if k < i then k else k + 1] == m;
    }
    if m in list && m.tag != list[i].tag {
      var k :| 0 <= k < |list| && list[k] == m;
      assert out[if k < i then k else k - 1] == m;
    }
  }

  lemma DetachedMembers(ix: Index, tag: string, m: Member)
    requires Consistent(ix) && tag in ix.byTag
    ensures m in Detach(ix, tag).list <==> m in ix.list && m.tag != tag
  {
    RemovedAtKeeps(ix.list, IndexOf(ix.list, ix.byTag[tag]), m);
  }

  lemma DetachedTags(ix: Index, tag: string)
    requires Consistent(ix) && tag in ix.byTag
    ensures var out := Detach(ix, tag).list; forall i, j :: 0 <= i < j < |out| ==> out[i].tag != out[j].tag
  {
    RemovedAtDistinct(ix.list, IndexOf(ix.list, ix.byTag[tag]));
  }

  lemma RemovedAtDistinct(list: seq<Member>, n: nat)
    requires n < |list| && forall i, j :: 0 <= i < j < |list| ==> list[i].tag != list[j].tag
    ensures var out := RemoveAt(list, n); forall i, j :: 0 <= i < j < |out| ==> out[i].tag != out[j].tag
  {
    var out := RemoveAt(list, n);
    forall i, j | 0 <= i < j < |out| ensures out[i].tag != out[j].tag {
      var i', j' := if i < n then i else i + 1, if j < n then j else j + 1;
      assert out[i] == list[i'] && out[j] == list[j'];
    }
  }

  lemma DetachKeeps(ix: Index, tag: string)
    requires Consistent(ix) && tag in ix.byTag
    ensures Consistent(Detach(ix, tag))
    ensures tag !in Detach(ix, tag).byTag
    ensures forall m :: m in Detach(ix, tag).list <==> m in ix.list && m.tag != tag
    ensures Complete(ix) ==> Complete(Detach(ix, tag))
  {
    DetachedTags(ix, tag);
    forall m ensures m in Detach(ix, tag).list <==> m in ix.list && m.tag != tag { DetachedMembers(ix, tag, m); }
  }

  lemma AttachKeeps(ix: Index, m: Member)
    requires Consistent(ix) && m.tag !in ix.byTag
    ensures Consistent(Attach(ix, m))
    ensures Complete(ix) ==> Complete(Attach(ix, m))
    ensures forall x :: x in Attach(ix, m).list <==> x in ix.list || x == m
  {
    if Complete(ix) {
      var out := Attach(ix, m);
      forall x, d | x in out.list && d in x.deps ensures x.tag in Get(out.dependBy, d) {
        RecordDepsAt(ix.dependBy, m.deps, m.tag, d);
        if x in ix.list {
          assert x.tag in Get(ix.dependBy, d);
        } else {
          var copies := Copies(m.tag, multiset(m.deps)[d]);
          assert copies[0] == m.tag;
          assert Get(out.dependBy, d)[|Get(ix.dependBy, d)|] == m.tag;
        }
      }
    }
  }

  /** A created member replaces the one filed under its tag. */
  function Replace(ix: Index, m: Member): Index
    requires m.tag in ix.byTag ==> ix.byTag[m.tag] in ix.list
  {
    Attach(if m.tag in ix.byTag then Detach(ix, m.tag) else ix, m)
  }

  lemma ReplaceKeeps(ix: Index, m: Member)
    requires Consistent(ix)
    ensures Consistent(Replace(ix, m))
    ensures Complete(ix) ==> Complete(Replace(ix, m))
    ensures forall x :: x in Replace(ix, m).list <==> x == m || (x in ix.list && x.tag != m.tag)
  {
    if m.tag in ix.byTag {
      DetachKeeps(ix, m.tag);
      AttachKeeps(Detach(ix, m.tag), m);
    } else {
      AttachKeeps(ix, m);
    }
  }

  /** Dropping the records of a detached member loses a live dependent exactly when
      some dependency is repeated and its only other recorded dependent is live. */
  ghost predicate LosesRecord(ix: Index, gone: Member) {
    exists d, m :: d in gone.deps && multiset(gone.deps)[d] >= 2 && m in ix.list && d in m.deps &&
      Filter(Get(ix.dependBy, d), gone.tag) == [m.tag]
  }

  lemma DropKeepsCompleteExactly(ix: Index, gone: Member)
    requires Complete(ix) && gone !in ix.list && (forall m :: m in ix.list ==> m.tag != gone.tag)
    requires forall d :: d in gone.deps ==> gone.tag in Get(ix.dependBy, d)
    ensures Complete(ix.(dependBy := DropDeps(ix.dependBy, gone.deps, gone.tag))) <==> !LosesRecord(ix, gone)
  {
    var after := DropDeps(ix.dependBy, gone.deps, gone.tag);
    var out := ix.(dependBy := after);
    forall m, d | m in ix.list && d in m.deps
      ensures m.tag in Get(after, d) <==>
        !(d in gone.deps && multiset(gone.deps)[d] >= 2 && Filter(Get(ix.dependBy, d), gone.tag) == [m.tag])
    {
      DropDepsExact(ix.dependBy, gone.deps, gone.tag, d);
      var f := Filter(Get(ix.dependBy, d), gone.tag);
      assert m.tag in f;
      assert |f| == 1 ==> f == [m.tag];
    }
  }

  lemma DuplicateFreeNeverLoses(ix: Index, gone: Member)
    requires DuplicateFree(gone.deps)
    ensures !LosesRecord(ix, gone)
  {
    forall d ensures multiset(gone.deps)[d] <= 1 { OccursOnce(gone.deps, d); }
  }

  lemma {:induction false} OccursOnce(deps: seq<string>, d: string)
    requires DuplicateFree(deps)
    ensures multiset(deps)[d] <= 1
  {
    if deps == [] {
    } else {
      OccursOnce(deps[1..], d);
      assert deps == [deps[0]] + deps[1..];
      if deps[0] == d { assert d !in deps[1..]; }
    }
  }

  // ----- Stale records -----

  /** Every record names a live member that has the dependency. */
  ghost predicate RecordsLive(ix: Index) {
    forall d, t :: t in Get(ix.dependBy, d) ==> t in ix.byTag && d in ix.byTag[t].deps
  }

  /** With live and complete records, an entry is nonempty exactly when something live depends on its tag. */
  lemma RecordedExactly(ix: Index, tag: string)
    requires Consistent(ix) && Complete(ix) && RecordsLive(ix)
    ensures Get(ix.dependBy, tag) != [] <==> DependedOn(ix, tag)
  {
    var entry := Get(ix.dependBy, tag);
    if entry != [] {
      assert entry[0] in entry;
      assert ix.byTag[entry[0]] in ix.list && tag in ix.byTag[entry[0]].deps;
    }
  }

  /** Replacing a member keeps all records live if and only if the new one has every dependency of the old. */
  lemma ReplaceKeepsRecordsLiveExactly(ix: Index, m: Member)
    requires Consistent(ix) && Complete(ix) && RecordsLive(ix)
    ensures RecordsLive(Replace(ix, m)) <==>
              (m.tag in ix.byTag ==> forall d :: d in ix.byTag[m.tag].deps ==> d in m.deps)
  {
    var out := Replace(ix, m);
    forall d, t ensures t in Get(out.dependBy, d) <==> t in Get(ix.dependBy, d) || (t == m.tag && d in m.deps) {
      RecordDepsAt(ix.dependBy, m.deps, m.tag, d);
      CopiesOf(m.tag, multiset(m.deps)[d], t);
    }
    assert forall t :: t in out.byTag <==> t in ix.byTag || t == m.tag;
    if m.tag in ix.byTag {
      assert forall d :: d in ix.byTag[m.tag].deps ==> m.tag in Get(out.dependBy, d);
    }
  }

  lemma CopiesOf(tag: string, n: nat, t: string)
    ensures t in Copies(tag, n) <==> t == tag && n > 0
  {
    if n > 0 { assert Copies(tag, n)[0] == tag; }
  }

  /** Taking a member out without dropping its records keeps all records live if and only if it had no dependency. */
  lemma DetachKeepsRecordsLiveExactly(ix: Index, tag: string)
    requires Consistent(ix) && Complete(ix) && RecordsLive(ix) && tag in ix.byTag
    ensures RecordsLive(Detach(ix, tag)) <==> ix.byTag[tag].deps == []
  {
    var gone := ix.byTag[tag];
    if gone.deps != [] {
      assert gone.deps[0] in gone.deps && tag in Get(ix.dependBy, gone.deps[0]);
    }
  }

  /** Dropping them as well always does. */
  lemma DropKeepsRecordsLive(ix: Index, tag: string)
    requires RecordsLive(ix) && tag in ix.byTag && ix.byTag[tag] in ix.list
    ensures RecordsLive(Detach(ix, tag).(dependBy := DropDeps(ix.dependBy, ix.byTag[tag].deps, tag)))
  {
    var gone := ix.byTag[tag];
    var out := Detach(ix, tag).(dependBy := DropDeps(ix.dependBy, gone.deps, tag));
    forall d, t | t in Get(out.dependBy, d) ensures t in out.byTag && d in out.byTag[t].deps {
      LeftIsLive(ix, tag, d, t);
    }
  }

  lemma LeftIsLive(ix: Index, tag: string, d: string, t: string)
    requires RecordsLive(ix) && tag in ix.byTag && t in Get(DropDeps(ix.dependBy, ix.byTag[tag].deps, tag), d)
    ensures t in ix.byTag && t != tag && d in ix.byTag[t].deps
  {
    LeftWasThere(ix.dependBy, ix.byTag[tag].deps, tag, d, t);
  }

  lemma LeftWasThere(db: DependIndex, deps: seq<string>, tag: string, d: string, t: string)
    requires t in Get(DropDeps(db, deps, tag), d)
    ensures t in Get(db, d) && (d in deps ==> t != tag)
  {
    DropDepsExact(db, deps, tag, d);
  }

  // ----- Loops shared by the managers -----

  method FindIndex(list: seq<Member>, m: Member) returns (index: int)
    ensures index == IndexOf(list, m)
  {
    for i := 0 to |list|
      invariant m !in list[..i]
    {
      if list[i] == m {
        var j := IndexOf(list, m);
        assert forall k :: 0 <= k < i ==> list[..i][k] != m;
        assert forall k :: 0 <= k < j ==> list[..j][k] != m;
        assert j == i;
        return i;
      }
    }
    assert list[..|list|] == list;
    return -1;
  }

  method RecordAll(db0: DependIndex, deps: seq<string>, tag: string) returns (db: DependIndex)
    ensures db == RecordDeps(db0, deps, tag)
  {
    db := db0;
    assert deps[0..] == deps;
    for i := 0 to |deps|
      invariant RecordDeps(db, deps[i..], tag) == RecordDeps(db0, deps, tag)
    {
      assert deps[i..][1..] == deps[i + 1..];
      db := db[deps[i] := Get(db, deps[i]) + [tag]];
    }
  }

  method DropAll(db0: DependIndex, deps: seq<string>, tag: string) returns (db: DependIndex)
    ensures db == DropDeps(db0, deps, tag)
  {
    db := db0;
    assert deps[0..] == deps;
    for i := 0 to |deps|
      invariant DropDeps(db, deps[i..], tag) == DropDeps(db0, deps, tag)
    {
      assert deps[i..][1..] == deps[i + 1..];
      if |Get(db, deps[i])| == 1 {
        db := db - {deps[i]};
      } else {
        db := db[deps[i] := Filter(Get(db, deps[i]), tag)];
      }
    }
  }

  /** The list, map and index updates of Create; not ok where the source panics. */
  method ReplaceIn(list0: seq<Member>, byTag0: map<string, Member>, db0: DependIndex, m: Member)
    returns (ok: bool, list: seq<Member>, byTag: map<string, Member>, db: DependIndex)
    ensures ok <==> (m.tag in byTag0 ==> byTag0[m.tag] in list0)
    ensures ok ==> Index(list, byTag, db) == Replace(Index(list0, byTag0, db0), m)
  {
    list, byTag, db := list0, byTag0, db0;
    if m.tag in byTag0 {
      var index := FindIndex(list0, byTag0[m.tag]);
      if index == -1 { return false, list, byTag, db; }
      list := list[..index] + list[index + 1..];
    }
    list := list + [m];
    assert (byTag0 - {m.tag})[m.tag := m] == byTag0[m.tag := m];
    byTag := byTag[m.tag := m];
    db := RecordAll(db0, m.deps, m.tag);
    ok := true;
  }

  /** The list and map updates of Remove; not ok where the source panics, with the map already changed. */
  method DetachIn(list0: seq<Member>, byTag0: map<string, Member>, tag: string)
    returns (ok: bool, list: seq<Member>, byTag: map<string, Member>)
    requires tag in byTag0
    ensures ok <==> byTag0[tag] in list0
    ensures byTag == byTag0 - {tag}
    ensures list == if ok then RemoveAt(list0, IndexOf(list0, byTag0[tag])) else list0
  {
    byTag := byTag0 - {tag};
    var index := FindIndex(list0, byTag0[tag]);
    if index == -1 { return false, list0, byTag; }
    return true, list0[..index] + list0[index + 1..], byTag;
  }

  // ----- Members as seen by the start loop -----

  function ItemOf(m: Member): DS.Item { DS.Item(m.tag, m.deps) }

  function Items(members: seq<Member>): (r: seq<DS.Item>)
    ensures |r| == |members| && forall i :: 0 <= i < |r| ==> r[i] == ItemOf(members[i])
  {
    seq(|members|, i requires 0 <= i < |members| => ItemOf(members[i]))
  }

  function ItemIndex(byTag: map<string, Member>): map<string, DS.Item> {
    map t | t in byTag :: ItemOf(byTag[t])
  }

  /** The index that the diagnosis uses agrees with the list that is started. */
  lemma StartListAgrees(ix: Index, endpoints: seq<Member>)
    requires Consistent(ix)
    ensures DS.IndexAgrees(Items(ix.list + endpoints), ItemIndex(ix.byTag))
  {
    var all := ix.list + endpoints;
    var items := Items(all);
    forall t | t in ItemIndex(ix.byTag) ensures ItemOf(ix.byTag[t]) in items {
      var k :| 0 <= k < |ix.list| && ix.list[k] == ix.byTag[t];
      assert items[k] == ItemOf(all[k]);
    }
  }

  /** The other stages: in list order, stopping at the first failure. */
  method StartStage(members: seq<Member>, fails: set<string>) returns (outcome: DS.Outcome, order: seq<string>)
    ensures |order| <= |members| && forall i :: 0 <= i < |order| ==> order[i] == members[i].tag
    ensures outcome.Started? <==> DS.NoneFails(Items(members), fails)
    ensures outcome.Started? ==> |order| == |members|
    ensures !outcome.Started? ==>
              |order| > 0 && outcome == DS.StartFailed(order[|order| - 1]) && outcome.tag in fails &&
              forall i :: 0 <= i < |order| - 1 ==> order[i] !in fails
  {
    order := [];
    for i := 0 to |members|
      invariant |order| == i && forall k :: 0 <= k < i ==> order[k] == members[k].tag && members[k].tag !in fails
    {
      order := order + [members[i].tag];
      if members[i].tag in fails {
        assert Items(members)[i].tag in fails;
        return DS.StartFailed(members[i].tag), order;
      }
    }
    outcome := DS.Started;
  }
}
