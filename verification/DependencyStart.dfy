/** Dependency-ordered start.

    The outbound manager and the DNS transport manager start their members with
    the same fixpoint loop: pass over the list, start every member whose
    dependencies have been started, stop when all are started, and when a pass
    starts nothing run a recursive diagnosis over the tag index.

    A member is reduced to its tag and its dependency list.  `fails` is the set of
    tags whose own Start returns an error.  Panics are outcomes, not preconditions. */
module DependencyStart {

  datatype Item = Item(tag: string, deps: seq<string>)

  datatype Outcome =
    | Started
    | StartFailed(tag: string)
    | Circular(path: seq<string>, repeated: string)
    | NotFound(dependency: string, dependent: string)
    | NilDereference   // common.Find returned nil and .Tag() is called on it

  // ----- The dependency graph -----

  ghost predicate Listed(items: seq<Item>, tag: string) {
    exists k :: 0 <= k < |items| && items[k].tag == tag
  }

  ghost predicate Edge(items: seq<Item>, from: string, to: string) {
    exists k :: 0 <= k < |items| && items[k].tag == from && to in items[k].deps
  }

  ghost predicate Walk(items: seq<Item>, path: seq<string>) {
    forall i :: 0 <= i < |path| - 1 ==> Edge(items, path[i], path[i + 1])
  }

  ghost predicate Acyclic(items: seq<Item>) {
    forall path :: Walk(items, path) && |path| >= 2 ==> path[0] != path[|path| - 1]
  }

  /** Every dependency is the tag of a listed member. */
  ghost predicate Closed(items: seq<Item>) {
    forall k, d :: 0 <= k < |items| && d in items[k].deps ==> Listed(items, d)
  }

  ghost predicate DistinctTags(items: seq<Item>) {
    forall i, j :: 0 <= i < j < |items| ==> items[i].tag != items[j].tag
  }

  ghost predicate NoneFails(items: seq<Item>, fails: set<string>) {
    forall k :: 0 <= k < |items| ==> items[k].tag !in fails
  }

  // ----- Start orders -----

  /** Some member carrying `tag` has all its dependencies in `before`. */
  ghost predicate Ready(items: seq<Item>, tag: string, before: seq<string>) {
    exists k :: 0 <= k < |items| && items[k].tag == tag && forall d :: d in items[k].deps ==> d in before
  }

  /** Each tag is started at most once and only after all its dependencies. */
  ghost predicate StartOrder(items: seq<Item>, order: seq<string>) {
    order != [] ==>
      var n := |order| - 1;
      StartOrder(items, order[..n]) && order[n] !in order[..n] && Ready(items, order[n], order[..n])
  }

  /** The same, position by position. */
  lemma {:induction false} StartOrderAt(items: seq<Item>, order: seq<string>, i: nat)
    requires StartOrder(items, order) && i < |order|
    ensures order[i] !in order[..i] && Ready(items, order[i], order[..i])
    ensures forall j :: 0 <= j < |order| && j != i ==> order[j] != order[i]
  {
    var n := |order| - 1;
    var front := order[..n];
    if i < n {
      StartOrderAt(items, front, i);
      assert front[..i] == order[..i];
      assert order[i] in front;
    }
  }

  function Elements(s: seq<string>): set<string> {
    set x | x in s
  }

  function Tags(items: seq<Item>): set<string> {
    set k | 0 <= k < |items| :: items[k].tag
  }

  /** No listed member could be started next. */
  ghost predicate Stuck(items: seq<Item>, started: set<string>) {
    forall k :: 0 <= k < |items| && items[k].tag !in started ==> exists d :: d in items[k].deps && d !in started
  }

  lemma {:induction false} OrderElements(items: seq<Item>, order: seq<string>)
    requires StartOrder(items, order)
    ensures |Elements(order)| == |order| && Elements(order) <= Tags(items)
  {
    if order == [] {
    } else {
      var front, last := order[..|order| - 1], order[|order| - 1];
      OrderElements(items, front);
      assert order == front + [last];
      assert Elements(order) == Elements(front) + {last};
    }
  }

  lemma {:induction false} TagsCard(items: seq<Item>)
    ensures |Tags(items)| <= |items|
    ensures |Tags(items)| == |items| <==> DistinctTags(items)
  {
    if items == [] {
    } else {
      var front, last := items[..|items| - 1], items[|items| - 1];
      TagsCard(front);
      assert Tags(items) == Tags(front) + {last.tag} by {
        assert items == front + [last];
        assert forall k :: 0 <= k < |front| ==> items[k].tag == front[k].tag;
        forall t | t in Tags(items) ensures t in Tags(front) + {last.tag} {
          var k :| 0 <= k < |items| && items[k].tag == t;
          if k < |front| { assert front[k].tag == t; }
        }
      }
      if last.tag in Tags(front) {
        var k :| 0 <= k < |front| && front[k].tag == last.tag;
        assert items[k].tag == items[|items| - 1].tag;
        assert Tags(items) == Tags(front);
      } else {
        forall i, j | 0 <= i < j < |items| ensures DistinctTags(front) ==> items[i].tag != items[j].tag {
          if j == |front| {
            assert front[i].tag in Tags(front);
          } else {
            assert front[i] == items[i] && front[j] == items[j];
          }
        }
        if DistinctTags(items) {
          forall i, j | 0 <= i < j < |front| ensures front[i].tag != front[j].tag {
            assert items[i] == front[i] && items[j] == front[j];
          }
        }
      }
    }
  }

  lemma OrderWithinTags(items: seq<Item>, order: seq<string>)
    requires StartOrder(items, order)
    ensures Elements(order) <= Tags(items)
    ensures |order| <= |Tags(items)| <= |items|
    ensures |Elements(order)| == |order|
  {
    OrderElements(items, order);
    TagsCard(items);
    SubsetCard(Elements(order), Tags(items));
  }

  lemma {:induction false} SubsetCard(a: set<string>, b: set<string>)
    requires a <= b
    ensures |a| <= |b|
    ensures |a| == |b| ==> a == b
  {
    if a != {} {
      var x :| x in a;
      SubsetCard(a - {x}, b - {x});
    } else if b != {} {
      var x :| x in b;
      assert |b - {x}| == |b| - 1;
    }
  }

  /** The fixpoint is maximal: what no order can start is exactly what is left over. */
  lemma {:induction false} StuckIsMaximal(items: seq<Item>, started: set<string>, order: seq<string>)
    requires Stuck(items, started)
    requires StartOrder(items, order)
    ensures Elements(order) <= started
  {
    if order == [] {
    } else {
      var n := |order| - 1;
      var front := order[..n];
      StuckIsMaximal(items, started, front);
      assert Ready(items, order[n], front);
      assert order == front + [order[n]];
    }
  }

  // ----- The recursive diagnosis -----

  /** common.Find over a dependency list: the first unstarted one, "" when there is none. */
  function FirstUnstarted(deps: seq<string>, started: set<string>): (d: string)
    ensures (exists x :: x in deps && x !in started) ==> d in deps && d !in started
  {
    if deps == [] then ""
    else if deps[0] !in started then deps[0]
    else FirstUnstarted(deps[1..], started)
  }

  /** lintOutbound / lintTransport.  It terminates whatever the index holds: the
      visited tags are indexed tags and never repeat. */
  function Lint(byTag: map<string, Item>, started: set<string>, tree: seq<string>, current: Item): Outcome
    decreases byTag.Keys - Elements(tree)
  {
    var problem := FirstUnstarted(current.deps, started);
    if problem in tree then Circular(tree, problem)
    else if problem !in byTag then NotFound(problem, current.tag)
    else
      assert problem in byTag.Keys - Elements(tree) && problem in Elements(tree + [problem]);
      Lint(byTag, started, tree + [problem], byTag[problem])
  }

  /** Every index entry is a listed member filed under its own tag. */
  ghost predicate IndexAgrees(items: seq<Item>, byTag: map<string, Item>) {
    forall t :: t in byTag ==> byTag[t].tag == t && byTag[t] in items
  }

  /** What the diagnosis may truthfully say about a stuck start. */
  ghost predicate Truthful(items: seq<Item>, byTag: map<string, Item>, started: set<string>, outcome: Outcome) {
    match outcome
    case Circular(path, repeated) =>
      repeated in path && Walk(items, path + [repeated]) && forall t :: t in path ==> t !in started
    case NotFound(dependency, dependent) =>
      dependency !in byTag && dependency !in started && dependent !in started && Edge(items, dependent, dependency)
    case _ => false
  }

  lemma {:induction false} LintTellsTheTruth(
    items: seq<Item>, byTag: map<string, Item>, started: set<string>, tree: seq<string>, current: Item)
    requires IndexAgrees(items, byTag)
    requires Stuck(items, started)
    requires current in items && tree != [] && tree[|tree| - 1] == current.tag
    requires Walk(items, tree) && forall t :: t in tree ==> t !in started
    ensures Truthful(items, byTag, started, Lint(byTag, started, tree, current))
    decreases byTag.Keys - Elements(tree)
  {
    assert current.tag in tree;
    var k :| 0 <= k < |items| && items[k] == current;
    assert exists d :: d in items[k].deps && d !in started;
    var problem := FirstUnstarted(current.deps, started);
    assert Edge(items, current.tag, problem);
    assert Walk(items, tree + [problem]) by {
      var p := tree + [problem];
      forall i | 0 <= i < |p| - 1 ensures Edge(items, p[i], p[i + 1]) {
        if i < |tree| - 1 { assert Edge(items, tree[i], tree[i + 1]); }
      }
    }
    if problem !in tree && problem in byTag {
      assert problem in byTag.Keys - Elements(tree) && problem in Elements(tree + [problem]);
      LintTellsTheTruth(items, byTag, started, tree + [problem], byTag[problem]);
    }
  }

  lemma RepeatedTagIsACycle(items: seq<Item>, path: seq<string>, repeated: string)
    requires repeated in path && Walk(items, path + [repeated])
    ensures !Acyclic(items)
  {
    var i :| 0 <= i < |path| && path[i] == repeated;
    var whole := path + [repeated];
    var loop := whole[i..];
    assert Walk(items, loop) by {
      forall j | 0 <= j < |loop| - 1 ensures Edge(items, loop[j], loop[j + 1]) {
        assert Edge(items, whole[i + j], whole[i + j + 1]);
      }
    }
    assert |loop| >= 2 && loop[0] == loop[|loop| - 1];
  }

  // ----- Success is acyclicity -----

  ghost function PickItem(items: seq<Item>, tag: string): (item: Item)
    requires tag in Tags(items)
    ensures item in items && item.tag == tag
  {
    var k :| 0 <= k < |items| && items[k].tag == tag;
    items[k]
  }

  /** A stuck start with members left over has a cycle or a missing dependency. */
  lemma StuckMeansBadGraph(items: seq<Item>, started: set<string>, k: int)
    requires Stuck(items, started)
    requires 0 <= k < |items| && items[k].tag !in started
    ensures !(Closed(items) && Acyclic(items))
  {
    var byTag := map t | t in Tags(items) :: PickItem(items, t);
    LintTellsTheTruth(items, byTag, started, [items[k].tag], items[k]);
    TruthfulMeansBadGraph(items, byTag, started, Lint(byTag, started, [items[k].tag], items[k]));
  }

  lemma TruthfulMeansBadGraph(items: seq<Item>, byTag: map<string, Item>, started: set<string>, outcome: Outcome)
    requires byTag.Keys == Tags(items)
    requires Truthful(items, byTag, started, outcome)
    ensures !(Closed(items) && Acyclic(items))
  {
    if outcome.Circular? {
      RepeatedTagIsACycle(items, outcome.path, outcome.repeated);
    } else {
      var d := outcome.dependency;
      var j :| 0 <= j < |items| && items[j].tag == outcome.dependent && d in items[j].deps;
      assert !Listed(items, d) by {
        assert d !in Tags(items);
        assert forall k :: 0 <= k < |items| ==> items[k].tag in Tags(items);
      }
    }
  }

  ghost function Position(order: seq<string>, tag: string): (i: nat)
    requires tag in order
    ensures i < |order| && order[i] == tag
  {
    var i :| 0 <= i < |order| && order[i] == tag;
    i
  }

  /** With distinct tags a start order puts every dependency strictly earlier. */
  lemma EdgeGoesBack(items: seq<Item>, order: seq<string>, from: string, to: string)
    requires StartOrder(items, order) && DistinctTags(items)
    requires from in order && Edge(items, from, to)
    ensures to in order && Position(order, to) < Position(order, from)
  {
    var i := Position(order, from);
    var k :| 0 <= k < |items| && items[k].tag == from && to in items[k].deps;
    StartOrderAt(items, order, i);
    var k' :| 0 <= k' < |items| && items[k'].tag == from && forall d :: d in items[k'].deps ==> d in order[..i];
    assert k == k';
    assert to in order[..i];
    var j :| 0 <= j < i && order[j] == to;
    var p := Position(order, to);
    StartOrderAt(items, order, p);
    assert p == j;
  }

  lemma {:induction false} WalkGoesBack(items: seq<Item>, order: seq<string>, path: seq<string>)
    requires StartOrder(items, order) && DistinctTags(items)
    requires Walk(items, path) && |path| >= 2 && path[0] in order
    ensures path[|path| - 1] in order && Position(order, path[|path| - 1]) < Position(order, path[0])
  {
    assert Edge(items, path[0], path[1]);
    EdgeGoesBack(items, order, path[0], path[1]);
    if |path| > 2 {
      var rest := path[1..];
      forall i | 0 <= i < |rest| - 1 ensures Edge(items, rest[i], rest[i + 1]) {
        assert Edge(items, path[i + 1], path[i + 2]);
      }
      WalkGoesBack(items, order, rest);
    }
  }

  lemma FullOrderMeansGoodGraph(items: seq<Item>, order: seq<string>)
    requires StartOrder(items, order) && |order| == |items|
    ensures DistinctTags(items) && Elements(order) == Tags(items)
    ensures Closed(items) && Acyclic(items)
  {
    OrderWithinTags(items, order);
    TagsCard(items);
    SubsetCard(Elements(order), Tags(items));
    forall k, d | 0 <= k < |items| && d in items[k].deps ensures Listed(items, d) {
      assert items[k].tag in Tags(items) && items[k].tag in Elements(order);
      assert Edge(items, items[k].tag, d);
      EdgeGoesBack(items, order, items[k].tag, d);
      assert d in Elements(order);
    }
    forall path | Walk(items, path) && |path| >= 2 ensures path[0] != path[|path| - 1] {
      assert Edge(items, path[0], path[1]);
      assert path[0] in Tags(items);
      assert path[0] in Elements(order);
      WalkGoesBack(items, order, path);
    }
  }

  // ----- The loop itself -----

  method AllStarted(deps: seq<string>, started: set<string>) returns (all: bool)
    ensures all <==> forall d :: d in deps ==> d in started
  {
    for i := 0 to |deps|
      invariant forall d :: d in deps[..i] ==> d in started
    {
      if deps[i] !in started { return false; }
    }
    return true;
  }

  lemma ExtendOrder(items: seq<Item>, order: seq<string>, k: int)
    requires StartOrder(items, order) && 0 <= k < |items|
    requires items[k].tag !in order && forall d :: d in items[k].deps ==> d in order
    ensures StartOrder(items, order + [items[k].tag])
    ensures Elements(order + [items[k].tag]) == Elements(order) + {items[k].tag}
  {
    var longer := order + [items[k].tag];
    assert longer[..|order|] == order;
  }

  /** One pass `startOne` over the list. */
  method StartPass(items: seq<Item>, fails: set<string>, order0: seq<string>)
    returns (order: seq<string>, canContinue: bool, failed: bool)
    requires StartOrder(items, order0) && forall t :: t in order0 ==> t !in fails
    ensures StartOrder(items, order) && order0 <= order
    ensures canContinue <==> |order| > |order0|
    ensures failed ==>
              canContinue && order[|order| - 1] in fails && forall t :: t in order[..|order| - 1] ==> t !in fails
    ensures !failed ==> forall t :: t in order ==> t !in fails
    ensures !failed && !canContinue ==> order == order0 && Stuck(items, Elements(order))
  {
    order, canContinue, failed := order0, false, false;
    for i := 0 to |items|
      invariant StartOrder(items, order) && order0 <= order
      invariant canContinue <==> |order| > |order0|
      invariant forall t :: t in order ==> t !in fails
      invariant !failed
      invariant !canContinue ==> forall k :: 0 <= k < i && items[k].tag !in order ==>
                                   exists d :: d in items[k].deps && d !in order
    {
      if items[i].tag in order { continue; }
      var ready := AllStarted(items[i].deps, Elements(order));
      if !ready { continue; }
      ExtendOrder(items, order, i);
      ghost var before := order;
      order, canContinue := order + [items[i].tag], true;
      assert order[..|order| - 1] == before;
      if items[i].tag in fails {
        failed := true;
        return;
      }
    }
  }

  /** startOutbounds / startTransports.  Every run, including one cut short by a
      failing starter, is described: the order of starts, exactly when it succeeds,
      and that each error report is true. */
  method StartAll(items: seq<Item>, byTag: map<string, Item>, fails: set<string>)
    returns (outcome: Outcome, order: seq<string>)
    // each member starts at most once and only after all its dependencies
    ensures StartOrder(items, order)
    // nil exactly for distinct tags, present dependencies, no cycle and no failing starter
    ensures outcome.Started? <==>
              DistinctTags(items) && Closed(items) && Acyclic(items) && NoneFails(items, fails)
    ensures outcome.Started? ==> Elements(order) == Tags(items)
    // a failing starter ends the run at once
    ensures outcome.StartFailed? ==>
              |order| > 0 && order[|order| - 1] == outcome.tag && outcome.tag in fails &&
              forall t :: t in order[..|order| - 1] ==> t !in fails
    ensures !outcome.StartFailed? ==> forall t :: t in order ==> t !in fails
    // otherwise everything that any order could start has been started
    ensures !outcome.StartFailed? ==> Stuck(items, Elements(order))
    // the nil dereference needs a repeated tag, and a repeated tag in a good graph forces it
    ensures outcome.NilDereference? ==> !DistinctTags(items) && Elements(order) == Tags(items)
    ensures !DistinctTags(items) && Closed(items) && Acyclic(items) && NoneFails(items, fails) ==>
              outcome.NilDereference?
    // the diagnosis is true whenever the index agrees with the list
    ensures IndexAgrees(items, byTag) && (outcome.Circular? || outcome.NotFound?) ==>
              Truthful(items, byTag, Elements(order), outcome)
  {
    order := [];
    OrderWithinTags(items, order);
    TagsCard(items);
    while true
      invariant StartOrder(items, order)
      invariant |order| <= |items|
      invariant forall t :: t in order ==> t !in fails
      decreases |items| - |order|
    {
      var canContinue, failed;
      ghost var before := order;
      order, canContinue, failed := StartPass(items, fails, order);
      OrderWithinTags(items, order);
      if failed {
        outcome := StartFailed(order[|order| - 1]);
        FailureIsListed(items, order, fails);
        return;
      }
      if |Elements(order)| == |items| {
        outcome := Started;
        FullOrderMeansGoodGraph(items, order);
        FullOrderIsStuck(items, order, fails);
        return;
      }
      if canContinue { continue; }
      break;
    }
    outcome := Diagnose(items, byTag, order, fails);
  }

  lemma FailureIsListed(items: seq<Item>, order: seq<string>, fails: set<string>)
    requires StartOrder(items, order) && order != [] && order[|order| - 1] in fails
    ensures !NoneFails(items, fails)
  {
    assert Ready(items, order[|order| - 1], order[..|order| - 1]);
  }

  lemma FullOrderIsStuck(items: seq<Item>, order: seq<string>, fails: set<string>)
    requires Elements(order) == Tags(items)
    requires forall t :: t in order ==> t !in fails
    ensures Stuck(items, Elements(order)) && NoneFails(items, fails)
  {
    forall k | 0 <= k < |items| ensures items[k].tag in order && items[k].tag !in fails {
      assert items[k].tag in Tags(items);
      assert items[k].tag in Elements(order);
    }
  }

  /** The tail of the loop: the first unstarted member is looked up and diagnosed. */
  method Diagnose(items: seq<Item>, byTag: map<string, Item>, order: seq<string>, ghost fails: set<string>)
    returns (outcome: Outcome)
    requires StartOrder(items, order) && Stuck(items, Elements(order)) && |order| != |items|
    requires forall t :: t in order ==> t !in fails
    ensures outcome.NilDereference? || outcome.Circular? || outcome.NotFound?
    ensures !(DistinctTags(items) && Closed(items) && Acyclic(items) && NoneFails(items, fails))
    ensures outcome.NilDereference? ==> !DistinctTags(items) && Elements(order) == Tags(items)
    ensures !outcome.NilDereference? ==> !(Closed(items) && Acyclic(items))
    ensures IndexAgrees(items, byTag) && !outcome.NilDereference? ==> Truthful(items, byTag, Elements(order), outcome)
  {
    OrderWithinTags(items, order);
    TagsCard(items);
    for i := 0 to |items|
      invariant forall k :: 0 <= k < i ==> items[k].tag in order
    {
      if items[i].tag !in order {
        outcome := Lint(byTag, Elements(order), [items[i].tag], items[i]);
        LintReports(byTag, Elements(order), [items[i].tag], items[i]);
        StuckMeansBadGraph(items, Elements(order), i);
        if IndexAgrees(items, byTag) {
          LintTellsTheTruth(items, byTag, Elements(order), [items[i].tag], items[i]);
        }
        return;
      }
    }
    assert Tags(items) == Elements(order);
    assert !DistinctTags(items);
    return NilDereference;
  }

  lemma {:induction false} LintReports(byTag: map<string, Item>, started: set<string>, tree: seq<string>, current: Item)
    ensures var o := Lint(byTag, started, tree, current); o.Circular? || o.NotFound?
    decreases byTag.Keys - Elements(tree)
  {
    var problem := FirstUnstarted(current.deps, started);
    if problem !in tree && problem in byTag {
      assert problem in byTag.Keys - Elements(tree) && problem in Elements(tree + [problem]);
      LintReports(byTag, started, tree + [problem], byTag[problem]);
    }
  }
}
