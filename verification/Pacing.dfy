/** Pacing timers, inserted into the hashTrees of thread groups while these are walked. */
module Pacing {
  import opened Options
  import opened Decimals
  import opened JmxTree
  import opened ThreadGroups
  import opened RunOverrides

  const TIMER_PREFIX := "平台Pacing_"
  const UNNAMED_GROUP := "未命名线程组"

  /** The overrides that may pace a group: switched on explicitly and not in fixed mode. */
  predicate MayPace(o: Override) { OverrideKey(o) != "" && o.enabled == Some(true) && o.mode != "fixed" }

  /** `_transaction_config_by_key`. */
  function Configs(items: seq<Override>): map<string, Override> {
    if items == [] then map[]
    else
      var earlier, o := Configs(items[..|items| - 1]), items[|items| - 1];
      if MayPace(o) then earlier[OverrideKey(o) := o] else earlier
  }

  /** An override that leaves `enabled` out never paces its group. */
  lemma {:induction false} OnlyExplicitlyEnabledPace(items: seq<Override>, key: string)
    ensures key in Configs(items) <==> exists o :: o in items && MayPace(o) && OverrideKey(o) == key
    ensures key in Configs(items) ==> Configs(items)[key] in items && Configs(items)[key].enabled == Some(true)
  {
    if items != [] {
      var o := items[|items| - 1];
      OnlyExplicitlyEnabledPace(items[..|items| - 1], key);
      assert items == items[..|items| - 1] + [o];
    }
  }

  // ----- one group ------------------------------------------------------------------------------------------

  /** The pacing the index-th group is to get, if any. */
  function PacingOf(configs: map<string, Override>, index: nat, g: Element): (ms: Option<nat>)
    requires IsGroup(g)
    ensures ms.Some? ==> ms.value > 0 && IsEnabled(g)
  {
    var name := AttrOrEmpty(g, "testname");
    match Lookup(configs, Key(ThreadGroupType(g).value, index), g)
    case None => None
    case Some(o) =>
      if (if o.name != "" then o.name else name) != name then None
      else if o.pacingMs <= 0 || !IsEnabled(g) then None
      else Some(o.pacingMs)
  }

  function TimerProp(name: string, text: Option<string>): Element {
    Element("stringProp", map["name" := name], text, [])
  }

  /** `_jsr223_cycle_timer`; the script's text is left out. */
  function Timer(g: Element, ms: nat): Element {
    var name := AttrOrEmpty(g, "testname");
    Element(
      "JSR223Timer",
      map["guiclass" := "TestBeanGUI", "testclass" := "JSR223Timer", "enabled" := "true",
          "testname" := TIMER_PREFIX + if name != "" then name else UNNAMED_GROUP],
      None,
      [TimerProp("cacheKey", Some("true")), TimerProp("filename", Some("")), TimerProp("parameters", Some(Decimal(ms))),
       TimerProp("script", None), TimerProp("scriptLanguage", Some("groovy"))])
  }

  /** What `_insert_timer_at_scope_start` puts in front. */
  function Inserted(configs: map<string, Override>, index: nat, node: Element): seq<Element> {
    if IsGroup(node) && PacingOf(configs, index, node).Some?
    then [Timer(node, PacingOf(configs, index, node).value), EmptyHash()]
    else []
  }

  // ----- the walk ---------------------------------------------------------------------------------------------

  function NextIndex(index: nat, node: Element): nat { if IsGroup(node) then index + 1 else index }

  /** The forest with its timers, and the index the walk goes on with. */
  function Pace(configs: map<string, Override>, es: seq<Element>, index: nat): (seq<Element>, nat) {
    if es == [] then ([], index)
    else if HasHash(es) then
      var (inner, next) := Pace(configs, es[1].children, NextIndex(index, es[0]));
      var (rest, last) := Pace(configs, es[2..], next);
      ([es[0], es[1].(children := Inserted(configs, index, es[0]) + inner)] + rest, last)
    else
      var (rest, last) := Pace(configs, es[1..], NextIndex(index, es[0]));
      ([es[0]] + rest, last)
  }

  /** The walk enters a hashTree after the timer is in: it passes the timer's pair without
      counting or changing anything. */
  lemma PaceWalksOverTimer(configs: map<string, Override>, g: Element, ms: nat, es: seq<Element>, index: nat)
    ensures
      Pace(configs, [Timer(g, ms), EmptyHash()] + es, index) ==
      ([Timer(g, ms), EmptyHash()] + Pace(configs, es, index).0, Pace(configs, es, index).1)
  {
    var timed := [Timer(g, ms), EmptyHash()] + es;
    assert HasHash(timed) && timed[2..] == es && timed[1].children == [];
    assert Inserted(configs, index, timed[0]) + [] == [] && EmptyHash().(children := []) == EmptyHash();
    var none: seq<Element> := [];
    assert Pace(configs, none, index) == (none, index);
    assert [timed[0], EmptyHash()] + Pace(configs, es, index).0 == [Timer(g, ms), EmptyHash()] + Pace(configs, es, index).0;
  }

  lemma PaceStep(configs: map<string, Override>, es: seq<Element>, index: nat)
    requires es != []
    ensures HasHash(es) ==>
      (var inner := Pace(configs, es[1].children, NextIndex(index, es[0]));
       var rest := Pace(configs, es[2..], inner.1);
       Pace(configs, es, index) ==
         ([es[0], es[1].(children := Inserted(configs, index, es[0]) + inner.0)] + rest.0, rest.1))
    ensures !HasHash(es) ==>
      (var rest := Pace(configs, es[1..], NextIndex(index, es[0]));
       Pace(configs, es, index) == ([es[0]] + rest.0, rest.1))
  {}

  /** `apply_thread_group_pacing` on one hashTree: the timer goes in before the walk descends. */
  method PacePairs(configs: map<string, Override>, children: seq<Element>, index: nat) returns (paced: seq<Element>, last: nat)
    ensures (paced, last) == Pace(configs, children, index)
    decreases children
  {
    hide Inserted, Pace;
    paced, last := [], index;
    var i := 0;
    assert children[0..] == children;
    while i < |children|
      invariant 0 <= i <= |children|
      invariant Pace(configs, children, index).0 == paced + Pace(configs, children[i..], last).0
      invariant Pace(configs, children, index).1 == Pace(configs, children[i..], last).1
    {
      var node := children[i];
      ghost var rest, before, was := children[i..], paced, last;
      PaceStep(configs, rest, was);
      var inserted := Inserted(configs, last, node);
      last := NextIndex(last, node);
      if i + 1 < |children| && children[i + 1].tag == "hashTree" {
        assert HasHash(rest) && rest[2..] == children[i + 2..];
        var inner;
        inner, last := PacePairs(configs, children[i + 1].children, last);
        paced := paced + [node, children[i + 1].(children := inserted + inner)];
        i := i + 2;
      } else {
        assert !HasHash(rest) && rest[1..] == children[i + 1..];
        paced := paced + [node];
        i := i + 1;
      }
      assert before + Pace(configs, rest, was).0 == paced + Pace(configs, children[i..], last).0;
    }
    assert children[i..] == [];
    NothingPaced(configs, last);
    assert Pace(configs, children, index).0 == paced + [] == paced;
  }

  // ----- what pacing keeps and where it lands --------------------------------------------------------------------

  lemma TimersAreNoGroups(configs: map<string, Override>, index: nat, node: Element, es: seq<Element>)
    requires WellFormed(es)
    ensures WellFormed(Inserted(configs, index, node) + es)
    ensures DocGroups(Inserted(configs, index, node) + es) == DocGroups(es)
    ensures Scopes(Inserted(configs, index, node) + es) == Scopes(es)
  {
    hide WellFormed, DocGroups, Scopes, Timer;
    if Inserted(configs, index, node) == [] {
      assert Inserted(configs, index, node) + es == es;
    } else {
      TimedForest(node, PacingOf(configs, index, node).value, es);
    }
  }

  lemma TimedForest(g: Element, ms: nat, es: seq<Element>)
    requires WellFormed(es)
    ensures WellFormed([Timer(g, ms), EmptyHash()] + es)
    ensures DocGroups([Timer(g, ms), EmptyHash()] + es) == DocGroups(es)
    ensures Scopes([Timer(g, ms), EmptyHash()] + es) == Scopes(es)
  {
    hide DocGroups, Scopes;
    var timer, timed := Timer(g, ms), [Timer(g, ms), EmptyHash()] + es;
    assert timed[2..] == es && HasHash(timed) && timed[1].children == [];
    TimerHasNoGroup(timer.children);
    NothingInNothing();
    var none: seq<Element> := [];
    assert timed[0] == timer && WellFormed(none);
    assert Paired(timed);
    assert GroupsInPairs(timed);
    DocGroupsPair(timed);
    ScopesStep(timed);
  }

  lemma NothingInNothing()
    ensures DocGroups([]) == [] && Scopes([]) == []
  {}

  lemma TimerHasNoGroup(props: seq<Element>)
    requires forall p | p in props :: p.tag == "stringProp" && p.children == []
    ensures DocGroups(props) == []
  {
    if props != [] {
      DocGroupsStep(props);
      TimerHasNoGroup(props[1..]);
    }
  }

  lemma RestOfPaced(configs: map<string, Override>, es: seq<Element>, index: nat)
    requires es != [] && !HasHash(es)
    ensures
      var paced := Pace(configs, es, index).0;
      paced != [] && !HasHash(paced) && paced[1..] == Pace(configs, es[1..], NextIndex(index, es[0])).0
  {
    hide Pace, Inserted;
    PaceStep(configs, es, index);
    var paced, rest := Pace(configs, es, index).0, Pace(configs, es[1..], NextIndex(index, es[0])).0;
    if |es| > 1 {
      PaceStep(configs, es[1..], NextIndex(index, es[0]));
      assert rest[0] == es[1];
    } else {
      NothingPaced(configs, NextIndex(index, es[0]));
      assert es[1..] == [];
    }
    assert paced == [es[0]] + rest && paced[1..] == rest;
  }

  lemma NothingPaced(configs: map<string, Override>, index: nat)
    ensures Pace(configs, [], index) == ([], index)
  {}

  /** Pacing keeps the plan's shape, and every group in its place and under its number. */
  lemma {:induction false} PaceKeepsGroups(configs: map<string, Override>, es: seq<Element>, index: nat)
    requires WellFormed(es)
    ensures WellFormed(Pace(configs, es, index).0)
    ensures DocGroups(Pace(configs, es, index).0) == DocGroups(es)
    ensures Pace(configs, es, index).1 == index + |DocGroups(es)|
  {
    if es == [] {
    } else {
      hide Pace, Inserted, DocGroups, WellFormed;
      PaceStep(configs, es, index);
      DocGroupsPair(es);
      WellFormedParts(es);
      var paced := Pace(configs, es, index).0;
      if HasHash(es) {
        var (inner, next) := Pace(configs, es[1].children, NextIndex(index, es[0]));
        PaceKeepsGroups(configs, es[1].children, NextIndex(index, es[0]));
        PaceKeepsGroups(configs, es[2..], next);
        TimersAreNoGroups(configs, index, es[0], inner);
        assert paced[2..] == Pace(configs, es[2..], next).0;
      } else {
        PaceKeepsGroups(configs, es[1..], NextIndex(index, es[0]));
        RestOfPaced(configs, es, index);
      }
      WellFormedWhole(paced);
      DocGroupsPair(paced);
    }
  }

  /** The walk's group pairs after pacing: each group's hashTree starts with the timer due to its
      number, and goes on as its own contents paced from the next number. */
  function PacedScope(configs: map<string, Override>, p: Pair, index: nat): Pair {
    match p.hash
    case None => p
    case Some(hash) =>
      Pair(p.node, Some(hash.(children :=
        Inserted(configs, index, p.node) + Pace(configs, hash.children, NextIndex(index, p.node)).0)))
  }

  /** Each pair of b is the pair of a, paced under its number. */
  ghost predicate Landed(configs: map<string, Override>, a: seq<Pair>, b: seq<Pair>, index: nat) {
    |b| == |a| && forall i | 0 <= i < |a| :: b[i] == PacedScope(configs, a[i], index + i)
  }

  lemma LandedConcat(configs: map<string, Override>, a: seq<Pair>, b: seq<Pair>, c: seq<Pair>, d: seq<Pair>, index: nat)
    requires Landed(configs, a, b, index) && Landed(configs, c, d, index + |a|)
    ensures Landed(configs, a + c, b + d, index)
  {
    hide PacedScope;
    forall i | 0 <= i < |a + c|
      ensures (b + d)[i] == PacedScope(configs, (a + c)[i], index + i)
    {
      if i >= |a| {
        assert d[i - |a|] == PacedScope(configs, c[i - |a|], index + |a| + (i - |a|));
      }
    }
  }

  lemma OwnScopeLands(configs: map<string, Override>, es: seq<Element>, index: nat)
    requires es != []
    ensures Landed(configs, GroupScope(es), GroupScope(Pace(configs, es, index).0), index)
    ensures |GroupScope(es)| == NextIndex(index, es[0]) - index
  {
    hide Inserted, Pace;
    PaceStep(configs, es, index);
    if !HasHash(es) {
      RestOfPaced(configs, es, index);
    }
  }

  lemma {:induction false} ScopesPaced(configs: map<string, Override>, es: seq<Element>, index: nat)
    requires WellFormed(es)
    ensures Landed(configs, Scopes(es), Scopes(Pace(configs, es, index).0), index)
    decreases es, 1
  {
    if es == [] {
    } else if HasHash(es) {
      PairLands(configs, es, index);
    } else {
      SingleLands(configs, es, index);
    }
  }

  lemma SingleLands(configs: map<string, Override>, es: seq<Element>, index: nat)
    requires WellFormed(es) && es != [] && !HasHash(es)
    ensures Landed(configs, Scopes(es), Scopes(Pace(configs, es, index).0), index)
    decreases es, 0
  {
    var next := NextIndex(index, es[0]);
    ScopesPaced(configs, es[1..], next);
    hide Pace, Scopes, Inserted, WellFormed, Landed, GroupScope;
    ScopesStep(es);
    OwnScopeLands(configs, es, index);
    RestOfPaced(configs, es, index);
    ScopesStep(Pace(configs, es, index).0);
    LandedConcat(configs, GroupScope(es), GroupScope(Pace(configs, es, index).0),
                 Scopes(es[1..]), Scopes(Pace(configs, es[1..], next).0), index);
  }

  lemma PairLands(configs: map<string, Override>, es: seq<Element>, index: nat)
    requires WellFormed(es) && HasHash(es)
    ensures Landed(configs, Scopes(es), Scopes(Pace(configs, es, index).0), index)
    decreases es, 0
  {
    hide Pace, Scopes, Inserted, WellFormed, DocGroups, Landed, GroupScope;
    PaceStep(configs, es, index);
    var next := NextIndex(index, es[0]);
    var (inner, after) := Pace(configs, es[1].children, next);
    var rest, paced := Pace(configs, es[2..], after).0, Pace(configs, es, index).0;
    DocGroupsPair(es);
    ScopesStep(es);
    PaceKeepsGroups(configs, es[1].children, next);
    OrdersAgree(es[1].children);
    ScopesPaced(configs, es[1].children, next);
    ScopesPaced(configs, es[2..], after);
    TimersAreNoGroups(configs, index, es[0], inner);
    assert paced[2..] == rest && paced[1].children == Inserted(configs, index, es[0]) + inner;
    ScopesStep(paced);
    OwnScopeLands(configs, es, index);
    LandedConcat(configs, GroupScope(es), GroupScope(paced), Scopes(es[1].children), Scopes(inner), index);
    LandedConcat(configs, GroupScope(es) + Scopes(es[1].children), GroupScope(paced) + Scopes(inner),
                 Scopes(es[2..]), Scopes(rest), index);
  }

  // ----- the whole plan ---------------------------------------------------------------------------------------------

  /** `apply_thread_group_pacing`. */
  function ApplyPacing(root: Element, items: seq<Override>): Element {
    if RootHash(root).None? || Configs(items) == map[] then root
    else WithRootHash(root, Pace(Configs(items), RootForest(root), 0).0)
  }

  lemma {:induction false} NothingToPace(es: seq<Element>, index: nat)
    ensures Pace(map[], es, index).0 == es
  {
    if es == [] {
    } else if HasHash(es) {
      NothingToPace(es[1].children, NextIndex(index, es[0]));
      NothingToPace(es[2..], Pace(map[], es[1].children, NextIndex(index, es[0])).1);
      assert Inserted(map[], index, es[0]) == [];
      assert es[1].(children := [] + es[1].children) == es[1];
    } else {
      NothingToPace(es[1..], NextIndex(index, es[0]));
    }
  }

  /** Pacing keeps the plan's shape and its listing. */
  lemma PacingKeepsGroups(root: Element, items: seq<Override>)
    requires PlanOk(root)
    ensures PlanOk(ApplyPacing(root, items)) && DocGroups([ApplyPacing(root, items)]) == DocGroups([root])
    ensures RootForest(ApplyPacing(root, items)) == Pace(Configs(items), RootForest(root), 0).0
  {
    NothingPacedNothingChanged(root, items);
    PaceKeepsGroups(Configs(items), RootForest(root), 0);
    hide ApplyPacing, Pace, DocGroups;
    PlanGroups(root);
    PlanRewritten(root, Pace(Configs(items), RootForest(root), 0).0);
    PlanGroups(ApplyPacing(root, items));
  }

  /** The override a user picked for the i-th listed group lands on that group: the i-th group's
      own hashTree starts with the timer due to the key it was listed under, followed by its
      contents paced from the next number. */
  lemma PacingLandsOnListedGroup(root: Element, items: seq<Override>, i: nat)
    requires PlanOk(root) && i < |DocGroups([root])|
    ensures PlanOk(ApplyPacing(root, items))
    ensures
      var before, after := Scopes(RootForest(root)), Scopes(RootForest(ApplyPacing(root, items)));
      && |after| == |before| == |DocGroups([root])|
      && before[i].node == after[i].node == DocGroups([root])[i]
      && after[i] == PacedScope(Configs(items), before[i], i)
  {
    PlanGroups(root);
    PacingKeepsGroups(root, items);
    OrdersAgree(RootForest(root));
    ScopesPaced(Configs(items), RootForest(root), 0);
    hide ApplyPacing, Pace, Scopes, DocGroups, WellFormed, PacedScope;
    assert NodesOf(Scopes(RootForest(root)))[i] == Scopes(RootForest(root))[i].node;
    PacedNode(Configs(items), Scopes(RootForest(root))[i], i);
  }

  lemma PacedNode(configs: map<string, Override>, p: Pair, index: nat)
    ensures PacedScope(configs, p, index).node == p.node
  {}

  /** The shortcut for an empty selection leaves the same plan as the walk would. */
  lemma NothingPacedNothingChanged(root: Element, items: seq<Override>)
    requires PlanOk(root)
    ensures ApplyPacing(root, items) == WithRootHash(root, Pace(Configs(items), RootForest(root), 0).0)
  {
    if Configs(items) == map[] {
      NothingToPace(RootForest(root), 0);
      var k := RootHash(root).value;
      assert root.children[k].(children := RootForest(root)) == root.children[k];
      assert root.children[k := root.children[k]] == root.children;
    }
  }

  /** When no group's name looks like a key, the override of one key paces at most the group
      listed under it. */
  lemma OneKeyOneGroup(items: seq<Override>, i: nat, g: Element, j: nat, h: Element)
    requires IsGroup(g) && IsGroup(h) && Configs(items).Keys == {Key(ThreadGroupType(g).value, i)}
    requires AttrOrEmpty(h, "testname") != Key(ThreadGroupType(g).value, i)
    requires PacingOf(Configs(items), j, h).Some?
    ensures j == i && ThreadGroupType(h) == ThreadGroupType(g)
  {
    KeyNamesOne(ThreadGroupType(g).value, i, ThreadGroupType(h).value, j);
  }

  // ----- undoing it ---------------------------------------------------------------------------------------------------

  predicate IsTimer(e: Element) {
    e.tag == "JSR223Timer" && TIMER_PREFIX <= AttrOrEmpty(e, "testname")
  }

  function EraseTimers(es: seq<Element>): seq<Element> {
    if es == [] then []
    else if HasHash(es) then
      (if IsTimer(es[0]) then [] else [es[0], es[1].(children := EraseTimers(es[1].children))]) + EraseTimers(es[2..])
    else (if IsTimer(es[0]) then [] else [es[0]]) + EraseTimers(es[1..])
  }

  predicate NoTimers(es: seq<Element>) {
    es == [] ||
    (!IsTimer(es[0]) && if HasHash(es) then NoTimers(es[1].children) && NoTimers(es[2..]) else NoTimers(es[1..]))
  }

  lemma EraseStep(es: seq<Element>)
    requires es != [] && !IsTimer(es[0])
    ensures HasHash(es) ==>
      EraseTimers(es) == [es[0], es[1].(children := EraseTimers(es[1].children))] + EraseTimers(es[2..])
    ensures !HasHash(es) ==> EraseTimers(es) == [es[0]] + EraseTimers(es[1..])
  {}

  /** Erasing the platform's timers gives the forest back. */
  lemma {:induction false} EraseUndoesPacing(configs: map<string, Override>, es: seq<Element>, index: nat)
    requires NoTimers(es)
    ensures EraseTimers(Pace(configs, es, index).0) == es
  {
    if es == [] {
    } else {
      hide Pace, Inserted, EraseTimers, IsTimer;
      PaceStep(configs, es, index);
      var paced := Pace(configs, es, index).0;
      EraseStep(paced);
      if HasHash(es) {
        var (inner, next) := Pace(configs, es[1].children, NextIndex(index, es[0]));
        EraseUndoesPacing(configs, es[1].children, NextIndex(index, es[0]));
        EraseUndoesPacing(configs, es[2..], next);
        EraseInserted(configs, index, es[0], inner);
        assert paced[2..] == Pace(configs, es[2..], next).0;
        assert es[1].(children := es[1].children) == es[1];
      } else {
        RestOfPaced(configs, es, index);
        EraseUndoesPacing(configs, es[1..], NextIndex(index, es[0]));
      }
    }
  }

  lemma EraseInserted(configs: map<string, Override>, index: nat, node: Element, es: seq<Element>)
    ensures EraseTimers(Inserted(configs, index, node) + es) == EraseTimers(es)
  {
    hide PacingOf;
    var inserted := Inserted(configs, index, node);
    if inserted == [] {
      assert inserted + es == es;
    } else {
      assert (inserted + es)[2..] == es && HasHash(inserted + es);
      assert IsTimer(inserted[0]);
    }
  }
}
