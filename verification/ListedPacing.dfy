/** What a user's pacing of a listed thread group comes to in the plan, told from the overrides and
    the group as it is listed. */
module ListedPacing {
  import opened Options
  import opened Decimals
  import opened JmxTree
  import opened ThreadGroups
  import opened RunOverrides
  import opened Pacing

  // ----- the override that counts -------------------------------------------------------------------------------

  /** Switched on explicitly and not fixed. */
  predicate Asks(o: Override) { o.enabled == Some(true) && o.mode != "fixed" }

  /** The i-th override is the last with its key that asks for pacing. */
  ghost predicate IsLastAsking(items: seq<Override>, i: nat, key: string)
    requires i < |items|
  {
    Asks(items[i]) && OverrideKey(items[i]) == key && forall j | i < j < |items| && Asks(items[j]) :: OverrideKey(items[j]) != key
  }

  ghost predicate SomeAsks(items: seq<Override>, key: string) {
    key != "" && exists i: nat :: i < |items| && IsLastAsking(items, i, key)
  }

  /** The last one under the group's key; only when none asks there, the last one under its testname. */
  ghost predicate PicksAsking(items: seq<Override>, key: string, g: Element, o: Override) {
    var name := if "testname" in g.attrs then g.attrs["testname"] else "";
    if SomeAsks(items, key) then exists i: nat :: i < |items| && IsLastAsking(items, i, key) && o == items[i]
    else SomeAsks(items, name) && exists i: nat :: i < |items| && IsLastAsking(items, i, name) && o == items[i]
  }

  ghost predicate LastAskingCounts(items: seq<Override>, configs: map<string, Override>) {
    && (forall key | key in configs :: SomeAsks(items, key))
    && (forall i: nat, key: string | i < |items| && IsLastAsking(items, i, key) && key != "" ::
          key in configs && configs[key] == items[i])
  }

  lemma LastAskingOfMore(items: seq<Override>, o: Override, i: nat, key: string)
    requires i <= |items|
    ensures IsLastAsking(items + [o], i, key) <==>
      if i == |items| then Asks(o) && OverrideKey(o) == key
      else !(Asks(o) && OverrideKey(o) == key) && IsLastAsking(items, i, key)
  {
    hide OverrideKey, Asks;
    var more := items + [o];
    assert more[|items|] == o && forall j | 0 <= j < |items| :: more[j] == items[j];
  }

  lemma OneAskingMore(items: seq<Override>, o: Override, configs: map<string, Override>)
    requires LastAskingCounts(items, configs)
    ensures LastAskingCounts(items + [o], if MayPace(o) then configs[OverrideKey(o) := o] else configs)
  {
    hide OverrideKey, IsLastAsking;
    var more, after := items + [o], if MayPace(o) then configs[OverrideKey(o) := o] else configs;
    forall i: nat, key: string | i < |more|
      ensures IsLastAsking(more, i, key) <==>
        if i == |items| then Asks(o) && OverrideKey(o) == key
        else !(Asks(o) && OverrideKey(o) == key) && IsLastAsking(items, i, key)
    {
      LastAskingOfMore(items, o, i, key);
    }
    forall key | key in after
      ensures SomeAsks(more, key)
    {
      if Asks(o) && key == OverrideKey(o) {
        assert IsLastAsking(more, |items|, key);
      } else {
        var i: nat :| i < |items| && IsLastAsking(items, i, key);
        assert IsLastAsking(more, i, key);
      }
    }
  }

  lemma {:induction false} ConfigsLast(items: seq<Override>)
    ensures LastAskingCounts(items, Configs(items))
  {
    hide OverrideKey, LastAskingCounts, MayPace;
    if items == [] {
      NothingAsks(items);
    } else {
      var init, o := items[..|items| - 1], items[|items| - 1];
      ConfigsLast(init);
      OneAskingMore(init, o, Configs(init));
      assert items == init + [o];
    }
  }

  lemma NothingAsks(items: seq<Override>)
    requires items == []
    ensures LastAskingCounts(items, map[])
  {}

  lemma LookupPicks(items: seq<Override>, key: string, g: Element, o: Override)
    ensures Lookup(Configs(items), key, g) == Some(o) <==> PicksAsking(items, key, g, o)
  {
    hide IsLastAsking, OverrideKey, Configs;
    ConfigsLast(items);
    AskingIsFound(items, key);
    AskingIsFound(items, AttrOrEmpty(g, "testname"));
  }

  lemma AskingIsFound(items: seq<Override>, key: string)
    ensures key in Configs(items) <==> SomeAsks(items, key)
    ensures key in Configs(items) ==>
      exists i: nat :: i < |items| && IsLastAsking(items, i, key) && Configs(items)[key] == items[i]
    ensures forall i: nat | i < |items| && IsLastAsking(items, i, key) && key != "" :: key in Configs(items) && Configs(items)[key] == items[i]
  {
    hide IsLastAsking, OverrideKey, Configs;
    ConfigsLast(items);
    if key in Configs(items) {
      var i: nat :| i < |items| && IsLastAsking(items, i, key);
    }
  }

  // ----- the timer ------------------------------------------------------------------------------------------------

  /** The group is enabled, and its override asks for so many milliseconds, for this name or any. */
  ghost predicate Due(items: seq<Override>, index: nat, g: Element, ms: nat)
    requires IsGroup(g)
  {
    var name := if "testname" in g.attrs then g.attrs["testname"] else "";
    && ms > 0 && !("enabled" in g.attrs && g.attrs["enabled"] == "false")
    && exists o :: PicksAsking(items, Key(ThreadGroupType(g).value, index), g, o) && o.pacingMs == ms && (o.name == "" || o.name == name)
  }

  lemma PacingIsDue(items: seq<Override>, index: nat, g: Element, ms: nat)
    requires IsGroup(g)
    ensures PacingOf(Configs(items), index, g) == Some(ms) <==> Due(items, index, g, ms)
  {
    hide PicksAsking, Lookup, Configs, Key;
    var key := Key(ThreadGroupType(g).value, index);
    forall o
      ensures Lookup(Configs(items), key, g) == Some(o) <==> PicksAsking(items, key, g, o)
    {
      LookupPicks(items, key, g, o);
    }
    if PacingOf(Configs(items), index, g) == Some(ms) {
      assert PicksAsking(items, key, g, Lookup(Configs(items), key, g).value);
    }
  }

  /** An enabled script timer of the platform, named after the group, that is given the milliseconds. */
  ghost predicate IsTimerOf(e: Element, g: Element, ms: nat) {
    var name := if "testname" in g.attrs && g.attrs["testname"] != "" then g.attrs["testname"] else "未命名线程组";
    && e.tag == "JSR223Timer" && e.attrs.Keys == {"guiclass", "testclass", "enabled", "testname"}
    && e.attrs["enabled"] == "true" && e.attrs["testclass"] == "JSR223Timer" && e.attrs["testname"] == "平台Pacing_" + name
    && (exists i :: 0 <= i < |e.children| && IsProp(e.children[i], "parameters"))
    && (forall i | 0 <= i < |e.children| && IsProp(e.children[i], "parameters") ::
          e.children[i].text.Some? && IsNumeral(e.children[i].text.value) && Value(e.children[i].text.value) == ms)
  }

  predicate IsProp(e: Element, name: string) { e.tag == "stringProp" && "name" in e.attrs && e.attrs["name"] == name }

  lemma TimerIsOf(g: Element, ms: nat)
    ensures IsTimerOf(Timer(g, ms), g, ms)
  {
    DecimalIsNumeral(ms);
    ValueOfDecimal(ms);
    assert IsProp(Timer(g, ms).children[2], "parameters");
  }

  // ----- what stands in the group's hashTree ----------------------------------------------------------------------

  lemma {:induction false} PaceKeepsFront(configs: map<string, Override>, es: seq<Element>, index: nat)
    ensures |Pace(configs, es, index).0| == |es|
    ensures es != [] ==> Pace(configs, es, index).0[0] == es[0]
  {
    if es != [] {
      hide Inserted;
      if HasHash(es) {
        PaceKeepsFront(configs, es[2..], Pace(configs, es[1].children, NextIndex(index, es[0])).1);
      } else {
        PaceKeepsFront(configs, es[1..], NextIndex(index, es[0]));
      }
    }
  }

  lemma {:induction false} PaceWithoutGroups(configs: map<string, Override>, es: seq<Element>, index: nat)
    requires DocGroups(es) == []
    ensures Pace(configs, es, index) == (es, index)
  {
    hide DocGroups, Pace;
    if es == [] {
      NothingPaced(configs, index);
    } else {
      DocGroupsStep(es);
      NoGroupIsFirst(es[0]);
      PaceStep(configs, es, index);
      if HasHash(es) {
        DocGroupsStep(es[1..]);
        assert es[1..][1..] == es[2..] && es[1..][0] == es[1];
        PaceWithoutGroups(configs, es[1].children, index);
        PaceWithoutGroups(configs, es[2..], index);
        assert [] + es[1].children == es[1].children && es[1].(children := es[1].children) == es[1];
        assert [es[0], es[1]] + es[2..] == es;
      } else {
        PaceWithoutGroups(configs, es[1..], index);
        assert [es[0]] + es[1..] == es;
      }
    }
  }

  lemma NoGroupIsFirst(e: Element)
    requires GroupsOf([e]) == []
    ensures !IsGroup(e)
  {}

  /** The child list starts with the timer's pair or as it did; without groups inside nothing else
      changes. */
  ghost predicate Starts(now: seq<Element>, was: seq<Element>, timer: seq<Element>) {
    && |now| == |timer| + |was| && now[..|timer|] == timer
    && (was != [] ==> now[|timer|] == was[0])
    && (DocGroups(was) == [] ==> now == timer + was)
  }

  lemma ScopeStarts(configs: map<string, Override>, g: Element, hash: Element, index: nat)
    requires IsGroup(g)
    ensures
      var now := PacedScope(configs, Pair(g, Some(hash)), index).hash.value;
      Starts(now.children, hash.children, Inserted(configs, index, g))
  {
    hide Inserted, Pace, DocGroups;
    PaceKeepsFront(configs, hash.children, NextIndex(index, g));
    if DocGroups(hash.children) == [] {
      PaceWithoutGroups(configs, hash.children, NextIndex(index, g));
    }
  }

  /** When a pacing is due to the group, its timer comes first in its hashTree, with an empty
      hashTree of its own; when none is, nothing is put in front. */
  ghost predicate IsPaced(items: seq<Override>, index: nat, g: Element, was: Pair, now: Pair)
    requires IsGroup(g)
  {
    && was.node == now.node == g && now.hash.Some? == was.hash.Some?
    && (was.hash.Some? ==>
          && (forall ms | Due(items, index, g, ms) :: exists timer ::
                IsTimerOf(timer, g, ms) &&
                Starts(now.hash.value.children, was.hash.value.children, [timer, Element("hashTree", map[], None, [])]))
          && ((forall ms :: !Due(items, index, g, ms)) ==> Starts(now.hash.value.children, was.hash.value.children, [])))
  }

  lemma ScopeIsPaced(items: seq<Override>, index: nat, p: Pair)
    requires IsGroup(p.node)
    ensures IsPaced(items, index, p.node, p, PacedScope(Configs(items), p, index))
  {
    hide Due, IsTimerOf, Starts, Pace, DocGroups, PacingOf, Timer, Configs;
    if p.hash.Some? {
      ScopeStarts(Configs(items), p.node, p.hash.value, index);
      assert p == Pair(p.node, Some(p.hash.value));
      forall ms: nat
        ensures PacingOf(Configs(items), index, p.node) == Some(ms) <==> Due(items, index, p.node, ms)
      {
        PacingIsDue(items, index, p.node, ms);
      }
      var due := PacingOf(Configs(items), index, p.node);
      if due.Some? {
        TimerIsOf(p.node, due.value);
        assert Due(items, index, p.node, due.value);
      }
    }
  }

  /** Every listed group is paced as its own overrides ask, and stays the i-th. */
  lemma ListedGroupIsPaced(root: Element, items: seq<Override>, i: nat)
    requires PlanOk(root) && i < |DocGroups([root])|
    ensures PlanOk(ApplyPacing(root, items)) && IsGroup(DocGroups([root])[i])
    ensures
      var before, after := Scopes(RootForest(root)), Scopes(RootForest(ApplyPacing(root, items)));
      && |after| == |before| == |DocGroups([root])|
      && IsPaced(items, i, DocGroups([root])[i], before[i], after[i])
  {
    PacingLandsOnListedGroup(root, items, i);
    hide Scopes, ApplyPacing, PacedScope, IsPaced, PlanOk, Pace, DocGroups, Configs;
    ListedIsGroup(root, i);
    ScopeIsPaced(items, i, Scopes(RootForest(root))[i]);
  }

  lemma ListedIsGroup(root: Element, i: nat)
    requires i < |DocGroups([root])|
    ensures IsGroup(DocGroups([root])[i])
  {
    assert DocGroups([root])[i] in DocGroups([root]);
  }
}
