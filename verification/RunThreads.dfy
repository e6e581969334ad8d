/** Run-time thread settings: the rewriting of thread groups in document order, and the sum of
    the threads of the enabled ones. */
module RunThreads {
  import opened Options
  import opened JmxTree
  import opened ThreadGroups
  import opened RunOverrides

  // ----- named properties ------------------------------------------------------------------------------------

  function SetOwnText(e: Element, values: map<string, string>): Element {
    match Attr(e, "name")
    case None => e
    case Some(name) => if name != "" && name in values then e.(text := Some(values[name])) else e
  }

  /** `set_named_props` on every element of a forest. */
  function SetProps(es: seq<Element>, values: map<string, string>): (out: seq<Element>)
    ensures |Iter(out)| == |Iter(es)| && |out| == |es|
  {
    if es == [] then []
    else [SetOwnText(es[0], values).(children := SetProps(es[0].children, values))] + SetProps(es[1..], values)
  }

  function SetNamedProps(e: Element, values: map<string, string>): Element {
    SetOwnText(e, values).(children := SetProps(e.children, values))
  }

  /** The text of the first element with this name: None when there is no such element. */
  function FirstText(els: seq<Element>, name: string): Option<Option<string>> {
    if els == [] then None
    else if Attr(els[0], "name") == Some(name) then Some(els[0].text)
    else FirstText(els[1..], name)
  }

  function OrElse<T>(a: Option<T>, b: Option<T>): Option<T> { if a.Some? then a else b }

  lemma {:induction false} FirstTextConcat(a: seq<Element>, b: seq<Element>, name: string)
    ensures FirstText(a + b, name) == OrElse(FirstText(a, name), FirstText(b, name))
  {
    if a == [] {
      assert a + b == b;
    } else {
      assert (a + b)[1..] == a[1..] + b;
      FirstTextConcat(a[1..], b, name);
    }
  }

  /** The text a forest holds under a name, in document order. */
  function TextIn(es: seq<Element>, name: string): Option<Option<string>> { FirstText(Iter(es), name) }

  lemma TextInStep(es: seq<Element>, name: string)
    requires es != []
    ensures TextIn(es, name) ==
      if Attr(es[0], "name") == Some(name) then Some(es[0].text)
      else OrElse(TextIn(es[0].children, name), TextIn(es[1..], name))
  {
    FirstTextConcat([es[0]] + Iter(es[0].children), Iter(es[1..]), name);
    FirstTextConcat([es[0]], Iter(es[0].children), name);
  }

  /** Setting properties sets exactly the named ones that are there. */
  lemma {:induction false} SetPropsText(es: seq<Element>, values: map<string, string>, name: string)
    ensures TextIn(SetProps(es, values), name) ==
      if TextIn(es, name).Some? && name != "" && name in values then Some(Some(values[name])) else TextIn(es, name)
  {
    if es == [] {
    } else {
      hide TextIn;
      SetPropsText(es[0].children, values, name);
      SetPropsText(es[1..], values, name);
      TextInStep(es, name);
      TextInStep(SetProps(es, values), name);
    }
  }

  lemma SetKeepsType(e: Element, values: map<string, string>, children: seq<Element>)
    ensures ThreadGroupType(SetOwnText(e, values).(children := children)) == ThreadGroupType(e)
  {}

  lemma OneGroup(e: Element)
    ensures GroupsOf([e]) == if IsGroup(e) then [e] else []
  {}

  /** Setting properties makes no groups. */
  lemma {:induction false} SetPropsGroups(es: seq<Element>, values: map<string, string>)
    ensures |DocGroups(SetProps(es, values))| == |DocGroups(es)|
  {
    if es == [] {
    } else {
      hide DocGroups, SetOwnText, ThreadGroupType, GroupsOf;
      var set0 := SetProps(es, values);
      SetPropsGroups(es[0].children, values);
      SetPropsGroups(es[1..], values);
      DocGroupsStep(es);
      DocGroupsStep(set0);
      assert set0[1..] == SetProps(es[1..], values) && set0[0].children == SetProps(es[0].children, values);
      SetKeepsType(es[0], values, SetProps(es[0].children, values));
      OneGroup(es[0]);
      OneGroup(set0[0]);
    }
  }

  // ----- one element ------------------------------------------------------------------------------------------

  /** What `update_run_thread` is called with. */
  datatype Settings = Settings(overrides: map<string, Override>, numThreads: string, rampTime: string, duration: string)

  function OverrideOf(st: Settings, index: nat, e: Element): Option<Override> {
    Lookup(st.overrides, if IsGroup(e) then Key(ThreadGroupType(e).value, index) else "", e)
  }

  function ThreadsFor(st: Settings, o: Option<Override>): string {
    if o.Some? && o.value.mode == "custom" && o.value.numThreads != "" then o.value.numThreads else st.numThreads
  }

  function RampFor(st: Settings, o: Option<Override>): string {
    if o.Some? && o.value.mode == "custom" && o.value.rampTime != "" then o.value.rampTime else st.rampTime
  }

  function ThreadProp(groupType: string): string {
    if groupType == "concurrency_thread_group" then "TargetLevel" else "ThreadGroup.num_threads"
  }

  function GroupValues(groupType: string, threads: string, ramp: string, duration: string): map<string, string> {
    if groupType == "thread_group" then
      map["LoopController.continue_forever" := "true", "LoopController.loops" := "-1", "ThreadGroup.num_threads" := threads,
          "ThreadGroup.ramp_time" := ramp, "ThreadGroup.duration" := duration, "ThreadGroup.scheduler" := "true"]
    else if groupType == "stepping_thread_group" then
      map["ThreadGroup.num_threads" := threads, "Threads initial delay" := "0", "Start users count burst" := "0",
          "Start users count" := "1", "Start users period" := ramp, "flighttime" := duration, "rampUp" := "1"]
    else
      map["TargetLevel" := threads, "RampUp" := ramp, "Hold" := duration]
  }

  /** The `enabled` of an override is set on whatever element it matches. */
  function SwitchedBy(e: Element, o: Option<Override>): Element {
    if o.Some? && o.value.enabled.Some?
    then e.(attrs := e.attrs["enabled" := if o.value.enabled.value then "true" else "false"])
    else e
  }

  predicate IsFixed(o: Option<Override>) { o.Some? && o.value.mode == "fixed" }

  function UpdateElement(st: Settings, e: Element, index: nat): (e': Element)
    ensures |Iter(e'.children)| == |Iter(e.children)|
  {
    var o := OverrideOf(st, index, e);
    var switched := SwitchedBy(e, o);
    if !IsEnabled(switched) || IsFixed(o) || !IsGroup(e) then switched
    else SetNamedProps(switched, GroupValues(ThreadGroupType(e).value, ThreadsFor(st, o), RampFor(st, o), st.duration))
  }

  // ----- the whole tree -----------------------------------------------------------------------------------------

  function Next(index: nat, e: Element): nat { if IsGroup(e) then index + 1 else index }

  /** `update_run_thread` over a forest, in document order from the given group number. */
  function Update(st: Settings, es: seq<Element>, index: nat): (seq<Element>, nat)
    decreases |Iter(es)|
  {
    if es == [] then ([], index)
    else
      var e := UpdateElement(st, es[0], index);
      var (children, next) := Update(st, e.children, Next(index, es[0]));
      var (rest, last) := Update(st, es[1..], next);
      ([e.(children := children)] + rest, last)
  }

  // ----- what the rewriting does to the groups ---------------------------------------------------------------------

  /** No group contains another one. */
  predicate GroupsAreLeaves(es: seq<Element>) {
    es == [] ||
    ((IsGroup(es[0]) ==> DocGroups(es[0].children) == []) && GroupsAreLeaves(es[0].children) && GroupsAreLeaves(es[1..]))
  }

  lemma {:induction false} NoGroupsAreLeaves(es: seq<Element>)
    requires DocGroups(es) == []
    ensures GroupsAreLeaves(es)
  {
    if es == [] {
    } else {
      hide DocGroups;
      DocGroupsStep(es);
      NoGroupsAreLeaves(es[0].children);
      NoGroupsAreLeaves(es[1..]);
    }
  }

  lemma {:induction false} WellFormedLeaves(es: seq<Element>)
    requires WellFormed(es)
    ensures GroupsAreLeaves(es)
  {
    if es == [] {
    } else {
      hide DocGroups, WellFormed;
      WellFormedParts(es);
      NoGroupsAreLeaves(es[0].children);
      if HasHash(es) {
        WellFormedLeaves(es[1].children);
        WellFormedLeaves(es[2..]);
        HashLeaf(es[1..]);
      } else {
        WellFormedLeaves(es[1..]);
      }
    }
  }

  lemma HashLeaf(es: seq<Element>)
    requires es != [] && IsHash(es[0]) && GroupsAreLeaves(es[0].children) && GroupsAreLeaves(es[1..])
    ensures GroupsAreLeaves(es)
  {}

  predicate EnabledAfter(st: Settings, g: Element, index: nat)
    requires IsGroup(g)
  {
    var o := OverrideOf(st, index, g);
    if o.Some? && o.value.enabled.Some? then o.value.enabled.value else IsEnabled(g)
  }

  function TextOf(g: Element, name: string): Option<Option<string>> { TextIn([g], name) }

  /** The thread property of a group after the rewriting: as it was when the group is disabled or
      fixed, the threads asked for when it has the property. */
  function ThreadTextAfter(st: Settings, g: Element, index: nat): Option<Option<string>>
    requires IsGroup(g)
  {
    var o := OverrideOf(st, index, g);
    var before := TextOf(g, ThreadProp(ThreadGroupType(g).value));
    if !EnabledAfter(st, g, index) || IsFixed(o) || before.None? then before else Some(Some(ThreadsFor(st, o)))
  }

  /** The values an enabled group that is not fixed gets. */
  function ValuesFor(st: Settings, g: Element, index: nat): map<string, string>
    requires IsGroup(g)
  {
    var o := OverrideOf(st, index, g);
    GroupValues(ThreadGroupType(g).value, ThreadsFor(st, o), RampFor(st, o), st.duration)
  }

  /** Any property of a group after the rewriting. */
  function TextAfter(st: Settings, g: Element, index: nat, name: string): Option<Option<string>>
    requires IsGroup(g)
  {
    var before, values := TextOf(g, name), ValuesFor(st, g, index);
    if EnabledAfter(st, g, index) && !IsFixed(OverrideOf(st, index, g)) && before.Some? && name != "" && name in values
    then Some(Some(values[name])) else before
  }

  ghost predicate UpdatedGroup(st: Settings, g: Element, g': Element, index: nat)
    requires IsGroup(g)
  {
    && ThreadGroupType(g') == ThreadGroupType(g)
    && IsEnabled(g') == EnabledAfter(st, g, index)
    && TextOf(g', ThreadProp(ThreadGroupType(g).value)) == ThreadTextAfter(st, g, index)
    && g'.tag == g.tag && g'.attrs == SwitchedBy(g, OverrideOf(st, index, g)).attrs
    && forall name :: TextOf(g', name) == TextAfter(st, g, index, name)
  }

  /** The thread property is one of them. */
  lemma ThreadTextIsText(st: Settings, g: Element, index: nat)
    requires IsGroup(g)
    ensures ThreadTextAfter(st, g, index) == TextAfter(st, g, index, ThreadProp(ThreadGroupType(g).value))
  {
    hide TextIn, OverrideOf, GroupValues;
    var o := OverrideOf(st, index, g);
    ThreadValue(ThreadGroupType(g).value, ThreadsFor(st, o), RampFor(st, o), st.duration);
  }

  /** Switching an element on or off changes neither its type nor what it holds. */
  lemma SwitchedSame(e: Element, o: Option<Override>, children: seq<Element>, name: string)
    requires TextIn(children, name) == TextIn(e.children, name)
    ensures ThreadGroupType(SwitchedBy(e, o).(children := children)) == ThreadGroupType(e)
    ensures TextOf(SwitchedBy(e, o).(children := children), name) == TextOf(e, name)
  {
    hide TextIn;
    var e' := SwitchedBy(e, o).(children := children);
    TextInStep([e], name);
    TextInStep([e'], name);
    assert [e'][1..] == [e][1..];
  }

  /** Where there is no group only `enabled` attributes change. */
  lemma {:induction false} UpdateWithoutGroups(st: Settings, es: seq<Element>, index: nat, name: string)
    requires DocGroups(es) == []
    ensures DocGroups(Update(st, es, index).0) == []
    ensures Update(st, es, index).1 == index
    ensures TextIn(Update(st, es, index).0, name) == TextIn(es, name)
    decreases es
  {
    if es == [] {
    } else {
      hide DocGroups, TextIn, ThreadGroupType, GroupsOf, OverrideOf;
      DocGroupsStep(es);
      OneGroup(es[0]);
      var o := OverrideOf(st, index, es[0]);
      assert UpdateElement(st, es[0], index) == SwitchedBy(es[0], o);
      UpdateWithoutGroups(st, es[0].children, index, name);
      UpdateWithoutGroups(st, es[1..], index, name);
      var children := Update(st, es[0].children, index).0;
      SwitchedSame(es[0], o, children, name);
      var out := Update(st, es, index).0;
      assert out[0] == SwitchedBy(es[0], o).(children := children) && out[1..] == Update(st, es[1..], index).0;
      DocGroupsStep(out);
      OneGroup(out[0]);
      SameTextParts(es, out, name);
    }
  }

  lemma SameTextParts(a: seq<Element>, b: seq<Element>, name: string)
    requires a != [] && b != [] && TextOf(a[0], name) == TextOf(b[0], name) && TextIn(a[1..], name) == TextIn(b[1..], name)
    ensures TextIn(a, name) == TextIn(b, name)
  {
    hide TextIn, OrElse;
    assert [a[0]] + a[1..] == a && [b[0]] + b[1..] == b;
    TextInConcat([a[0]], a[1..], name);
    TextInConcat([b[0]], b[1..], name);
    assert TextIn(a, name) == OrElse(TextIn([a[0]], name), TextIn(a[1..], name));
    assert TextIn(b, name) == OrElse(TextIn([b[0]], name), TextIn(b[1..], name));
    assert TextIn([a[0]], name) == TextIn([b[0]], name);
  }

  lemma TextInConcat(a: seq<Element>, b: seq<Element>, name: string)
    ensures TextIn(a + b, name) == OrElse(TextIn(a, name), TextIn(b, name))
  {
    IterConcat(a, b);
    FirstTextConcat(Iter(a), Iter(b), name);
  }

  /** The rewritten group itself, whatever its number. */
  lemma GroupUpdated(st: Settings, g: Element, index: nat)
    requires IsGroup(g) && DocGroups(g.children) == []
    ensures
      var e := UpdateElement(st, g, index);
      UpdatedGroup(st, g, e.(children := Update(st, e.children, index + 1).0), index)
      && DocGroups(e.children) == []
  {
    hide DocGroups, TextIn, OverrideOf, Update;
    var o := OverrideOf(st, index, g);
    var e := UpdateElement(st, g, index);
    ThreadTextIsText(st, g, index);
    if !EnabledAfter(st, g, index) || IsFixed(o) {
      var g' := e.(children := Update(st, e.children, index + 1).0);
      forall name
        ensures TextOf(g', name) == TextAfter(st, g, index, name)
      {
        UpdateWithoutGroups(st, e.children, index + 1, name);
        SwitchedSame(g, o, Update(st, e.children, index + 1).0, name);
      }
      SwitchedType(g, o, g'.children);
    } else {
      GroupSet(st, g, index);
    }
  }

  lemma GroupSet(st: Settings, g: Element, index: nat)
    requires IsGroup(g) && DocGroups(g.children) == []
    requires EnabledAfter(st, g, index) && !IsFixed(OverrideOf(st, index, g))
    ensures
      var e := UpdateElement(st, g, index);
      UpdatedGroup(st, g, e.(children := Update(st, e.children, index + 1).0), index)
      && DocGroups(e.children) == []
  {
    hide DocGroups, TextIn, OverrideOf, Update, GroupValues, ThreadGroupType, SetOwnText;
    var o := OverrideOf(st, index, g);
    var switched, values := SwitchedBy(g, o), ValuesFor(st, g, index);
    var e := UpdateElement(st, g, index);
    SetPropsGroups(switched.children, values);
    var children := Update(st, e.children, index + 1).0;
    assert e.(children := children) == SetOwnText(switched, values).(children := children);
    SetKeepsType(switched, values, children);
    SwitchedType(g, o, switched.children);
    assert switched.(children := switched.children) == switched;
    SetKeepsAttrs(switched, values);
    ThreadTextIsText(st, g, index);
    forall name
      ensures TextOf(e.(children := children), name) == TextAfter(st, g, index, name)
    {
      UpdateWithoutGroups(st, e.children, index + 1, name);
      TextAfterSet(g, o, values, name, children);
    }
  }

  lemma SetKeepsAttrs(e: Element, values: map<string, string>)
    ensures SetOwnText(e, values).attrs == e.attrs && SetOwnText(e, values).tag == e.tag
  {}

  lemma ThreadValue(t: string, threads: string, ramp: string, duration: string)
    ensures ThreadProp(t) != "" && ThreadProp(t) in GroupValues(t, threads, ramp, duration)
    ensures GroupValues(t, threads, ramp, duration)[ThreadProp(t)] == threads
    requires t in GroupTypes()
  {}

  lemma TextAfterSet(g: Element, o: Option<Override>, values: map<string, string>, name: string, children: seq<Element>)
    requires TextIn(children, name) == TextIn(SetProps(g.children, values), name)
    ensures TextOf(SetOwnText(SwitchedBy(g, o), values).(children := children), name) ==
      if TextOf(g, name).Some? && name != "" && name in values then Some(Some(values[name])) else TextOf(g, name)
  {
    hide TextIn;
    var switched := SwitchedBy(g, o);
    SwitchedSame(g, o, g.children, name);
    assert switched.(children := g.children) == switched;
    SetPropsText([switched], values, name);
    var e := SetNamedProps(switched, values);
    assert SetProps([switched], values) == [e];
    SameChildrenText(e, children, name);
    assert e.(children := children) == SetOwnText(switched, values).(children := children);
  }

  lemma SameChildrenText(e: Element, children: seq<Element>, name: string)
    requires TextIn(children, name) == TextIn(e.children, name)
    ensures TextOf(e.(children := children), name) == TextOf(e, name)
  {
    hide TextIn;
    var e' := e.(children := children);
    TextInStep([e], name);
    TextInStep([e'], name);
    assert [e'][1..] == [e][1..];
  }

  ghost predicate UpdatedAll(st: Settings, a: seq<Element>, b: seq<Element>, index: nat) {
    |a| == |b| && forall i | 0 <= i < |a| :: IsGroup(a[i]) && UpdatedGroup(st, a[i], b[i], index + i)
  }

  lemma UpdatedConcat(st: Settings, a: seq<Element>, b: seq<Element>, c: seq<Element>, d: seq<Element>, index: nat)
    requires UpdatedAll(st, a, b, index) && UpdatedAll(st, c, d, index + |a|)
    ensures UpdatedAll(st, a + c, b + d, index)
  {
    hide UpdatedGroup;
    forall i | 0 <= i < |a + c|
      ensures IsGroup((a + c)[i]) && UpdatedGroup(st, (a + c)[i], (b + d)[i], index + i)
    {
      if i >= |a| {
        assert UpdatedGroup(st, c[i - |a|], d[i - |a|], index + |a| + (i - |a|));
      }
    }
  }

  /** The group an element is, and those below it. */
  function OwnGroups(e: Element): seq<Element> { GroupsOf([e]) + DocGroups(e.children) }

  lemma OwnGroupsStep(es: seq<Element>)
    requires es != []
    ensures DocGroups(es) == OwnGroups(es[0]) + DocGroups(es[1..])
  {
    hide DocGroups, GroupsOf;
    DocGroupsStep(es);
  }

  /** The rewriting gives every group exactly what its number and name ask for, and keeps its place. */
  lemma {:induction false} GroupsUpdated(st: Settings, es: seq<Element>, index: nat)
    requires GroupsAreLeaves(es)
    ensures UpdatedAll(st, DocGroups(es), DocGroups(Update(st, es, index).0), index)
    ensures Update(st, es, index).1 == index + |DocGroups(es)|
    decreases es, 1
  {
    hide DocGroups, UpdatedAll, UpdateElement, GroupsAreLeaves, Update, OwnGroups;
    if es == [] {
      NothingUpdated(st, index);
    } else {
      LeavesParts(es);
      OwnUpdated(st, es, index);
      var next := index + |OwnGroups(es[0])|;
      GroupsUpdated(st, es[1..], next);
      UpdatedGroups(st, es, index, next);
      Assembled(st, es, DocGroups(Update(st, es, index).0), DocGroups(Update(st, es[1..], next).0), index);
    }
  }

  lemma NothingUpdated(st: Settings, index: nat)
    ensures Update(st, [], index) == ([], index) && DocGroups([]) == []
    ensures UpdatedAll(st, DocGroups([]), DocGroups(Update(st, [], index).0), index)
  {}

  lemma Assembled(st: Settings, es: seq<Element>, whole: seq<Element>, rest: seq<Element>, index: nat)
    requires es != [] && |rest| <= |whole| && whole[|whole| - |rest|..] == rest
    requires UpdatedAll(st, OwnGroups(es[0]), whole[..|whole| - |rest|], index)
    requires UpdatedAll(st, DocGroups(es[1..]), rest, index + |OwnGroups(es[0])|)
    ensures UpdatedAll(st, DocGroups(es), whole, index)
    ensures |DocGroups(es)| == |OwnGroups(es[0])| + |DocGroups(es[1..])|
  {
    hide DocGroups, UpdatedAll, OwnGroups;
    OwnGroupsStep(es);
    UpdatedConcat(st, OwnGroups(es[0]), whole[..|whole| - |rest|], DocGroups(es[1..]), rest, index);
    assert whole[..|whole| - |rest|] + rest == whole;
  }

  lemma UpdatedGroups(st: Settings, es: seq<Element>, index: nat, next: nat)
    requires es != []
    requires next == Update(st, UpdateElement(st, es[0], index).children, Next(index, es[0])).1
    ensures
      var e := UpdateElement(st, es[0], index);
      var own := OwnGroups(e.(children := Update(st, e.children, Next(index, es[0])).0));
      var whole, rest := DocGroups(Update(st, es, index).0), DocGroups(Update(st, es[1..], next).0);
      && |rest| <= |whole| && whole[|whole| - |rest|..] == rest && whole[..|whole| - |rest|] == own
    ensures Update(st, es, index).1 == Update(st, es[1..], next).1
  {
    hide DocGroups, OwnGroups, UpdateElement, Update;
    UpdateStep(st, es, index);
    OwnGroupsStep(Update(st, es, index).0);
  }

  lemma LeavesParts(es: seq<Element>)
    requires es != [] && GroupsAreLeaves(es)
    ensures GroupsAreLeaves(es[0].children) && GroupsAreLeaves(es[1..])
    ensures IsGroup(es[0]) ==> DocGroups(es[0].children) == []
  {}

  lemma UpdateStep(st: Settings, es: seq<Element>, index: nat)
    requires es != []
    ensures
      var e := UpdateElement(st, es[0], index);
      var inner := Update(st, e.children, Next(index, es[0]));
      var rest := Update(st, es[1..], inner.1);
      && Update(st, es, index) == ([e.(children := inner.0)] + rest.0, rest.1)
      && Update(st, es, index).0[0] == e.(children := inner.0) && Update(st, es, index).0[1..] == rest.0
  {}

  /** The first element of a forest and the groups below it. */
  lemma OwnUpdated(st: Settings, es: seq<Element>, index: nat)
    requires es != [] && GroupsAreLeaves(es)
    ensures
      var e := UpdateElement(st, es[0], index);
      var inner := Update(st, e.children, Next(index, es[0]));
      && UpdatedAll(st, OwnGroups(es[0]), OwnGroups(e.(children := inner.0)), index)
      && inner.1 == index + |OwnGroups(es[0])|
    decreases es, 0
  {
    hide DocGroups, UpdatedGroup, GroupsOf, UpdateElement, Update, GroupsAreLeaves;
    LeavesParts(es);
    OneGroup(es[0]);
    var e := UpdateElement(st, es[0], index);
    if IsGroup(es[0]) {
      GroupUpdated(st, es[0], index);
      UpdateWithoutGroups(st, e.children, index + 1, "");
      TypeAfter(st, es[0], index, e.(children := Update(st, e.children, index + 1).0));
    } else {
      hide UpdatedAll;
      var o := OverrideOf(st, index, es[0]);
      NodeUpdated(st, es[0], index);
      GroupsUpdated(st, es[0].children, index);
      var children := Update(st, e.children, index).0;
      SwitchedType(es[0], o, children);
      OneGroup(e.(children := children));
      assert GroupsOf([es[0]]) + DocGroups(es[0].children) == DocGroups(es[0].children);
      assert GroupsOf([e.(children := children)]) + DocGroups(children) == DocGroups(children);
    }
  }

  lemma NodeUpdated(st: Settings, e: Element, index: nat)
    requires !IsGroup(e)
    ensures UpdateElement(st, e, index) == SwitchedBy(e, OverrideOf(st, index, e))
    ensures UpdateElement(st, e, index).children == e.children
  {}

  lemma TypeAfter(st: Settings, g: Element, index: nat, g': Element)
    requires IsGroup(g) && UpdatedGroup(st, g, g', index)
    ensures IsGroup(g') && GroupsOf([g']) == [g']
  {}

  lemma SwitchedType(e: Element, o: Option<Override>, children: seq<Element>)
    ensures ThreadGroupType(SwitchedBy(e, o).(children := children)) == ThreadGroupType(e)
  {}

  // ----- the sum ------------------------------------------------------------------------------------------------------

  /** How the source reads numbers: `toInt` is `int(text)`, None when it raises; `count` is
      `max(0, int(float(text)))`, 0 when it raises. */
  datatype Reader = Reader(toInt: string -> Option<int>, count: string -> nat)

  /** `to_non_negative_int` of a property's text; a missing text reads as 0. */
  function CountText(r: Reader, text: Option<Option<string>>): nat {
    if text.Some? && text.value.Some? then r.count(text.value.value) else 0
  }

  /** An element's own share of the sum. */
  function Threads(r: Reader, e: Element): nat {
    if IsEnabled(e) && IsGroup(e) then CountText(r, TextOf(e, ThreadProp(ThreadGroupType(e).value))) else 0
  }

  function Sum(r: Reader, els: seq<Element>): nat {
    if els == [] then 0 else Sum(r, els[..|els| - 1]) + Threads(r, els[|els| - 1])
  }

  /** `sum_enabled_thread_group_threads`, over the document order of the tree. */
  method SumEnabledThreadGroupThreads(r: Reader, elements: seq<Element>) returns (total: nat)
    ensures total == Sum(r, GroupsOf(elements))
  {
    total := 0;
    for k := 0 to |elements|
      invariant total == Sum(r, GroupsOf(elements[..k]))
    {
      hide GroupsOf, Sum, TextIn, ThreadGroupType, ThreadProp;
      SumNext(r, elements, k);
      var el := elements[k];
      if IsEnabled(el) && IsGroup(el) {
        total := total + CountText(r, TextOf(el, ThreadProp(ThreadGroupType(el).value)));
      }
    }
    assert elements[..|elements|] == elements;
  }

  lemma SumNext(r: Reader, elements: seq<Element>, k: nat)
    requires k < |elements|
    ensures Sum(r, GroupsOf(elements[..k + 1])) == Sum(r, GroupsOf(elements[..k])) + Threads(r, elements[k])
  {
    hide Threads, ThreadGroupType;
    var before, el := GroupsOf(elements[..k]), elements[k];
    assert elements[..k + 1] == elements[..k] + [el];
    GroupsOfConcat(elements[..k], [el]);
    OneGroup(el);
    SumOne(r, before, el);
  }

  lemma SumOne(r: Reader, els: seq<Element>, e: Element)
    ensures Sum(r, els + GroupsOf([e])) == Sum(r, els) + Threads(r, e)
  {
    hide TextIn, ThreadGroupType;
    OneGroup(e);
    if IsGroup(e) {
      assert (els + [e])[..|els|] == els;
    } else {
      assert els + [] == els;
    }
  }

  /** What the i-th group contributes after the rewriting. */
  function ThreadsAfter(st: Settings, r: Reader, g: Element, index: nat): nat
    requires IsGroup(g)
  {
    if EnabledAfter(st, g, index) then CountText(r, ThreadTextAfter(st, g, index)) else 0
  }

  function SumAfter(st: Settings, r: Reader, groups: seq<Element>, index: nat): nat
    requires AllGroups(groups)
  {
    if groups == [] then 0
    else SumAfter(st, r, groups[..|groups| - 1], index) + ThreadsAfter(st, r, groups[|groups| - 1], index + |groups| - 1)
  }

  lemma {:induction false} SumUpdated(st: Settings, r: Reader, a: seq<Element>, b: seq<Element>, index: nat)
    requires UpdatedAll(st, a, b, index) && AllGroups(a)
    ensures Sum(r, b) == SumAfter(st, r, a, index)
  {
    hide UpdatedGroup, Threads, ThreadsAfter, AllGroups, UpdatedAll;
    UpdatedParts(st, a, b, index);
    if a != [] {
      var k := |a| - 1;
      ThreadsOfUpdated(st, r, a[k], b[k], index + k);
      SumUpdated(st, r, a[..k], b[..k], index);
    }
  }

  lemma UpdatedParts(st: Settings, a: seq<Element>, b: seq<Element>, index: nat)
    requires UpdatedAll(st, a, b, index) && AllGroups(a)
    ensures |a| == |b|
    ensures a != [] ==>
      (var k := |a| - 1;
       AllGroups(a[..k]) && UpdatedAll(st, a[..k], b[..k], index) && IsGroup(a[k]) && UpdatedGroup(st, a[k], b[k], index + k))
  {
    hide UpdatedGroup;
  }

  lemma ThreadsOfUpdated(st: Settings, r: Reader, g: Element, g': Element, index: nat)
    requires IsGroup(g) && UpdatedGroup(st, g, g', index)
    ensures Threads(r, g') == ThreadsAfter(st, r, g, index)
  {
    hide ThreadTextAfter, TextIn, ThreadProp, OverrideOf;
  }

  // ----- whole plans ------------------------------------------------------------------------------------------------

  /** `update_run_thread`: the document order starts at the root. */
  function UpdatePlan(st: Settings, root: Element): Element {
    var e := UpdateElement(st, root, 0);
    e.(children := Update(st, e.children, Next(0, root)).0)
  }

  lemma PlanIsForest(st: Settings, root: Element)
    ensures Update(st, [root], 0).0 == [UpdatePlan(st, root)]
  {
    UpdateStep(st, [root], 0);
    NothingUpdated(st, Update(st, UpdateElement(st, root, 0).children, Next(0, root)).1);
  }

  lemma {:induction false} LeavesConcat(a: seq<Element>, b: seq<Element>)
    requires GroupsAreLeaves(a) && GroupsAreLeaves(b)
    ensures GroupsAreLeaves(a + b)
  {
    hide DocGroups;
    if a == [] {
      assert a + b == b;
    } else {
      assert (a + b)[1..] == a[1..] + b;
      LeavesConcat(a[1..], b);
    }
  }

  lemma PlanLeaves(root: Element)
    requires PlanOk(root)
    ensures GroupsAreLeaves([root])
  {
    hide DocGroups, WellFormed;
    var k := RootHash(root).value;
    NoGroupsAreLeaves(root.children[..k]);
    NoGroupsAreLeaves(root.children[k + 1..]);
    WellFormedLeaves(RootForest(root));
    HashLeaf(root.children[k..]);
    LeavesConcat(root.children[..k], root.children[k..]);
    assert root.children[..k] + root.children[k..] == root.children;
  }

  /** The threads of a rewritten plan, told from the groups as they were. */
  lemma SumOfUpdatedPlan(st: Settings, r: Reader, root: Element)
    requires PlanOk(root)
    ensures Sum(r, DocGroups([UpdatePlan(st, root)])) == SumAfter(st, r, DocGroups([root]), 0)
  {
    PlanLeaves(root);
    hide DocGroups, Update, UpdatedAll, PlanOk, GroupsAreLeaves, UpdatePlan;
    GroupsUpdated(st, [root], 0);
    PlanIsForest(st, root);
    SumUpdated(st, r, DocGroups([root]), DocGroups(Update(st, [root], 0).0), 0);
  }

  // ----- the rewriting keeps the plan in shape --------------------------------------------------------------------------

  lemma UpdateKeepsTag(st: Settings, e: Element, index: nat)
    ensures UpdateElement(st, e, index).tag == e.tag
    ensures IsHash(e) ==> UpdateElement(st, e, index).children == e.children
  {}

  lemma UpdateKeepsLength(st: Settings, es: seq<Element>, index: nat)
    ensures |Update(st, es, index).0| == |es|
    ensures es != [] ==> Update(st, es, index).0[0].tag == es[0].tag
    decreases es
  {
    if es != [] {
      UpdateStep(st, es, index);
      UpdateKeepsTag(st, es[0], index);
      UpdateKeepsLength(st, es[1..], Update(st, UpdateElement(st, es[0], index).children, Next(index, es[0])).1);
    }
  }

  /** A node's properties still hold no group. */
  lemma PropsStayFree(st: Settings, e: Element, index: nat)
    requires DocGroups(e.children) == []
    ensures DocGroups(Update(st, UpdateElement(st, e, index).children, Next(index, e)).0) == []
    ensures Update(st, UpdateElement(st, e, index).children, Next(index, e)).1 == Next(index, e)
  {
    hide DocGroups, Update, UpdateElement;
    if IsGroup(e) {
      GroupUpdated(st, e, index);
    } else {
      NodeUpdated(st, e, index);
    }
    UpdateWithoutGroups(st, UpdateElement(st, e, index).children, Next(index, e), "");
  }

  lemma {:induction false} UpdateKeepsShape(st: Settings, es: seq<Element>, index: nat)
    requires WellFormed(es)
    ensures WellFormed(Update(st, es, index).0)
    decreases es
  {
    hide DocGroups, Update, UpdateElement, WellFormed;
    if es == [] {
      NothingUpdated(st, index);
    } else {
      WellFormedParts(es);
      UpdateStep(st, es, index);
      UpdateKeepsTag(st, es[0], index);
      PropsStayFree(st, es[0], index);
      var out, next := Update(st, es, index).0, Next(index, es[0]);
      UpdateKeepsLength(st, es[1..], next);
      if HasHash(es) {
        UpdateStep(st, es[1..], next);
        UpdateKeepsTag(st, es[1], next);
        UpdateKeepsShape(st, es[1].children, Next(next, es[1]));
        var last := Update(st, es[1].children, Next(next, es[1])).1;
        UpdateKeepsShape(st, es[2..], last);
        assert es[1..][1..] == es[2..] && out[2..] == out[1..][1..];
      } else {
        UpdateKeepsShape(st, es[1..], next);
      }
      WellFormedWhole(out);
    }
  }

  /** A hashTree between parts without groups. */
  lemma PartsUpdated(st: Settings, before: seq<Element>, hash: Element, after: seq<Element>)
    requires DocGroups(before) == [] && DocGroups(after) == [] && IsHash(hash) && WellFormed(hash.children)
    ensures
      var out := Update(st, before + ([hash] + after), 0).0;
      && |out| == |before| + 1 + |after| && IsHash(out[|before|]) && WellFormed(out[|before|].children)
      && DocGroups(out[..|before|]) == [] && DocGroups(out[|before| + 1..]) == []
  {
    hide DocGroups, Update, UpdateElement, WellFormed;
    UpdateConcat(st, before, [hash] + after, 0);
    UpdateWithoutGroups(st, before, 0, "");
    UpdateKeepsLength(st, before, 0);
    UpdateStep(st, [hash] + after, 0);
    UpdateKeepsTag(st, hash, 0);
    UpdateKeepsShape(st, hash.children, 0);
    var last := Update(st, hash.children, 0).1;
    assert ([hash] + after)[1..] == after;
    UpdateWithoutGroups(st, after, last, "");
    UpdateKeepsLength(st, after, last);
    var out := Update(st, before + ([hash] + after), 0).0;
    assert out[..|before|] == Update(st, before, 0).0;
    assert out[|before| + 1..] == Update(st, after, last).0;
  }

  /** A plan in shape stays in shape. */
  lemma UpdateKeepsPlan(st: Settings, root: Element)
    requires PlanOk(root)
    ensures PlanOk(UpdatePlan(st, root))
  {
    hide DocGroups, Update, UpdateElement, WellFormed;
    NodeUpdated(st, root, 0);
    var k := RootHash(root).value;
    var before, hash, after := root.children[..k], root.children[k], root.children[k + 1..];
    assert before + ([hash] + after) == root.children;
    PartsUpdated(st, before, hash, after);
    FirstHashAfter(st, root.children, 0);
    RootTypeKept(root, OverrideOf(st, 0, root), UpdatePlan(st, root).children);
  }

  lemma RootTypeKept(root: Element, o: Option<Override>, children: seq<Element>)
    ensures ThreadGroupType(SwitchedBy(root, o).(children := children)) == ThreadGroupType(root)
  {}

  lemma {:induction false} UpdateConcat(st: Settings, a: seq<Element>, b: seq<Element>, index: nat)
    ensures Update(st, a + b, index).0 == Update(st, a, index).0 + Update(st, b, Update(st, a, index).1).0
    ensures Update(st, a + b, index).1 == Update(st, b, Update(st, a, index).1).1
    decreases a
  {
    hide Update, UpdateElement;
    if a == [] {
      NothingUpdated(st, index);
      assert a + b == b;
    } else {
      var next := Update(st, UpdateElement(st, a[0], index).children, Next(index, a[0])).1;
      UpdateStep(st, a, index);
      UpdateStep(st, a + b, index);
      assert (a + b)[1..] == a[1..] + b;
      UpdateConcat(st, a[1..], b, next);
    }
  }

  lemma {:induction false} FirstHashAfter(st: Settings, es: seq<Element>, index: nat)
    ensures FirstHash(Update(st, es, index).0) == FirstHash(es)
    decreases es
  {
    hide Update, UpdateElement;
    if es == [] {
      NothingUpdated(st, index);
    } else {
      UpdateStep(st, es, index);
      UpdateKeepsTag(st, es[0], index);
      FirstHashAfter(st, es[1..], Update(st, UpdateElement(st, es[0], index).children, Next(index, es[0])).1);
    }
  }
}
