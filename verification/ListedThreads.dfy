/** What a listed thread group is after the rewriting for a run, told from the overrides and the
    group as it is listed. */
module ListedThreads {
  import opened Options
  import opened JmxTree
  import opened ThreadGroups
  import opened RunOverrides
  import opened RunThreads

  /** What the rewriting writes under a property of each kind of group: it runs for its time with
      the threads and the ramp asked for. */
  function Wanted(groupType: string, name: string, threads: string, ramp: string, duration: string): Option<string> {
    match groupType
    case "thread_group" =>
      if name == "ThreadGroup.num_threads" then Some(threads)
      else if name == "ThreadGroup.ramp_time" then Some(ramp)
      else if name == "ThreadGroup.duration" then Some(duration)
      else if name in ["ThreadGroup.scheduler", "LoopController.continue_forever"] then Some("true")
      else if name == "LoopController.loops" then Some("-1")
      else None
    case "stepping_thread_group" =>
      if name == "ThreadGroup.num_threads" then Some(threads)
      else if name == "Start users period" then Some(ramp)
      else if name == "flighttime" then Some(duration)
      else if name in ["Start users count", "rampUp"] then Some("1")
      else if name in ["Threads initial delay", "Start users count burst"] then Some("0")
      else None
    case _ =>
      if name == "TargetLevel" then Some(threads)
      else if name == "RampUp" then Some(ramp)
      else if name == "Hold" then Some(duration)
      else None
  }

  lemma ValuesAreWanted(groupType: string, name: string, threads: string, ramp: string, duration: string)
    requires groupType in GroupTypes()
    ensures
      var values, wanted := GroupValues(groupType, threads, ramp, duration), Wanted(groupType, name, threads, ramp, duration);
      (name in values <==> wanted.Some?) && (wanted.Some? ==> name != "" && values[name] == wanted.value)
  {
    hide GroupValues, Wanted;
    if groupType == "thread_group" {
      OrdinaryValues(name, threads, ramp, duration);
    } else if groupType == "stepping_thread_group" {
      SteppingValues(name, threads, ramp, duration);
    } else {
      ConcurrencyValues(name, threads, ramp, duration);
    }
  }

  lemma OrdinaryValues(name: string, threads: string, ramp: string, duration: string)
    ensures
      var t := "thread_group";
      var values, wanted := GroupValues(t, threads, ramp, duration), Wanted(t, name, threads, ramp, duration);
      (name in values <==> wanted.Some?) && (wanted.Some? ==> name != "" && values[name] == wanted.value)
  {}

  lemma SteppingValues(name: string, threads: string, ramp: string, duration: string)
    ensures
      var t := "stepping_thread_group";
      var values, wanted := GroupValues(t, threads, ramp, duration), Wanted(t, name, threads, ramp, duration);
      (name in values <==> wanted.Some?) && (wanted.Some? ==> name != "" && values[name] == wanted.value)
  {}

  lemma ConcurrencyValues(name: string, threads: string, ramp: string, duration: string)
    ensures
      var t := "concurrency_thread_group";
      var values, wanted := GroupValues(t, threads, ramp, duration), Wanted(t, name, threads, ramp, duration);
      (name in values <==> wanted.Some?) && (wanted.Some? ==> name != "" && values[name] == wanted.value)
  {}

  /** The properties wanted are set where the group has them, the others are as they were. */
  ghost predicate Rewritten(g: Element, g': Element, threads: string, ramp: string, duration: string)
    requires IsGroup(g)
  {
    forall name ::
      var wanted := Wanted(ThreadGroupType(g).value, name, threads, ramp, duration);
      TextOf(g', name) == if TextOf(g, name).Some? && wanted.Some? then Some(wanted) else TextOf(g, name)
  }

  ghost predicate Kept(g: Element, g': Element) { forall name :: TextOf(g', name) == TextOf(g, name) }

  /** Switched on or off, and otherwise with the attributes it had. */
  ghost predicate Switched(g: Element, g': Element, on: bool) {
    && g'.tag == g.tag
    && (on <==> !("enabled" in g'.attrs && g'.attrs["enabled"] == "false"))
    && forall a | a != "enabled" :: Attr(g', a) == Attr(g, a)
  }

  /** The group under its override: switched as that says, or as it was; unless it is off or fixed,
      the wanted properties it has are set, with the override's own threads and ramp in custom mode;
      everything else is as it was. */
  ghost predicate RunsAs(items: seq<Override>, numThreads: string, rampTime: string, duration: string, index: nat,
                         g: Element, g': Element, o: Option<Override>)
    requires IsGroup(g)
  {
    var on := if o.Some? && o.value.enabled.Some? then o.value.enabled.value
              else !("enabled" in g.attrs && g.attrs["enabled"] == "false");
    var custom := o.Some? && o.value.mode == "custom";
    var threads := if custom && o.value.numThreads != "" then o.value.numThreads else numThreads;
    var ramp := if custom && o.value.rampTime != "" then o.value.rampTime else rampTime;
    && Gets(items, Key(ThreadGroupType(g).value, index), g, o)
    && ThreadGroupType(g') == ThreadGroupType(g) && Switched(g, g', on)
    && if on && !(o.Some? && o.value.mode == "fixed") then Rewritten(g, g', threads, ramp, duration) else Kept(g, g')
  }

  lemma AttributesSwitched(g: Element, g': Element, o: Option<Override>)
    requires g'.tag == g.tag && g'.attrs == SwitchedBy(g, o).attrs
    ensures Switched(g, g', if o.Some? && o.value.enabled.Some? then o.value.enabled.value
                            else !("enabled" in g.attrs && g.attrs["enabled"] == "false"))
  {}

  lemma TextsRewritten(st: Settings, g: Element, g': Element, index: nat)
    requires IsGroup(g) && forall name :: TextOf(g', name) == TextAfter(st, g, index, name)
    ensures
      var o := OverrideOf(st, index, g);
      if EnabledAfter(st, g, index) && !IsFixed(o)
      then Rewritten(g, g', ThreadsFor(st, o), RampFor(st, o), st.duration) else Kept(g, g')
  {
    hide TextOf, GroupValues, Wanted, OverrideOf, ThreadGroupType;
    var o := OverrideOf(st, index, g);
    forall name
      ensures
        var t := ThreadGroupType(g).value;
        var values, wanted := ValuesFor(st, g, index), Wanted(t, name, ThreadsFor(st, o), RampFor(st, o), st.duration);
        && TextOf(g', name) == TextAfter(st, g, index, name)
        && (name in values <==> wanted.Some?) && (wanted.Some? ==> name != "" && values[name] == wanted.value)
    {
      ValuesAreWanted(ThreadGroupType(g).value, name, ThreadsFor(st, o), RampFor(st, o), st.duration);
    }
  }

  lemma UpdatedRunsAs(items: seq<Override>, numThreads: string, rampTime: string, duration: string, index: nat,
                      g: Element, g': Element)
    requires IsGroup(g) && UpdatedGroup(Settings(ByKey(items), numThreads, rampTime, duration), g, g', index)
    ensures exists o :: RunsAs(items, numThreads, rampTime, duration, index, g, g', o)
  {
    hide TextOf, Gets, Lookup, ByKey, ThreadGroupType, Rewritten, Kept, Switched, Key, TextAfter;
    var st := Settings(ByKey(items), numThreads, rampTime, duration);
    var o := OverrideOf(st, index, g);
    LookupGets(items, Key(ThreadGroupType(g).value, index), g);
    AttributesSwitched(g, g', o);
    TextsRewritten(st, g, g', index);
    assert RunsAs(items, numThreads, rampTime, duration, index, g, g', o);
  }

  /** Every listed group of the plan runs as its own override asks, and stays the i-th. */
  lemma ListedGroupRuns(root: Element, items: seq<Override>, numThreads: string, rampTime: string, duration: string, i: nat)
    requires PlanOk(root) && i < |DocGroups([root])|
    ensures
      var st := Settings(ByKey(items), numThreads, rampTime, duration);
      var before, after := DocGroups([root]), DocGroups([UpdatePlan(st, root)]);
      && |after| == |before| && IsGroup(before[i])
      && exists o :: RunsAs(items, numThreads, rampTime, duration, i, before[i], after[i], o)
  {
    var st := Settings(ByKey(items), numThreads, rampTime, duration);
    PlanLeaves(root);
    hide DocGroups, Update, PlanOk, GroupsAreLeaves, UpdatePlan, UpdatedGroup, RunsAs, ByKey;
    GroupsUpdated(st, [root], 0);
    PlanIsForest(st, root);
    UpdatedRunsAs(items, numThreads, rampTime, duration, i, DocGroups([root])[i], DocGroups([UpdatePlan(st, root)])[i]);
  }

  // ----- how many threads a group counts for ------------------------------------------------------------------------

  predicate IsNamed(e: Element, name: string) { "name" in e.attrs && e.attrs["name"] == name }

  /** The text under a name is that of the first element with it. */
  lemma {:induction false} TextIsFirst(els: seq<Element>, name: string)
    ensures FirstText(els, name).None? <==> forall e | e in els :: !IsNamed(e, name)
    ensures forall k: nat | k < |els| && IsNamed(els[k], name) && (forall j | 0 <= j < k :: !IsNamed(els[j], name)) ::
      FirstText(els, name) == Some(els[k].text)
  {
    if els != [] {
      var rest := els[1..];
      TextIsFirst(rest, name);
      assert els == [els[0]] + rest;
      forall k: nat | k < |els| && IsNamed(els[k], name) && (forall j | 0 <= j < k :: !IsNamed(els[j], name))
        ensures FirstText(els, name) == Some(els[k].text)
      {
        if k > 0 {
          assert rest[k - 1] == els[k] && forall j | 0 <= j < k - 1 :: rest[j] == els[j + 1];
        }
      }
    }
  }

  /** An enabled group counts for the number in the first property that holds its threads, or for
      nothing without one or without a text; a disabled one and any other element count for nothing. */
  lemma ThreadsTold(r: Reader, g: Element)
    ensures !IsGroup(g) || ("enabled" in g.attrs && g.attrs["enabled"] == "false") ==> Threads(r, g) == 0
    ensures IsGroup(g) && !("enabled" in g.attrs && g.attrs["enabled"] == "false") ==>
      var name := if ThreadGroupType(g) == Some("concurrency_thread_group") then "TargetLevel" else "ThreadGroup.num_threads";
      && ((forall e | e in Iter([g]) :: !IsNamed(e, name)) ==> Threads(r, g) == 0)
      && forall k: nat | k < |Iter([g])| && IsNamed(Iter([g])[k], name) && (forall j | 0 <= j < k :: !IsNamed(Iter([g])[j], name)) ::
           Threads(r, g) == if Iter([g])[k].text.Some? then r.count(Iter([g])[k].text.value) else 0
  {
    hide Iter, FirstText, ThreadGroupType;
    if IsGroup(g) {
      TextIsFirst(Iter([g]), ThreadProp(ThreadGroupType(g).value));
    }
  }
}
