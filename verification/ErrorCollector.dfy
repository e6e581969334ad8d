/** The one collector of failed results that a run's plan gets. */
module ErrorCollector {
  import opened Options
  import opened JmxTree
  import opened ErrorSampleInjection

  const COLLECTOR_NAME := "平台错误结果树"

  /** `_error_result_collector`; of its properties just the file name. */
  function Collector(path: string): Element {
    Element("ResultCollector",
            map["guiclass" := "ViewResultsFullVisualizer", "testclass" := "ResultCollector", "testname" := COLLECTOR_NAME,
                "enabled" := "true"],
            None, [Element("stringProp", map["name" := "filename"], Some(path), [])])
  }

  function CollectorPair(path: string): seq<Element> { [Collector(path), EmptyHash()] }

  /** Appends to the first walked test plan's hashTree, when there is one. */
  function AppendToPlan(es: seq<Element>, tail: seq<Element>): Option<seq<Element>> {
    if es == [] then None
    else if HasHash(es) then
      if es[0].tag == "TestPlan" then Some([es[0], es[1].(children := es[1].children + tail)] + es[2..])
      else match AppendToPlan(es[1].children, tail)
        case Some(children) => Some([es[0], es[1].(children := children)] + es[2..])
        case None =>
          match AppendToPlan(es[2..], tail)
          case Some(rest) => Some([es[0], es[1]] + rest)
          case None => None
    else
      match AppendToPlan(es[1..], tail)
      case Some(rest) => Some([es[0]] + rest)
      case None => None
  }

  function AppendCollector(es: seq<Element>, path: string): seq<Element> {
    match AppendToPlan(es, CollectorPair(path))
    case Some(out) => out
    case None => es + CollectorPair(path)
  }

  function RemoveCollectors(es: seq<Element>): seq<Element> { Remove(es, "ResultCollector", COLLECTOR_NAME) }

  /** `apply_error_result_collector` on the root hashTree. */
  function ApplyCollector(es: seq<Element>, path: string): seq<Element> { AppendCollector(RemoveCollectors(es), path) }

  function Collectors(es: seq<Element>): nat { Count(es, "ResultCollector", COLLECTOR_NAME) }

  lemma CollectorPairFacts(path: string)
    ensures Collectors(CollectorPair(path)) == 1 && RemoveCollectors(CollectorPair(path)) == [] && Paired(CollectorPair(path))
  {
    hide Count;
    var pair := CollectorPair(path);
    var props, none: seq<Element> := pair[0].children, [];
    CountStep(pair, "ResultCollector", COLLECTOR_NAME);
    CountStep(props, "ResultCollector", COLLECTOR_NAME);
    CountStep(pair[1..], "ResultCollector", COLLECTOR_NAME);
    NothingCounted("ResultCollector", COLLECTOR_NAME);
    assert props[1..] == none && pair[1..][1..] == none && pair[2..] == none && props[0].children == none && pair[1].children == none;
    assert HasHash(pair) && Named(pair[0], "ResultCollector", COLLECTOR_NAME);
    assert RemoveCollectors(pair) == RemoveCollectors(pair[2..]);
    assert RemoveCollectors(none) == none;
  }

  /** A collector is added where there was none: one collector, which a removal takes out again. */
  lemma {:induction false} AppendedToPlan(es: seq<Element>, path: string)
    requires Collectors(es) == 0 && AppendToPlan(es, CollectorPair(path)).Some?
    ensures
      var out := AppendToPlan(es, CollectorPair(path)).value;
      Collectors(out) == 1 && RemoveCollectors(out) == es
  {
    hide Count;
    NoneBelow(es);
    var out, pair := AppendToPlan(es, CollectorPair(path)).value, CollectorPair(path);
    CountStep(out, "ResultCollector", COLLECTOR_NAME);
    if HasHash(es) {
      NoneBelow(es[1..]);
      assert es[1..][1..] == es[2..] && es[1..][0] == es[1];
      CountStep(out[1..], "ResultCollector", COLLECTOR_NAME);
      assert out[1..][1..] == out[2..];
      if es[0].tag == "TestPlan" {
        AppendedTail(es[1].children, path);
      } else if AppendToPlan(es[1].children, pair).Some? {
        AppendedToPlan(es[1].children, path);
      } else {
        AppendedToPlan(es[2..], path);
        assert out[1].(children := out[1].children) == out[1];
      }
      KeptPair(es, out);
    } else {
      AppendedToPlan(es[1..], path);
      KeptSingle(es, out);
    }
  }

  lemma NoneBelow(es: seq<Element>)
    requires Collectors(es) == 0
    ensures es != [] ==>
      (&& Collectors(es[0].children) == 0 && Collectors(es[1..]) == 0 && !Named(es[0], "ResultCollector", COLLECTOR_NAME)
       && RemoveCollectors(es[0].children) == es[0].children && RemoveCollectors(es[1..]) == es[1..])
  {
    hide Count, Remove;
    if es != [] {
      CountStep(es, "ResultCollector", COLLECTOR_NAME);
      RemoveNothing(es[0].children, "ResultCollector", COLLECTOR_NAME);
      RemoveNothing(es[1..], "ResultCollector", COLLECTOR_NAME);
    }
  }

  lemma KeptPair(es: seq<Element>, out: seq<Element>)
    requires HasHash(es) && |out| >= 2 && out[0] == es[0] && out[1] == es[1].(children := out[1].children)
    requires !Named(es[0], "ResultCollector", COLLECTOR_NAME) && RemoveCollectors(es[0].children) == es[0].children
    requires RemoveCollectors(out[1].children) == es[1].children && RemoveCollectors(out[2..]) == es[2..]
    ensures RemoveCollectors(out) == es
  {
    RemovePair(out, "ResultCollector", COLLECTOR_NAME);
  }

  lemma KeptSingle(es: seq<Element>, out: seq<Element>)
    requires es != [] && out != [] && out[0] == es[0]
    requires !Named(es[0], "ResultCollector", COLLECTOR_NAME) && RemoveCollectors(es[0].children) == es[0].children
    requires RemoveCollectors(out[1..]) == es[1..]
    ensures RemoveCollectors(out) == es
  {}

  lemma {:induction false} AppendedTail(es: seq<Element>, path: string)
    requires Collectors(es) == 0
    ensures Collectors(es + CollectorPair(path)) == 1 && RemoveCollectors(es + CollectorPair(path)) == es
  {
    hide Count;
    CollectorPairFacts(path);
    CountSplit(es, CollectorPair(path), "ResultCollector", COLLECTOR_NAME);
    var all := es + CollectorPair(path);
    if es == [] {
      assert all == CollectorPair(path);
    } else {
      CountStep(es, "ResultCollector", COLLECTOR_NAME);
      RemoveNothing(es[0].children, "ResultCollector", COLLECTOR_NAME);
      AppendedTail(es[1..], path);
      assert all[1..] == es[1..] + CollectorPair(path);
      KeptSingle(es, all);
    }
  }

  lemma AppendedOnce(es: seq<Element>, path: string)
    requires Collectors(es) == 0
    ensures Collectors(AppendCollector(es, path)) == 1 && RemoveCollectors(AppendCollector(es, path)) == es
  {
    if AppendToPlan(es, CollectorPair(path)).Some? {
      AppendedToPlan(es, path);
    } else {
      AppendedTail(es, path);
    }
  }

  lemma {:induction false} AppendKeepsPaired(es: seq<Element>, path: string)
    requires Paired(es)
    ensures Paired(AppendCollector(es, path))
  {
    hide Count;
    CollectorPairFacts(path);
    if AppendToPlan(es, CollectorPair(path)).Some? {
      PlanKeepsPaired(es, path);
    } else {
      PairedConcat(es, CollectorPair(path));
    }
  }

  lemma {:induction false} PlanKeepsPaired(es: seq<Element>, path: string)
    requires Paired(es) && Paired(CollectorPair(path)) && AppendToPlan(es, CollectorPair(path)).Some?
    ensures
      var out := AppendToPlan(es, CollectorPair(path)).value;
      Paired(out) && out[0] == es[0]
  {
    var out, pair := AppendToPlan(es, CollectorPair(path)).value, CollectorPair(path);
    hide CollectorPair;
    if HasHash(es) {
      assert HasHash(out);
      if es[0].tag == "TestPlan" {
        PairedConcat(es[1].children, pair);
        assert out[2..] == es[2..];
      } else if AppendToPlan(es[1].children, pair).Some? {
        PlanKeepsPaired(es[1].children, path);
        assert out[2..] == es[2..];
      } else {
        PlanKeepsPaired(es[2..], path);
        assert out[2..] == AppendToPlan(es[2..], pair).value;
      }
    } else {
      PlanKeepsPaired(es[1..], path);
      assert out[1..] == AppendToPlan(es[1..], pair).value;
    }
  }

  /** However many collectors the plan held, the pass leaves exactly one, with its own hashTree, in
      a paired plan; the rest is the plan without collectors, and the pass done again with the
      same file changes nothing. */
  lemma CollectorApplied(es: seq<Element>, path: string)
    ensures Collectors(ApplyCollector(es, path)) == 1
    ensures RemoveCollectors(ApplyCollector(es, path)) == RemoveCollectors(es)
    ensures ApplyCollector(ApplyCollector(es, path), path) == ApplyCollector(es, path)
    ensures Paired(es) ==> Paired(ApplyCollector(es, path))
  {
    hide Count, Remove, AppendCollector, Paired;
    RemoveLeavesNone(es, "ResultCollector", COLLECTOR_NAME);
    AppendedOnce(RemoveCollectors(es), path);
    if Paired(es) {
      RemoveKeepsPaired(es, "ResultCollector", COLLECTOR_NAME);
      AppendKeepsPaired(RemoveCollectors(es), path);
    }
  }

  // ----- where it goes --------------------------------------------------------------------------------------------

  /** A test plan with a hashTree of its own. */
  predicate IsPlanPair(p: Pair) { p.node.tag == "TestPlan" && p.hash.Some? }

  predicate NoPlan(pairs: seq<Pair>) { forall j | 0 <= j < |pairs| :: !IsPlanPair(pairs[j]) }

  /** The walk of `now` meets what that of `was` does up to the first test plan, whose hashTree has
      the tail at its end. */
  ghost predicate PlanGets(was: seq<Pair>, now: seq<Pair>, k: nat, tail: seq<Element>) {
    && k < |was| && k < |now| && IsPlanPair(was[k]) && (forall j | 0 <= j < k :: !IsPlanPair(was[j]))
    && (forall j | 0 <= j < k :: now[j].node == was[j].node)
    && now[k] == Pair(was[k].node, Some(was[k].hash.value.(children := was[k].hash.value.children + tail)))
  }

  lemma {:induction false} AppendedAtPlan(es: seq<Element>, tail: seq<Element>) returns (k: nat)
    ensures AppendToPlan(es, tail).None? <==> NoPlan(Walk(es))
    ensures AppendToPlan(es, tail).Some? ==> PlanGets(Walk(es), Walk(AppendToPlan(es, tail).value), k, tail)
  {
    hide AppendToPlan, Walk, PlanGets, NoPlan;
    k := 0;
    if es == [] {
      NothingWalked(es, tail);
    } else if HasHash(es) {
      if es[0].tag == "TestPlan" {
        AppendedHere(es, tail);
      } else {
        var first := AppendedAtPlan(es[1].children, tail);
        var second := AppendedAtPlan(es[2..], tail);
        k := if AppendToPlan(es[1].children, tail).Some? then 1 + first else 1 + |Walk(es[1].children)| + second;
        AppendedBelow(es, tail, first, second);
      }
    } else {
      var rest := AppendedAtPlan(es[1..], tail);
      k := 1 + rest;
      AppendedBehind(es, tail, rest);
    }
  }

  lemma NothingWalked(es: seq<Element>, tail: seq<Element>)
    requires es == []
    ensures AppendToPlan(es, tail).None? && NoPlan(Walk(es))
  {}

  lemma AppendKeepsFirst(es: seq<Element>, tail: seq<Element>)
    requires AppendToPlan(es, tail).Some?
    ensures es != [] && AppendToPlan(es, tail).value != [] && AppendToPlan(es, tail).value[0] == es[0]
  {}

  lemma NoneInEither(a: seq<Pair>, b: seq<Pair>)
    requires NoPlan(a) && NoPlan(b)
    ensures NoPlan(a + b)
  {}

  /** A part in front without a test plan, whose nodes stay. */
  lemma Shifted(a: seq<Pair>, a': seq<Pair>, b: seq<Pair>, b': seq<Pair>, k: nat, tail: seq<Element>)
    requires |a'| == |a| && NoPlan(a) && (forall j | 0 <= j < |a| :: a'[j].node == a[j].node) && PlanGets(b, b', k, tail)
    ensures PlanGets(a + b, a' + b', |a| + k, tail)
    ensures !NoPlan(a + b)
  {
    assert (a + b)[|a| + k] == b[k];
  }

  lemma Followed(a: seq<Pair>, a': seq<Pair>, b: seq<Pair>, k: nat, tail: seq<Element>)
    requires PlanGets(a, a', k, tail)
    ensures PlanGets(a + b, a' + b, k, tail)
    ensures !NoPlan(a + b)
  {
    assert (a + b)[k] == a[k];
  }

  lemma WalkStep(es: seq<Element>)
    requires es != []
    ensures HasHash(es) ==> Walk(es) == [Pair(es[0], Some(es[1]))] + Walk(es[1].children) + Walk(es[2..])
    ensures !HasHash(es) ==> Walk(es) == [Pair(es[0], None)] + Walk(es[1..])
  {}

  lemma AppendedHere(es: seq<Element>, tail: seq<Element>)
    requires HasHash(es) && es[0].tag == "TestPlan"
    ensures AppendToPlan(es, tail).Some? && !NoPlan(Walk(es))
    ensures PlanGets(Walk(es), Walk(AppendToPlan(es, tail).value), 0, tail)
  {
    hide Walk;
    var out := AppendToPlan(es, tail).value;
    WalkStep(es);
    WalkStep(out);
    assert Walk(es)[0] == Pair(es[0], Some(es[1])) && Walk(out)[0] == Pair(es[0], Some(out[1]));
  }

  lemma AppendedBehind(es: seq<Element>, tail: seq<Element>, k: nat)
    requires es != [] && !HasHash(es)
    requires AppendToPlan(es[1..], tail).None? <==> NoPlan(Walk(es[1..]))
    requires AppendToPlan(es[1..], tail).Some? ==> PlanGets(Walk(es[1..]), Walk(AppendToPlan(es[1..], tail).value), k, tail)
    ensures AppendToPlan(es, tail).None? <==> NoPlan(Walk(es))
    ensures AppendToPlan(es, tail).Some? ==> PlanGets(Walk(es), Walk(AppendToPlan(es, tail).value), 1 + k, tail)
  {
    hide Walk, PlanGets;
    var own := [Pair(es[0], None)];
    WalkStep(es);
    if AppendToPlan(es[1..], tail).Some? {
      var out := AppendToPlan(es, tail).value;
      AppendKeepsFirst(es[1..], tail);
      assert !HasHash(out) && out[1..] == AppendToPlan(es[1..], tail).value;
      WalkStep(out);
      Shifted(own, own, Walk(es[1..]), Walk(out[1..]), k, tail);
    } else {
      NoneInEither(own, Walk(es[1..]));
    }
  }

  lemma AppendedBelow(es: seq<Element>, tail: seq<Element>, first: nat, second: nat)
    requires HasHash(es) && es[0].tag != "TestPlan"
    requires AppendToPlan(es[1].children, tail).None? <==> NoPlan(Walk(es[1].children))
    requires AppendToPlan(es[2..], tail).None? <==> NoPlan(Walk(es[2..]))
    requires AppendToPlan(es[1].children, tail).Some? ==>
      PlanGets(Walk(es[1].children), Walk(AppendToPlan(es[1].children, tail).value), first, tail)
    requires AppendToPlan(es[2..], tail).Some? ==> PlanGets(Walk(es[2..]), Walk(AppendToPlan(es[2..], tail).value), second, tail)
    ensures AppendToPlan(es, tail).None? <==> NoPlan(Walk(es))
    ensures AppendToPlan(es, tail).Some? ==>
      PlanGets(Walk(es), Walk(AppendToPlan(es, tail).value),
               if AppendToPlan(es[1].children, tail).Some? then 1 + first else 1 + |Walk(es[1].children)| + second, tail)
  {
    hide Walk, PlanGets, NoPlan;
    var own, inner, rest := [Pair(es[0], Some(es[1]))], Walk(es[1].children), Walk(es[2..]);
    WalkStep(es);
    NodeIsNoPlan(es[0], es[1]);
    if AppendToPlan(es[1].children, tail).Some? {
      var out := AppendToPlan(es, tail).value;
      assert HasHash(out) && out[2..] == es[2..] && out[1].children == AppendToPlan(es[1].children, tail).value;
      WalkStep(out);
      var own' := [Pair(es[0], Some(out[1]))];
      Shifted(own, own', inner, Walk(out[1].children), first, tail);
      Followed(own + inner, own' + Walk(out[1].children), rest, 1 + first, tail);
    } else {
      NoneInEither(own, inner);
      if AppendToPlan(es[2..], tail).Some? {
        var out := AppendToPlan(es, tail).value;
        assert HasHash(out) && out[2..] == AppendToPlan(es[2..], tail).value && out[1] == es[1];
        WalkStep(out);
        Shifted(own + inner, own + inner, rest, Walk(out[2..]), second, tail);
      } else {
        NoneInEither(own + inner, rest);
      }
    }
  }

  lemma NodeIsNoPlan(node: Element, hash: Element)
    requires node.tag != "TestPlan"
    ensures NoPlan([Pair(node, Some(hash))])
  {}

  /** An enabled collector of failed results into that file. */
  ghost predicate IsCollectorInto(e: Element, path: string) {
    && e.tag == "ResultCollector" && "testname" in e.attrs && e.attrs["testname"] == "平台错误结果树"
    && "enabled" in e.attrs && e.attrs["enabled"] == "true"
    && (exists i :: 0 <= i < |e.children| && IsFileName(e.children[i]))
    && (forall i | 0 <= i < |e.children| && IsFileName(e.children[i]) :: e.children[i].text == Some(path))
  }

  predicate IsFileName(e: Element) { e.tag == "stringProp" && "name" in e.attrs && e.attrs["name"] == "filename" }

  /** The collector stands at the end of the first test plan's hashTree, or of the root's when no test
      plan has one, with an empty hashTree behind it. */
  lemma CollectorPlaced(es: seq<Element>, path: string) returns (k: nat, collector: Element)
    ensures IsCollectorInto(collector, path)
    ensures
      var clean, out, pair := RemoveCollectors(es), ApplyCollector(es, path), [collector, Element("hashTree", map[], None, [])];
      if NoPlan(Walk(clean)) then out == clean + pair
      else PlanGets(Walk(clean), Walk(out), k, pair)
  {
    hide AppendToPlan, PlanGets, Walk;
    collector := Collector(path);
    assert IsFileName(collector.children[0]);
    k := AppendedAtPlan(RemoveCollectors(es), CollectorPair(path));
  }
}
