/** The platform's assertion in every HTTP sampler's hashTree: its injection, and the removal of
    elements by tag and name. */
module ErrorSampleInjection {
  import opened Options
  import opened JmxTree

  const SAMPLE_NAME := "平台错误请求采样"

  // ----- removal -------------------------------------------------------------------------------------------------

  /** `findall` and remove: every element of this tag and name below the hashTree, whatever holds
      it, together with the hashTree that then stands in its place. */
  function Remove(es: seq<Element>, tag: string, name: string): seq<Element> {
    if es == [] then []
    else if Named(es[0], tag, name) then Remove(if HasHash(es) then es[2..] else es[1..], tag, name)
    else [es[0].(children := Remove(es[0].children, tag, name))] + Remove(es[1..], tag, name)
  }

  /** How many elements of this tag and name a forest holds, at any depth. */
  function Count(es: seq<Element>, tag: string, name: string): nat { CountNamed(Iter(es), tag, name) }

  lemma CountStep(es: seq<Element>, tag: string, name: string)
    requires es != []
    ensures Count(es, tag, name) ==
      (if Named(es[0], tag, name) then 1 else 0) + Count(es[0].children, tag, name) + Count(es[1..], tag, name)
  {
    CountConcat([es[0]] + Iter(es[0].children), Iter(es[1..]), tag, name);
    CountConcat([es[0]], Iter(es[0].children), tag, name);
  }

  lemma CountSplit(a: seq<Element>, b: seq<Element>, tag: string, name: string)
    ensures Count(a + b, tag, name) == Count(a, tag, name) + Count(b, tag, name)
  {
    IterConcat(a, b);
    CountConcat(Iter(a), Iter(b), tag, name);
  }

  lemma NothingCounted(tag: string, name: string)
    ensures Count([], tag, name) == 0
  {}

  lemma RenamedChildren(e: Element, children: seq<Element>, tag: string, name: string)
    ensures Named(e.(children := children), tag, name) == Named(e, tag, name)
    ensures e.(children := e.children) == e
  {}

  /** Nothing of that tag and name is left, at any depth. */
  lemma {:induction false} RemoveLeavesNone(es: seq<Element>, tag: string, name: string)
    ensures Count(Remove(es, tag, name), tag, name) == 0
  {
    hide Count;
    if es == [] {
      NothingCounted(tag, name);
    } else if Named(es[0], tag, name) {
      RemoveLeavesNone(if HasHash(es) then es[2..] else es[1..], tag, name);
    } else {
      RemoveLeavesNone(es[0].children, tag, name);
      RemoveLeavesNone(es[1..], tag, name);
      RenamedChildren(es[0], Remove(es[0].children, tag, name), tag, name);
      CountStep(Remove(es, tag, name), tag, name);
    }
  }

  /** Where there is none nothing changes. */
  lemma {:induction false} RemoveNothing(es: seq<Element>, tag: string, name: string)
    requires Count(es, tag, name) == 0
    ensures Remove(es, tag, name) == es
  {
    hide Count;
    if es == [] {
    } else {
      CountStep(es, tag, name);
      RenamedChildren(es[0], es[0].children, tag, name);
      RemoveNothing(es[0].children, tag, name);
      RemoveNothing(es[1..], tag, name);
    }
  }

  /** Removal takes whole pairs: what was paired stays paired. */
  lemma {:induction false} RemoveKeepsPaired(es: seq<Element>, tag: string, name: string)
    requires Paired(es) && tag != "hashTree"
    ensures Paired(Remove(es, tag, name))
  {
    if es == [] {
    } else if Named(es[0], tag, name) {
      RemoveKeepsPaired(if HasHash(es) then es[2..] else es[1..], tag, name);
    } else if HasHash(es) {
      RemoveKeepsPaired(es[1].children, tag, name);
      RemoveKeepsPaired(es[2..], tag, name);
      RemovePair(es, tag, name);
    } else {
      RemoveKeepsPaired(es[1..], tag, name);
      RemoveSingle(es, tag, name);
    }
  }

  lemma RemovePair(es: seq<Element>, tag: string, name: string)
    requires HasHash(es) && tag != "hashTree" && !Named(es[0], tag, name)
    ensures
      var out := Remove(es, tag, name);
      && HasHash(out) && out[0].tag == es[0].tag
      && out[1].children == Remove(es[1].children, tag, name) && out[2..] == Remove(es[2..], tag, name)
  {
    assert es[1..][0] == es[1] && es[1..][1..] == es[2..];
    assert Remove(es, tag, name) == [es[0].(children := Remove(es[0].children, tag, name))] + Remove(es[1..], tag, name);
    assert Remove(es[1..], tag, name) == [es[1].(children := Remove(es[1].children, tag, name))] + Remove(es[2..], tag, name);
  }

  lemma RemoveSingle(es: seq<Element>, tag: string, name: string)
    requires es != [] && Paired(es) && !HasHash(es) && !Named(es[0], tag, name)
    ensures
      var out := Remove(es, tag, name);
      out != [] && out[0].tag == es[0].tag && !HasHash(out) && out[1..] == Remove(es[1..], tag, name)
  {
    FirstStaysNode(es[1..], tag, name);
  }

  lemma {:induction false} FirstStaysNode(es: seq<Element>, tag: string, name: string)
    requires Paired(es)
    ensures var out := Remove(es, tag, name); out != [] ==> !IsHash(out[0])
  {
    if es != [] && Named(es[0], tag, name) {
      FirstStaysNode(if HasHash(es) then es[2..] else es[1..], tag, name);
    }
  }

  // ----- assertions --------------------------------------------------------------------------------------------------

  predicate IsSampler(e: Element) { e.tag == "HTTPSamplerProxy" }

  predicate IsAssertion(e: Element) { Named(e, "JSR223Assertion", SAMPLE_NAME) }

  /** `_jsr223_error_sample_assertion`; its properties are left out. */
  function Assertion(): Element {
    Element("JSR223Assertion",
            map["guiclass" := "TestBeanGUI", "testclass" := "JSR223Assertion", "testname" := SAMPLE_NAME, "enabled" := "true"],
            None, [])
  }

  function AssertionPair(): seq<Element> { [Assertion(), EmptyHash()] }

  /** `_has_error_sample_assertion`: among the hashTree's own children. */
  function OwnAssertions(children: seq<Element>): nat { CountNamed(children, "JSR223Assertion", SAMPLE_NAME) }

  function WithAssertion(children: seq<Element>): seq<Element> {
    if OwnAssertions(children) > 0 then children else children + AssertionPair()
  }

  /** `_inject_error_sample_assertions`: the walk is taken first, so that nothing injected is walked. */
  function Inject(es: seq<Element>): seq<Element> {
    if es == [] then []
    else if HasHash(es) then
      var inner := Inject(es[1].children);
      [es[0], es[1].(children := if IsSampler(es[0]) then WithAssertion(inner) else inner)] + Inject(es[2..])
    else if IsSampler(es[0]) then [es[0], EmptyHash().(children := AssertionPair())] + Inject(es[1..])
    else [es[0]] + Inject(es[1..])
  }

  /** What each walked sampler holds in its own hashTree; nothing when it has none. */
  function SamplerScopes(es: seq<Element>): seq<(Element, seq<Element>)> {
    if es == [] then []
    else if HasHash(es) then
      (if IsSampler(es[0]) then [(es[0], es[1].children)] else []) + SamplerScopes(es[1].children) + SamplerScopes(es[2..])
    else (if IsSampler(es[0]) then [(es[0], [])] else []) + SamplerScopes(es[1..])
  }

  /** Every sampler is followed by a hashTree. */
  predicate SamplersHaveHash(es: seq<Element>) {
    es == [] ||
    if HasHash(es) then SamplersHaveHash(es[1].children) && SamplersHaveHash(es[2..])
    else !IsSampler(es[0]) && SamplersHaveHash(es[1..])
  }

  /** A hashTree after injection into it and, for its sampler, of it. */
  function InjectedHash(node: Element, hash: Element): Element {
    hash.(children := if IsSampler(node) then WithAssertion(Inject(hash.children)) else Inject(hash.children))
  }

  lemma InjectStep(es: seq<Element>)
    requires es != []
    ensures HasHash(es) ==> Inject(es) == [es[0], InjectedHash(es[0], es[1])] + Inject(es[2..])
    ensures !HasHash(es) && IsSampler(es[0]) ==>
      Inject(es) == [es[0], EmptyHash().(children := AssertionPair())] + Inject(es[1..])
    ensures !HasHash(es) && !IsSampler(es[0]) ==> Inject(es) == [es[0]] + Inject(es[1..])
  {}

  /** Injection touches no direct child but the pair it adds and hashTrees it makes. */
  lemma {:induction false} InjectKeepsOwn(es: seq<Element>)
    ensures OwnAssertions(Inject(es)) == OwnAssertions(es)
  {
    hide Inject;
    if es == [] {
      NothingInjected();
    } else {
      InjectStep(es);
      if HasHash(es) {
        InjectKeepsOwn(es[2..]);
        var hash := Inject(es)[1];
        CountConcat([es[0], hash], Inject(es[2..]), "JSR223Assertion", SAMPLE_NAME);
        CountConcat([es[0], es[1]], es[2..], "JSR223Assertion", SAMPLE_NAME);
        assert [es[0], es[1]] + es[2..] == es;
        PairOwn(es[0], es[1], hash);
      } else {
        InjectKeepsOwn(es[1..]);
        if IsSampler(es[0]) {
          var hash := EmptyHash().(children := AssertionPair());
          CountConcat([es[0], hash], Inject(es[1..]), "JSR223Assertion", SAMPLE_NAME);
          PairOwn(es[0], EmptyHash(), hash);
        }
      }
    }
  }

  lemma PairOwn(node: Element, hash: Element, hash': Element)
    requires IsHash(hash) && IsHash(hash')
    ensures OwnAssertions([node, hash]) == OwnAssertions([node, hash']) == if IsAssertion(node) then 1 else 0
  {
    NoOwnInHash(hash);
    NoOwnInHash(hash');
    assert [node, hash][1..] == [hash] && [node, hash'][1..] == [hash'];
  }

  lemma NoOwnInHash(hash: Element)
    requires IsHash(hash)
    ensures OwnAssertions([hash]) == 0
  {
    assert |hash.tag| == 8 && !IsAssertion(hash);
    var none: seq<Element> := [];
    assert [hash][1..] == none && OwnAssertions(none) == 0;
  }

  lemma NothingInjected()
    ensures Inject([]) == []
  {}

  /** The platform's assertion, switched on or not. */
  predicate IsPlatformAssertion(e: Element) {
    e.tag == "JSR223Assertion" && "testname" in e.attrs && e.attrs["testname"] == "平台错误请求采样"
  }

  /** A sampler's hashTree that holds the assertion is only injected into further down; any other gets
      it at its end, enabled and with an empty hashTree. */
  ghost predicate ScopeAsserted(was: seq<Element>, now: seq<Element>) {
    if exists e :: e in was && IsPlatformAssertion(e) then now == Inject(was)
    else
      exists x :: now == Inject(was) + [x, Element("hashTree", map[], None, [])] && IsPlatformAssertion(x)
        && "enabled" in x.attrs && x.attrs["enabled"] == "true" && "testclass" in x.attrs && x.attrs["testclass"] == "JSR223Assertion"
  }

  /** Every walked sampler ends up with exactly one assertion in its own hashTree, or with as many
      as it had when it already had some; no other sampler appears. */
  ghost predicate AllAsserted(a: seq<(Element, seq<Element>)>, b: seq<(Element, seq<Element>)>) {
    && |b| == |a|
    && forall i | 0 <= i < |a| ::
         && b[i].0 == a[i].0 && ScopeAsserted(a[i].1, b[i].1)
         && OwnAssertions(b[i].1) == if OwnAssertions(a[i].1) > 0 then OwnAssertions(a[i].1) else 1
  }

  lemma {:induction false} OwnIsPlatform(children: seq<Element>)
    ensures OwnAssertions(children) > 0 <==> exists e :: e in children && IsPlatformAssertion(e)
  {
    if children != [] {
      OwnIsPlatform(children[1..]);
      assert children == [children[0]] + children[1..];
      if exists e :: e in children && IsPlatformAssertion(e) {
        var e :| e in children && IsPlatformAssertion(e);
        assert e == children[0] || e in children[1..];
      }
      if IsAssertion(children[0]) {
        assert children[0] in children && IsPlatformAssertion(children[0]);
      }
    }
  }

  lemma WithAssertionAsserts(was: seq<Element>)
    ensures ScopeAsserted(was, WithAssertion(Inject(was)))
  {
    hide Inject, OwnAssertions;
    OwnIsPlatform(was);
    InjectKeepsOwn(was);
    assert IsPlatformAssertion(Assertion());
    assert AssertionPair() == [Assertion(), Element("hashTree", map[], None, [])];
  }

  lemma AssertedConcat(a: seq<(Element, seq<Element>)>, b: seq<(Element, seq<Element>)>,
                       c: seq<(Element, seq<Element>)>, d: seq<(Element, seq<Element>)>)
    requires AllAsserted(a, b) && AllAsserted(c, d)
    ensures AllAsserted(a + c, b + d)
  {
    hide OwnAssertions, ScopeAsserted;
    forall i | 0 <= i < |a + c|
      ensures (b + d)[i].0 == (a + c)[i].0 && ScopeAsserted((a + c)[i].1, (b + d)[i].1)
      ensures OwnAssertions((b + d)[i].1) == if OwnAssertions((a + c)[i].1) > 0 then OwnAssertions((a + c)[i].1) else 1
    {
      if i >= |a| {
        assert d[i - |a|].0 == c[i - |a|].0;
      }
    }
  }

  lemma OwnScope(es: seq<Element>)
    requires es != []
    ensures HasHash(es) ==>
      (SamplerScopes(es) == FirstScope(es[0], es[1].children) + SamplerScopes(es[1].children) + SamplerScopes(es[2..]))
    ensures !HasHash(es) ==> SamplerScopes(es) == FirstScope(es[0], []) + SamplerScopes(es[1..])
  {}

  function FirstScope(node: Element, own: seq<Element>): seq<(Element, seq<Element>)> {
    if IsSampler(node) then [(node, own)] else []
  }

  lemma AppendedOwn(children: seq<Element>)
    ensures OwnAssertions(children + AssertionPair()) == OwnAssertions(children) + 1
    ensures SamplerScopes(children + AssertionPair()) == SamplerScopes(children)
  {
    CountConcat(children, AssertionPair(), "JSR223Assertion", SAMPLE_NAME);
    PairOwn(Assertion(), EmptyHash(), EmptyHash());
    ScopesAppended(children);
  }

  lemma {:induction false} ScopesAppended(children: seq<Element>)
    ensures SamplerScopes(children + AssertionPair()) == SamplerScopes(children)
  {
    var all := children + AssertionPair();
    if children == [] {
      assert all == AssertionPair() && all[2..] == [] && all[1].children == [];
    } else if HasHash(children) {
      assert all[2..] == children[2..] + AssertionPair();
      ScopesAppended(children[2..]);
    } else {
      assert all[1..] == children[1..] + AssertionPair();
      ScopesAppended(children[1..]);
    }
  }

  lemma WithAssertionScopes(children: seq<Element>)
    ensures SamplerScopes(WithAssertion(children)) == SamplerScopes(children)
    ensures OwnAssertions(WithAssertion(children)) == if OwnAssertions(children) > 0 then OwnAssertions(children) else 1
  {
    AppendedOwn(children);
  }

  lemma AssertionPairScopes()
    ensures OwnAssertions(AssertionPair()) == 1 && SamplerScopes(AssertionPair()) == [] && OwnAssertions([]) == 0
  {
    AppendedOwn([]);
    assert [] + AssertionPair() == AssertionPair();
  }

  lemma PairAlone()
    ensures ScopeAsserted([], AssertionPair())
  {
    WithAssertionAsserts([]);
    NothingInjected();
    AssertionPairScopes();
    assert [] + AssertionPair() == AssertionPair();
  }

  lemma FirstAsserted(node: Element, own: seq<Element>, own': seq<Element>)
    requires IsSampler(node) ==> ScopeAsserted(own, own')
    requires IsSampler(node) ==> OwnAssertions(own') == if OwnAssertions(own) > 0 then OwnAssertions(own) else 1
    ensures AllAsserted(FirstScope(node, own), FirstScope(node, own'))
  {}

  lemma {:induction false} InjectAsserts(es: seq<Element>)
    ensures AllAsserted(SamplerScopes(es), SamplerScopes(Inject(es)))
    decreases es, 1
  {
    hide Inject, SamplerScopes, AllAsserted, WithAssertion;
    if es == [] {
      NothingAsserted();
    } else if HasHash(es) {
      PairAsserts(es);
    } else {
      SingleAsserts(es);
    }
  }

  lemma NothingAsserted()
    ensures AllAsserted(SamplerScopes([]), SamplerScopes(Inject([])))
  {}

  lemma PairAsserts(es: seq<Element>)
    requires HasHash(es)
    ensures AllAsserted(SamplerScopes(es), SamplerScopes(Inject(es)))
    decreases es, 0
  {
    hide Inject, SamplerScopes, AllAsserted, WithAssertion, OwnAssertions, ScopeAsserted;
    var own, inner, out := es[1].children, Inject(es[1].children), Inject(es);
    InjectStep(es);
    WithAssertionAsserts(own);
    InjectKeepsOwn(own);
    WithAssertionScopes(inner);
    assert HasHash(out) && out[0] == es[0] && out[2..] == Inject(es[2..]);
    OwnScope(es);
    OwnScope(out);
    InjectAsserts(own);
    InjectAsserts(es[2..]);
    FirstAsserted(es[0], own, out[1].children);
    AssertedConcat(FirstScope(es[0], own), FirstScope(es[0], out[1].children), SamplerScopes(own), SamplerScopes(inner));
    AssertedConcat(FirstScope(es[0], own) + SamplerScopes(own), FirstScope(es[0], out[1].children) + SamplerScopes(inner),
                   SamplerScopes(es[2..]), SamplerScopes(out[2..]));
  }

  lemma SingleAsserts(es: seq<Element>)
    requires es != [] && !HasHash(es)
    ensures AllAsserted(SamplerScopes(es), SamplerScopes(Inject(es)))
    decreases es, 0
  {
    hide Inject, SamplerScopes, AllAsserted, OwnAssertions, ScopeAsserted;
    var out := Inject(es);
    InjectStep(es);
    AssertionPairScopes();
    PairAlone();
    OwnScope(es);
    InjectAsserts(es[1..]);
    if IsSampler(es[0]) {
      assert HasHash(out) && out[2..] == Inject(es[1..]);
      OwnScope(out);
      assert FirstScope(es[0], AssertionPair()) + [] == FirstScope(es[0], AssertionPair());
      FirstAsserted(es[0], [], AssertionPair());
      AssertedConcat(FirstScope(es[0], []), FirstScope(es[0], AssertionPair()), SamplerScopes(es[1..]), SamplerScopes(out[2..]));
    } else {
      FirstStays(es);
      OwnScope(out);
      FirstAsserted(es[0], [], []);
      AssertedConcat(FirstScope(es[0], []), FirstScope(es[0], []), SamplerScopes(es[1..]), SamplerScopes(out[1..]));
    }
  }

  /** Injection starts with the same element. */
  lemma FirstStays(es: seq<Element>)
    requires es != [] && !HasHash(es) && !IsSampler(es[0])
    ensures var out := Inject(es); out != [] && out[0] == es[0] && !HasHash(out) && out[1..] == Inject(es[1..])
  {
    hide Inject;
    InjectStep(es);
    if |es| > 1 {
      InjectStep(es[1..]);
    } else {
      NothingInjected();
    }
  }

  // ----- pairing and idempotence ------------------------------------------------------------------------------------

  lemma PairedStep(es: seq<Element>)
    requires es != []
    ensures Paired(es) <==> !IsHash(es[0]) && if HasHash(es) then Paired(es[1].children) && Paired(es[2..]) else Paired(es[1..])
  {}

  lemma WithAssertionPaired(children: seq<Element>)
    requires Paired(children)
    ensures Paired(WithAssertion(children)) && Paired(AssertionPair())
  {
    var pair := AssertionPair();
    assert HasHash(pair) && pair[1].children == [] && pair[2..] == [];
    PairedConcat(children, pair);
  }

  lemma {:induction false} InjectKeepsPaired(es: seq<Element>)
    requires Paired(es)
    ensures Paired(Inject(es))
  {
    hide Inject, Paired, WithAssertion;
    if es == [] {
      NothingInjected();
      NothingPaired();
    } else {
      PairedStep(es);
      InjectStep(es);
      var out := Inject(es);
      if HasHash(es) {
        InjectKeepsPaired(es[1].children);
        InjectKeepsPaired(es[2..]);
        WithAssertionPaired(Inject(es[1].children));
        assert out[2..] == Inject(es[2..]);
      } else {
        InjectKeepsPaired(es[1..]);
        if IsSampler(es[0]) {
          NothingPaired();
          WithAssertionPaired([]);
          assert out[2..] == Inject(es[1..]);
        } else {
          FirstStays(es);
        }
      }
      PairedStep(out);
    }
  }

  lemma NothingPaired()
    ensures Paired([])
  {}

  /** What is appended at the end of a paired forest is injected into on its own. */
  lemma {:induction false} InjectAppended(es: seq<Element>)
    ensures Inject(es + AssertionPair()) == Inject(es) + AssertionPair()
  {
    hide Inject;
    var all, pair := es + AssertionPair(), AssertionPair();
    if es == [] {
      assert all == pair && HasHash(pair) && pair[2..] == [] && pair[1].children == [];
      InjectStep(pair);
      NothingInjected();
      assert pair[1].(children := []) == pair[1] && [pair[0], pair[1]] + [] == pair;
    } else {
      InjectStep(es);
      InjectStep(all);
      if HasHash(es) {
        assert all[2..] == es[2..] + pair;
        InjectAppended(es[2..]);
      } else {
        assert all[1..] == es[1..] + pair;
        InjectAppended(es[1..]);
      }
    }
  }

  lemma WithAssertionInjected(children: seq<Element>)
    requires Inject(children) == children
    ensures Inject(WithAssertion(children)) == WithAssertion(children)
    ensures OwnAssertions(WithAssertion(children)) > 0
  {
    InjectAppended(children);
    AppendedOwn(children);
  }

  /** A second injection changes nothing. */
  lemma {:induction false} InjectIdempotent(es: seq<Element>)
    ensures Inject(Inject(es)) == Inject(es)
  {
    hide Inject, OwnAssertions;
    if es == [] {
      NothingInjected();
    } else {
      InjectStep(es);
      var out := Inject(es);
      InjectStep(out);
      if HasHash(es) {
        InjectIdempotent(es[1].children);
        InjectIdempotent(es[2..]);
        WithAssertionInjected(Inject(es[1].children));
        assert out[2..] == Inject(es[2..]) && out[0] == es[0];
        assert InjectedHash(out[0], out[1]) == out[1];
      } else {
        InjectIdempotent(es[1..]);
        if IsSampler(es[0]) {
          NothingInjected();
          WithAssertionInjected([]);
          AssertionPairScopes();
          assert out[2..] == Inject(es[1..]);
          assert WithAssertion([]) == AssertionPair();
          assert InjectedHash(out[0], out[1]) == out[1];
        } else {
          FirstStays(es);
        }
      }
    }
  }

  // ----- undoing it ----------------------------------------------------------------------------------------------------

  /** The forest with an empty hashTree after every sampler that has none. */
  function Complete(es: seq<Element>): seq<Element> {
    if es == [] then []
    else if HasHash(es) then [es[0], es[1].(children := Complete(es[1].children))] + Complete(es[2..])
    else (if IsSampler(es[0]) then [es[0], EmptyHash()] else [es[0]]) + Complete(es[1..])
  }

  /** Only a missing hashTree makes a difference. */
  lemma {:induction false} CompleteChangesOnlyMissing(es: seq<Element>)
    requires Paired(es)
    ensures Complete(es) == es <==> SamplersHaveHash(es)
  {
    if es == [] {
    } else if HasHash(es) {
      CompleteChangesOnlyMissing(es[1].children);
      CompleteChangesOnlyMissing(es[2..]);
      var done := Complete(es);
      assert done[2..] == Complete(es[2..]) && done[1].children == Complete(es[1].children);
      assert es[1].(children := es[1].children) == es[1];
      assert [es[0], es[1]] + es[2..] == es;
    } else {
      CompleteChangesOnlyMissing(es[1..]);
      if IsSampler(es[0]) {
        assert IsHash(Complete(es)[1]) && |es| > 1 ==> !IsHash(es[1]);
      } else {
        assert Complete(es)[1..] == Complete(es[1..]);
        assert [es[0]] + es[1..] == es;
      }
    }
  }

  predicate NoAssertions(es: seq<Element>) { Count(es, "JSR223Assertion", SAMPLE_NAME) == 0 }

  function Erase(es: seq<Element>): seq<Element> { Remove(es, "JSR223Assertion", SAMPLE_NAME) }

  lemma {:induction false} EraseAppended(es: seq<Element>)
    ensures Erase(es + AssertionPair()) == Erase(es)
  {
    var all, pair := es + AssertionPair(), AssertionPair();
    if es == [] {
      assert all == pair && HasHash(pair) && pair[2..] == [];
    } else if IsAssertion(es[0]) {
      if HasHash(es) {
        assert all[2..] == es[2..] + pair;
        EraseAppended(es[2..]);
      } else {
        assert all[1..] == es[1..] + pair;
        EraseAppended(es[1..]);
      }
    } else {
      assert all[1..] == es[1..] + pair;
      EraseAppended(es[1..]);
    }
  }

  lemma EraseKeptNode(es: seq<Element>)
    requires es != [] && !IsAssertion(es[0])
    ensures Erase(es) == [es[0].(children := Erase(es[0].children))] + Erase(es[1..])
  {}

  lemma CleanNode(es: seq<Element>)
    requires es != [] && NoAssertions(es)
    ensures !IsAssertion(es[0]) && NoAssertions(es[0].children) && NoAssertions(es[1..])
    ensures es[0].(children := Erase(es[0].children)) == es[0]
    ensures OwnAssertions(es) == 0
  {
    CountStep(es, "JSR223Assertion", SAMPLE_NAME);
    RemoveNothing(es[0].children, "JSR223Assertion", SAMPLE_NAME);
    OwnAtMostAll(es);
  }

  lemma {:induction false} OwnAtMostAll(es: seq<Element>)
    ensures OwnAssertions(es) <= Count(es, "JSR223Assertion", SAMPLE_NAME)
  {
    hide Count;
    if es != [] {
      CountStep(es, "JSR223Assertion", SAMPLE_NAME);
      OwnAtMostAll(es[1..]);
    }
  }

  lemma EraseInjectedHash(node: Element, hash: Element)
    requires NoAssertions(hash.children)
    ensures Erase(InjectedHash(node, hash).children) == Erase(Inject(hash.children))
  {
    hide Inject, Erase;
    EraseAppended(Inject(hash.children));
  }

  /** Erasing the platform's assertions gives the forest back, completed with the hashTrees the
      injection made. */
  lemma {:induction false} EraseUndoesInjection(es: seq<Element>)
    requires NoAssertions(es)
    ensures Erase(Inject(es)) == Complete(es)
  {
    hide Inject, Erase, NoAssertions;
    if es == [] {
      NothingErased();
    } else {
      CleanNode(es);
      InjectStep(es);
      var out := Inject(es);
      if HasHash(es) {
        CleanNode(es[1..]);
        assert es[1..][0] == es[1] && es[1..][1..] == es[2..];
        EraseUndoesInjection(es[1].children);
        EraseUndoesInjection(es[2..]);
        EraseInjectedHash(es[0], es[1]);
        EraseKeptNode(out);
        EraseKeptNode(out[1..]);
        assert out[1..][1..] == Inject(es[2..]);
      } else {
        EraseUndoesInjection(es[1..]);
        EraseKeptNode(out);
        if IsSampler(es[0]) {
          EraseKeptNode(out[1..]);
          assert out[1..][1..] == Inject(es[1..]);
          EraseAppended([]);
          NothingErased();
          assert [] + AssertionPair() == AssertionPair();
        } else {
          FirstStays(es);
        }
      }
    }
  }

  lemma NothingErased()
    ensures Erase([]) == [] && Inject([]) == [] && Complete([]) == []
  {}

  // ----- legacy listeners and the whole pass -------------------------------------------------------------------------

  /** `apply_error_sample_listener` on the root hashTree. */
  function ApplyErrorSamples(es: seq<Element>): seq<Element> {
    Inject(Remove(es, "JSR223Listener", SAMPLE_NAME))
  }

  /** The pass keeps the pairing, leaves no legacy listener, gives every sampler its assertion and,
      done again, changes nothing; erasing the assertions gives the forest without its legacy
      listeners back, up to hashTrees for samplers that had none. */
  lemma ErrorSamplesApplied(es: seq<Element>)
    requires Paired(es)
    ensures
      var clean, out := Remove(es, "JSR223Listener", SAMPLE_NAME), ApplyErrorSamples(es);
      && Paired(out)
      && Count(out, "JSR223Listener", SAMPLE_NAME) == 0
      && AllAsserted(SamplerScopes(clean), SamplerScopes(out))
      && ApplyErrorSamples(out) == out
      && (NoAssertions(clean) ==> Erase(out) == Complete(clean))
      && (NoAssertions(clean) && SamplersHaveHash(clean) ==> Erase(out) == clean)
  {
    hide Inject, Remove, Paired, AllAsserted, SamplerScopes, Erase, NoAssertions, SamplersHaveHash, Count;
    var clean := Remove(es, "JSR223Listener", SAMPLE_NAME);
    RemoveKeepsPaired(es, "JSR223Listener", SAMPLE_NAME);
    RemoveLeavesNone(es, "JSR223Listener", SAMPLE_NAME);
    InjectKeepsPaired(clean);
    InjectAsserts(clean);
    InjectAddsNoListener(clean);
    RemoveNothing(Inject(clean), "JSR223Listener", SAMPLE_NAME);
    InjectIdempotent(clean);
    if NoAssertions(clean) {
      EraseUndoesInjection(clean);
      CompleteChangesOnlyMissing(clean);
    }
  }

  lemma {:induction false} InjectAddsNoListener(es: seq<Element>)
    ensures Count(Inject(es), "JSR223Listener", SAMPLE_NAME) == Count(es, "JSR223Listener", SAMPLE_NAME)
  {
    hide Inject, Count, WithAssertion;
    if es == [] {
      NothingInjected();
    } else {
      InjectStep(es);
      CountStep(es, "JSR223Listener", SAMPLE_NAME);
      var out := Inject(es);
      CountStep(out, "JSR223Listener", SAMPLE_NAME);
      if HasHash(es) {
        CountStep(es[1..], "JSR223Listener", SAMPLE_NAME);
        CountStep(out[1..], "JSR223Listener", SAMPLE_NAME);
        InjectAddsNoListener(es[1].children);
        InjectAddsNoListener(es[2..]);
        WithAssertionAddsNone(Inject(es[1].children));
        assert out[1..][1..] == Inject(es[2..]) && es[1..][1..] == es[2..];
      } else {
        InjectAddsNoListener(es[1..]);
        if IsSampler(es[0]) {
          CountStep(out[1..], "JSR223Listener", SAMPLE_NAME);
          assert out[1..][1..] == Inject(es[1..]);
          WithAssertionAddsNone([]);
          AssertionPairScopes();
          NothingCounted("JSR223Listener", SAMPLE_NAME);
          assert WithAssertion([]) == AssertionPair();
        }
      }
    }
  }

  lemma WithAssertionAddsNone(children: seq<Element>)
    ensures Count(WithAssertion(children), "JSR223Listener", SAMPLE_NAME) == Count(children, "JSR223Listener", SAMPLE_NAME)
    ensures OwnAssertions([]) == 0 ==> WithAssertion([]) == AssertionPair()
  {
    CountSplit(children, AssertionPair(), "JSR223Listener", SAMPLE_NAME);
    assert [] + AssertionPair() == AssertionPair();
  }

  // ----- which samplers, and what removal takes ------------------------------------------------------------------------

  /** The samplers among the walked pairs, each with the contents of its hashTree. */
  function SamplersAmong(pairs: seq<Pair>): seq<(Element, seq<Element>)> {
    if pairs == [] then []
    else
      var p := pairs[0];
      (if p.node.tag == "HTTPSamplerProxy" then [(p.node, if p.hash.Some? then p.hash.value.children else [])] else []) +
      SamplersAmong(pairs[1..])
  }

  lemma SamplersStep(pairs: seq<Pair>)
    requires pairs != []
    ensures SamplersAmong(pairs) == SamplersAmong([pairs[0]]) + SamplersAmong(pairs[1..])
  {
    assert [pairs[0]][1..] == [];
  }

  lemma {:induction false} SamplersConcat(a: seq<Pair>, b: seq<Pair>)
    ensures SamplersAmong(a + b) == SamplersAmong(a) + SamplersAmong(b)
  {
    if a == [] {
      assert a + b == b;
    } else {
      hide SamplersAmong;
      var first := SamplersAmong([a[0]]);
      SamplersStep(a);
      SamplersStep(a + b);
      assert (a + b)[0] == a[0] && (a + b)[1..] == a[1..] + b;
      SamplersConcat(a[1..], b);
      assert first + (SamplersAmong(a[1..]) + SamplersAmong(b)) == first + SamplersAmong(a[1..]) + SamplersAmong(b);
    }
  }

  /** The samplers asserted are the HTTP samplers of the walk, in its order. */
  lemma {:induction false} ScopesAreWalked(es: seq<Element>)
    ensures SamplerScopes(es) == SamplersAmong(Walk(es))
  {
    if es != [] {
      hide SamplersAmong;
      OwnScope(es);
      var hash := if HasHash(es) then Some(es[1]) else None;
      OneSampler(Pair(es[0], hash));
      if HasHash(es) {
        ScopesAreWalked(es[1].children);
        ScopesAreWalked(es[2..]);
        SamplersConcat([Pair(es[0], hash)] + Walk(es[1].children), Walk(es[2..]));
        SamplersConcat([Pair(es[0], hash)], Walk(es[1].children));
      } else {
        ScopesAreWalked(es[1..]);
        SamplersConcat([Pair(es[0], hash)], Walk(es[1..]));
      }
    } else {
      assert Walk(es) == [];
    }
  }

  lemma OneSampler(p: Pair)
    ensures SamplersAmong([p]) == FirstScope(p.node, if p.hash.Some? then p.hash.value.children else [])
  {
    assert [p][1..] == [];
  }

  function RemovedIn(p: Pair, tag: string, name: string): Pair {
    Pair(p.node.(children := Remove(p.node.children, tag, name)),
         if p.hash.Some? then Some(p.hash.value.(children := Remove(p.hash.value.children, tag, name))) else None)
  }

  /** The pairs of other nodes, removed from further down. */
  function OtherPairs(pairs: seq<Pair>, tag: string, name: string): seq<Pair> {
    if pairs == [] then []
    else
      (if pairs[0].node.tag == tag && "testname" in pairs[0].node.attrs && pairs[0].node.attrs["testname"] == name then []
       else [RemovedIn(pairs[0], tag, name)]) + OtherPairs(pairs[1..], tag, name)
  }

  /** Removal takes the named nodes with their hashTrees, and keeps every other pair in its order; no
      property of a node and no hashTree bears the name. */
  lemma {:induction false} RemoveTakesNamedPairs(es: seq<Element>, tag: string, name: string)
    requires Paired(es) && tag != "hashTree"
    ensures Pairs(Remove(es, tag, name)) == OtherPairs(Pairs(es), tag, name)
  {
    if es != [] {
      hide Remove, Paired;
      PairedStep(es);
      if HasHash(es) {
        RemoveTakesNamedPairs(es[2..], tag, name);
        assert Pairs(es)[1..] == Pairs(es[2..]);
        PairRemoved(es, tag, name);
      } else {
        RemoveTakesNamedPairs(es[1..], tag, name);
        assert Pairs(es)[1..] == Pairs(es[1..]);
        SingleRemoved(es, tag, name);
      }
    } else {
      assert Remove(es, tag, name) == [];
    }
  }

  lemma PairRemoved(es: seq<Element>, tag: string, name: string)
    requires HasHash(es) && tag != "hashTree"
    ensures Pairs(Remove(es, tag, name)) ==
      (if Named(es[0], tag, name) then [] else [RemovedIn(Pair(es[0], Some(es[1])), tag, name)]) + Pairs(Remove(es[2..], tag, name))
  {
    if !Named(es[0], tag, name) {
      RemovePair(es, tag, name);
      var out := Remove(es, tag, name);
      assert es[1..][0] == es[1];
      assert out == [es[0].(children := Remove(es[0].children, tag, name))] + Remove(es[1..], tag, name);
      assert out[1] == es[1].(children := Remove(es[1].children, tag, name));
    }
  }

  lemma SingleRemoved(es: seq<Element>, tag: string, name: string)
    requires es != [] && Paired(es) && !HasHash(es)
    ensures Pairs(Remove(es, tag, name)) ==
      (if Named(es[0], tag, name) then [] else [RemovedIn(Pair(es[0], None), tag, name)]) + Pairs(Remove(es[1..], tag, name))
  {
    if !Named(es[0], tag, name) {
      RemoveSingle(es, tag, name);
    }
  }
}
