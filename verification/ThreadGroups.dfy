/** Thread groups of a plan: how they are told, numbered and listed, in document order and along
    the pair walk. */
module ThreadGroups {
  import opened Options
  import opened Decimals
  import opened JmxTree

  const STEPPING_TG := "kg.apc.jmeter.threads.SteppingThreadGroup"
  const CONCURRENCY_TG := "com.blazemeter.jmeter.threads.concurrency.ConcurrencyThreadGroup"

  /** `thread_group_type`. */
  function ThreadGroupType(e: Element): (t: Option<string>)
    ensures t.Some? ==> t.value in GroupTypes() && !IsHash(e)
  {
    if e.tag == "ThreadGroup" && Attr(e, "testclass") == Some("ThreadGroup") then Some("thread_group")
    else if e.tag == STEPPING_TG then Some("stepping_thread_group")
    else if e.tag == CONCURRENCY_TG then Some("concurrency_thread_group")
    else None
  }

  function GroupTypes(): set<string> { {"thread_group", "stepping_thread_group", "concurrency_thread_group"} }

  predicate IsGroup(e: Element) { ThreadGroupType(e).Some? }

  /** The three kinds of group, by tag, an ordinary one by its test class too. */
  lemma GroupsByTag(e: Element)
    ensures ThreadGroupType(e) == Some("thread_group") <==>
      e.tag == "ThreadGroup" && "testclass" in e.attrs && e.attrs["testclass"] == "ThreadGroup"
    ensures ThreadGroupType(e) == Some("stepping_thread_group") <==> e.tag == "kg.apc.jmeter.threads.SteppingThreadGroup"
    ensures ThreadGroupType(e) == Some("concurrency_thread_group") <==>
      e.tag == "com.blazemeter.jmeter.threads.concurrency.ConcurrencyThreadGroup"
    ensures ThreadGroupType(e).Some? ==> ThreadGroupType(e).value in {"thread_group", "stepping_thread_group", "concurrency_thread_group"}
  {}

  /** `thread_group_key` of the index-th group. */
  function Key(groupType: string, index: nat): string { groupType + ":" + Decimal(index) }

  /** It is the type, a colon and the number. */
  lemma KeyReads(t: string, i: nat)
    ensures
      var key := Key(t, i);
      |key| > |t| + 1 && key[..|t|] == t && key[|t|] == ':' && IsNumeral(key[|t| + 1..]) && Value(key[|t| + 1..]) == i
  {
    DecimalIsNumeral(i);
    ValueOfDecimal(i);
    assert Key(t, i)[|t| + 1..] == Decimal(i);
  }

  /** A key names one type and one number. */
  lemma KeyNamesOne(t: string, i: nat, t': string, i': nat)
    requires t in GroupTypes() && t' in GroupTypes() && Key(t, i) == Key(t', i')
    ensures t == t' && i == i'
  {
    assert Key(t, i)[0] == t[0] && Key(t', i')[0] == t'[0];
    assert Key(t, i)[|t| + 1..] == Decimal(i) && Key(t', i')[|t'| + 1..] == Decimal(i');
    ValueOfDecimal(i);
    ValueOfDecimal(i');
  }

  // ----- the groups of a forest ------------------------------------------------------------------------------

  predicate AllGroups(es: seq<Element>) { forall g | g in es :: IsGroup(g) }

  /** The thread groups of a list, in its order. */
  function GroupsOf(es: seq<Element>): (groups: seq<Element>)
    ensures AllGroups(groups)
  {
    if es == [] then [] else (if IsGroup(es[0]) then [es[0]] else []) + GroupsOf(es[1..])
  }

  lemma {:induction false} GroupsOfConcat(a: seq<Element>, b: seq<Element>)
    ensures GroupsOf(a + b) == GroupsOf(a) + GroupsOf(b)
  {
    if a == [] {
      assert a + b == b;
    } else {
      assert (a + b)[1..] == a[1..] + b;
      GroupsOfConcat(a[1..], b);
    }
  }

  /** The groups `tree.iter()` meets. */
  function DocGroups(es: seq<Element>): seq<Element> { GroupsOf(Iter(es)) }

  lemma DocGroupsStep(es: seq<Element>)
    requires es != []
    ensures DocGroups(es) == GroupsOf([es[0]]) + DocGroups(es[0].children) + DocGroups(es[1..])
  {
    GroupsOfConcat([es[0]] + Iter(es[0].children), Iter(es[1..]));
    GroupsOfConcat([es[0]], Iter(es[0].children));
  }

  lemma {:induction false} DocGroupsConcat(a: seq<Element>, b: seq<Element>)
    ensures DocGroups(a + b) == DocGroups(a) + DocGroups(b)
  {
    IterConcat(a, b);
    GroupsOfConcat(Iter(a), Iter(b));
  }

  /** The pairs of the walk whose node is a group. */
  function GroupPairs(pairs: seq<Pair>): seq<Pair> {
    if pairs == [] then [] else (if IsGroup(pairs[0].node) then [pairs[0]] else []) + GroupPairs(pairs[1..])
  }

  lemma {:induction false} GroupPairsConcat(a: seq<Pair>, b: seq<Pair>)
    ensures GroupPairs(a + b) == GroupPairs(a) + GroupPairs(b)
  {
    if a == [] {
      assert a + b == b;
    } else {
      assert (a + b)[1..] == a[1..] + b;
      GroupPairsConcat(a[1..], b);
    }
  }

  function Scopes(es: seq<Element>): seq<Pair> { GroupPairs(Walk(es)) }

  function GroupScope(es: seq<Element>): (own: seq<Pair>)
    requires es != []
  {
    if !IsGroup(es[0]) then [] else [Pair(es[0], if HasHash(es) then Some(es[1]) else None)]
  }

  /** The walk's groups, one pair at a time. */
  lemma ScopesStep(es: seq<Element>)
    requires es != []
    ensures HasHash(es) ==> Scopes(es) == GroupScope(es) + Scopes(es[1].children) + Scopes(es[2..])
    ensures !HasHash(es) ==> Scopes(es) == GroupScope(es) + Scopes(es[1..])
  {
    if HasHash(es) {
      GroupPairsConcat([Pair(es[0], Some(es[1]))] + Walk(es[1].children), Walk(es[2..]));
      GroupPairsConcat([Pair(es[0], Some(es[1]))], Walk(es[1].children));
    } else {
      GroupPairsConcat([Pair(es[0], None)], Walk(es[1..]));
    }
  }

  /** No group sits among the properties of a node. */
  predicate GroupsInPairs(es: seq<Element>) {
    es == [] ||
    (DocGroups(es[0].children) == [] &&
     if HasHash(es) then GroupsInPairs(es[1].children) && GroupsInPairs(es[2..]) else GroupsInPairs(es[1..]))
  }

  predicate WellFormed(es: seq<Element>) { Paired(es) && GroupsInPairs(es) }

  lemma WellFormedParts(es: seq<Element>)
    requires WellFormed(es) && es != []
    ensures !IsHash(es[0]) && DocGroups(es[0].children) == []
    ensures if HasHash(es) then WellFormed(es[1].children) && WellFormed(es[2..]) else WellFormed(es[1..])
  {}

  lemma WellFormedWhole(es: seq<Element>)
    requires es != [] && !IsHash(es[0]) && DocGroups(es[0].children) == []
    requires if HasHash(es) then WellFormed(es[1].children) && WellFormed(es[2..]) else WellFormed(es[1..])
    ensures WellFormed(es)
  {}

  function NodesOf(pairs: seq<Pair>): seq<Element> { seq(|pairs|, i requires 0 <= i < |pairs| => pairs[i].node) }

  /** The document order of a well-formed forest, one pair at a time. */
  lemma DocGroupsPair(es: seq<Element>)
    requires WellFormed(es) && es != []
    ensures HasHash(es) ==> WellFormed(es[1].children) && WellFormed(es[2..])
    ensures HasHash(es) ==> DocGroups(es) == GroupsOf([es[0]]) + DocGroups(es[1].children) + DocGroups(es[2..])
    ensures !HasHash(es) ==> WellFormed(es[1..]) && DocGroups(es) == GroupsOf([es[0]]) + DocGroups(es[1..])
  {
    hide DocGroups;
    DocGroupsStep(es);
    if HasHash(es) {
      DocGroupsStep(es[1..]);
      HashIsNoGroup(es[1]);
      assert es[1..][1..] == es[2..];
    }
  }

  lemma NodesOfStep(es: seq<Element>)
    requires es != []
    ensures NodesOf(GroupScope(es)) == GroupsOf([es[0]])
  {}

  lemma NodesOfConcat(a: seq<Pair>, b: seq<Pair>)
    ensures NodesOf(a + b) == NodesOf(a) + NodesOf(b)
  {}

  /** On a well-formed forest the document order and the walk meet the same groups in the same
      order. */
  lemma {:induction false} OrdersAgree(es: seq<Element>)
    requires WellFormed(es)
    ensures DocGroups(es) == NodesOf(Scopes(es))
  {
    if es == [] {
    } else {
      hide DocGroups, Scopes, NodesOf, GroupScope, WellFormed;
      DocGroupsPair(es);
      ScopesStep(es);
      NodesOfStep(es);
      if HasHash(es) {
        OrdersAgree(es[1].children);
        OrdersAgree(es[2..]);
        NodesOfConcat(GroupScope(es), Scopes(es[1].children));
        NodesOfConcat(GroupScope(es) + Scopes(es[1].children), Scopes(es[2..]));
      } else {
        OrdersAgree(es[1..]);
        NodesOfConcat(GroupScope(es), Scopes(es[1..]));
      }
    }
  }

  lemma HashIsNoGroup(e: Element)
    requires IsHash(e)
    ensures GroupsOf([e]) == []
  {}

  /** Without the pairing they need not: a group in a hashTree that follows no node is met in
      document order only. */
  lemma UnpairedOrdersDiffer(group: Element)
    requires IsGroup(group) && DocGroups(group.children) == []
    ensures
      var es := [Element("hashTree", map[], None, [group])];
      !Paired(es) && DocGroups(es) == [group] && Scopes(es) == []
  {
    var es := [Element("hashTree", map[], None, [group])];
    DocGroupsStep(es);
    DocGroupsStep([group]);
    ScopesStep(es);
  }

  // ----- listing ------------------------------------------------------------------------------------------------

  /** What the listing shows of the index-th group. */
  datatype GroupInfo = GroupInfo(key: string, name: string, groupType: string, enabled: bool)

  function InfoOf(g: Element, index: nat): GroupInfo
    requires IsGroup(g)
  {
    GroupInfo(Key(ThreadGroupType(g).value, index), AttrOrEmpty(g, "testname"), ThreadGroupType(g).value, IsEnabled(g))
  }

  /** The row shows the group's own key, name, type and state. */
  predicate Shows(info: GroupInfo, g: Element, index: nat) {
    && ThreadGroupType(g) == Some(info.groupType) && info.key == Key(info.groupType, index)
    && info.name == (if "testname" in g.attrs then g.attrs["testname"] else "")
    && info.enabled == !("enabled" in g.attrs && g.attrs["enabled"] == "false")
  }

  lemma InfoShows(g: Element, index: nat)
    requires IsGroup(g)
    ensures Shows(InfoOf(g, index), g, index)
  {}

  /** `list_thread_groups`, over the document order of the whole tree. */
  method ListThreadGroups(elements: seq<Element>) returns (groups: seq<GroupInfo>)
    ensures |groups| == |GroupsOf(elements)|
    ensures forall i | 0 <= i < |groups| :: groups[i] == InfoOf(GroupsOf(elements)[i], i)
    ensures forall i | 0 <= i < |groups| :: Shows(groups[i], GroupsOf(elements)[i], i)
  {
    groups := [];
    for k := 0 to |elements|
      invariant |groups| == |GroupsOf(elements[..k])|
      invariant forall i | 0 <= i < |groups| :: groups[i] == InfoOf(GroupsOf(elements[..k])[i], i)
    {
      var el := elements[k];
      assert elements[..k + 1] == elements[..k] + [el];
      GroupsOfConcat(elements[..k], [el]);
      if IsGroup(el) {
        groups := groups + [InfoOf(el, |groups|)];
      }
    }
    assert elements[..|elements|] == elements;
    forall i | 0 <= i < |groups|
      ensures Shows(groups[i], GroupsOf(elements)[i], i)
    {
      InfoShows(GroupsOf(elements)[i], i);
    }
  }

  // ----- whole plans --------------------------------------------------------------------------------------------

  /** `root.find("hashTree")`: the first hashTree among the children. */
  function FirstHash(es: seq<Element>): (k: Option<nat>)
    ensures k.Some? ==> k.value < |es| && IsHash(es[k.value])
  {
    if es == [] then None
    else if IsHash(es[0]) then Some(0)
    else match FirstHash(es[1..]) case None => None case Some(k) => Some(k + 1)
  }

  /** It is the first one, and None means there is none. */
  lemma {:induction false} FirstHashIsFirst(es: seq<Element>)
    ensures forall j | 0 <= j < |es| && (FirstHash(es).Some? ==> j < FirstHash(es).value) :: es[j].tag != "hashTree"
  {
    if es != [] && !IsHash(es[0]) {
      FirstHashIsFirst(es[1..]);
      assert forall j | 0 < j < |es| :: es[j] == es[1..][j - 1];
    }
  }

  function RootHash(root: Element): Option<nat> { FirstHash(root.children) }

  /** The plan with another child list in its root hashTree. */
  function WithRootHash(root: Element, children: seq<Element>): Element
    requires RootHash(root).Some?
  {
    var k := RootHash(root).value;
    root.(children := root.children[k := root.children[k].(children := children)])
  }

  /** All groups of the plan sit in its root hashTree, which is well formed. */
  predicate PlanOk(root: Element) {
    && !IsGroup(root) && RootHash(root).Some?
    && DocGroups(root.children[..RootHash(root).value]) == []
    && DocGroups(root.children[RootHash(root).value + 1..]) == []
    && WellFormed(root.children[RootHash(root).value].children)
  }

  function RootForest(root: Element): seq<Element>
    requires RootHash(root).Some?
  {
    root.children[RootHash(root).value].children
  }

  lemma {:induction false} FirstHashKept(es: seq<Element>, e: Element)
    requires FirstHash(es).Some? && IsHash(e)
    ensures FirstHash(es[FirstHash(es).value := e]) == FirstHash(es)
  {
    if !IsHash(es[0]) {
      FirstHashKept(es[1..], e);
      var k := FirstHash(es).value;
      assert es[k := e][1..] == es[1..][k - 1 := e];
    }
  }

  /** The groups of a plan are those of its root hashTree. */
  lemma PlanGroups(root: Element)
    requires PlanOk(root)
    ensures DocGroups([root]) == DocGroups(RootForest(root))
  {
    var k := RootHash(root).value;
    var before, hash, after := root.children[..k], root.children[k], root.children[k + 1..];
    DocGroupsStep([root]);
    assert root.children == before + ([hash] + after);
    DocGroupsConcat(before, [hash] + after);
    DocGroupsConcat([hash], after);
    DocGroupsStep([hash]);
  }

  /** Rewriting the root hashTree keeps the plan in shape. */
  lemma PlanRewritten(root: Element, children: seq<Element>)
    requires PlanOk(root) && WellFormed(children)
    ensures PlanOk(WithRootHash(root, children)) && RootForest(WithRootHash(root, children)) == children
  {
    var k := RootHash(root).value;
    var root' := WithRootHash(root, children);
    FirstHashKept(root.children, root.children[k].(children := children));
    assert root'.children[..k] == root.children[..k] && root'.children[k + 1..] == root.children[k + 1..];
  }
}
