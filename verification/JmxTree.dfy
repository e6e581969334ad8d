/** JMeter plans as trees: a plan is a flat list of node and hashTree pairs, nested through the
    hashTrees, while a node's own children are its properties. A forest is the child list of one
    element. */
module JmxTree {
  import opened Options

  datatype Element = Element(tag: string, attrs: map<string, string>, text: Option<string>, children: seq<Element>)

  function Attr(e: Element, name: string): Option<string> { if name in e.attrs then Some(e.attrs[name]) else None }

  /** `el.get(name) or ""`. */
  function AttrOrEmpty(e: Element, name: string): string { if name in e.attrs then e.attrs[name] else "" }

  predicate IsHash(e: Element) { e.tag == "hashTree" }

  /** `is_enabled`. */
  predicate IsEnabled(e: Element) { Attr(e, "enabled") != Some("false") }

  function EmptyHash(): Element { Element("hashTree", map[], None, []) }

  /** Document order: every element before its children, and those before its next sibling. */
  function Iter(es: seq<Element>): seq<Element> {
    if es == [] then [] else [es[0]] + Iter(es[0].children) + Iter(es[1..])
  }

  lemma {:induction false} IterConcat(a: seq<Element>, b: seq<Element>)
    ensures Iter(a + b) == Iter(a) + Iter(b)
  {
    if a == [] {
      assert a + b == b;
    } else {
      assert (a + b)[1..] == a[1..] + b;
      IterConcat(a[1..], b);
    }
  }

  // ----- pairs -------------------------------------------------------------------------------------------

  datatype Pair = Pair(node: Element, hash: Option<Element>)

  /** The first node has a hashTree right after it. */
  predicate HasHash(es: seq<Element>) { |es| > 1 && IsHash(es[1]) }

  function Pairs(es: seq<Element>): seq<Pair> {
    if es == [] then []
    else if HasHash(es) then [Pair(es[0], Some(es[1]))] + Pairs(es[2..])
    else [Pair(es[0], None)] + Pairs(es[1..])
  }

  function Unpaired(pairs: seq<Pair>): seq<Element> {
    if pairs == [] then []
    else [pairs[0].node] + (if pairs[0].hash.Some? then [pairs[0].hash.value] else []) + Unpaired(pairs[1..])
  }

  /** The pairs are the children in their order, a hashTree with the node before it; a node stays alone
      only when what follows is no hashTree. */
  lemma {:induction false} PairsTell(es: seq<Element>)
    ensures Unpaired(Pairs(es)) == es
    ensures forall p | p in Pairs(es) && p.hash.Some? :: p.hash.value.tag == "hashTree"
    ensures forall i | 0 <= i < |Pairs(es)| - 1 && Pairs(es)[i].hash.None? :: Pairs(es)[i + 1].node.tag != "hashTree"
  {
    if es != [] {
      var rest := if HasHash(es) then es[2..] else es[1..];
      var first := if HasHash(es) then Pair(es[0], Some(es[1])) else Pair(es[0], None);
      PairsTell(rest);
      assert Pairs(es) == [first] + Pairs(rest) && Pairs(es)[1..] == Pairs(rest);
      assert forall i | 0 < i < |Pairs(es)| :: Pairs(es)[i] == Pairs(rest)[i - 1];
      if |Pairs(rest)| > 0 && first.hash.None? {
        assert Pairs(rest)[0].node == rest[0];
      }
    }
  }

  /** `pairs_in_hash_tree`. */
  method PairsInHashTree(children: seq<Element>) returns (pairs: seq<Pair>)
    ensures pairs == Pairs(children)
  {
    pairs := [];
    var index := 0;
    while index < |children|
      invariant 0 <= index <= |children|
      invariant Pairs(children) == pairs + Pairs(children[index..])
    {
      var rest := children[index..];
      if index + 1 < |children| && children[index + 1].tag == "hashTree" {
        assert HasHash(rest) && rest[2..] == children[index + 2..];
        pairs := pairs + [Pair(children[index], Some(children[index + 1]))];
        index := index + 2;
      } else {
        assert !HasHash(rest) && rest[1..] == children[index + 1..];
        pairs := pairs + [Pair(children[index], None)];
        index := index + 1;
      }
    }
  }

  /** `walk_jmeter_pairs`: the pairs of a forest, each followed by those inside its hashTree. */
  function Walk(es: seq<Element>): seq<Pair> {
    if es == [] then []
    else if HasHash(es) then [Pair(es[0], Some(es[1]))] + Walk(es[1].children) + Walk(es[2..])
    else [Pair(es[0], None)] + Walk(es[1..])
  }

  /** Every hashTree directly follows a node. */
  predicate Paired(es: seq<Element>) {
    es == [] ||
    (!IsHash(es[0]) && if HasHash(es) then Paired(es[1].children) && Paired(es[2..]) else Paired(es[1..]))
  }

  lemma {:induction false} PairedConcat(a: seq<Element>, b: seq<Element>)
    requires Paired(a) && Paired(b)
    ensures Paired(a + b)
  {
    if a == [] {
      assert a + b == b;
    } else if HasHash(a) {
      assert (a + b)[2..] == a[2..] + b;
      PairedConcat(a[2..], b);
    } else {
      assert (a + b)[1..] == a[1..] + b;
      PairedConcat(a[1..], b);
    }
  }

  // ----- elements by tag and name --------------------------------------------------------------------------

  predicate Named(e: Element, tag: string, name: string) { e.tag == tag && Attr(e, "testname") == Some(name) }

  /** How many elements of the list carry this tag and testname. */
  function CountNamed(es: seq<Element>, tag: string, name: string): nat {
    if es == [] then 0 else (if Named(es[0], tag, name) then 1 else 0) + CountNamed(es[1..], tag, name)
  }

  lemma {:induction false} CountConcat(a: seq<Element>, b: seq<Element>, tag: string, name: string)
    ensures CountNamed(a + b, tag, name) == CountNamed(a, tag, name) + CountNamed(b, tag, name)
  {
    if a == [] {
      assert a + b == b;
    } else {
      assert (a + b)[1..] == a[1..] + b;
      CountConcat(a[1..], b, tag, name);
    }
  }
}
