/** The thread group settings a run overrides, and how they are looked up. */
module RunOverrides {
  import opened Options
  import opened JmxTree
  import opened ThreadGroups

  /** `ThreadGroupRunOverride`; an absent text is empty, as both are falsy. */
  datatype Override = Override(
    key: string, name: string, enabled: Option<bool>, mode: string,
    numThreads: string, rampTime: string, pacingMs: int)

  /** ASCII white space. */
  predicate IsSpace(c: char) { c == ' ' || '\t' <= c <= '\r' || 0x1C <= c as int <= 0x1F }

  function StripLeft(s: string): string {
    if s != "" && IsSpace(s[0]) then StripLeft(s[1..]) else s
  }

  function StripRight(s: string): string {
    if s != "" && IsSpace(s[|s| - 1]) then StripRight(s[..|s| - 1]) else s
  }

  function Strip(s: string): string { StripRight(StripLeft(s)) }

  /** `_override_key` and `_transaction_config_key`. */
  function OverrideKey(o: Override): string { Strip(if o.key != "" then o.key else o.name) }

  /** The overrides under their keys, a later one replacing an earlier one. */
  function ByKey(items: seq<Override>): map<string, Override> {
    if items == [] then map[]
    else
      var earlier, o := ByKey(items[..|items| - 1]), items[|items| - 1];
      if OverrideKey(o) != "" then earlier[OverrideKey(o) := o] else earlier
  }

  /** The i-th override is the last one with its key. */
  ghost predicate IsLast(items: seq<Override>, i: nat, key: string)
    requires i < |items|
  {
    OverrideKey(items[i]) == key && forall j | i < j < |items| :: OverrideKey(items[j]) != key
  }

  /** What lies under a key is the last override with it; the empty key is never taken. */
  ghost predicate LastCounts(items: seq<Override>, overrides: map<string, Override>) {
    && (forall key | key in overrides :: key != "" && exists i: nat :: i < |items| && IsLast(items, i, key))
    && (forall i: nat, key: string | i < |items| && IsLast(items, i, key) && key != "" ::
          key in overrides && overrides[key] == items[i])
  }

  lemma LastOfMore(items: seq<Override>, o: Override, i: nat, key: string)
    requires i <= |items|
    ensures IsLast(items + [o], i, key) <==>
      if i == |items| then OverrideKey(o) == key else OverrideKey(o) != key && IsLast(items, i, key)
  {
    hide OverrideKey;
    var more := items + [o];
    assert more[|items|] == o && forall j | 0 <= j < |items| :: more[j] == items[j];
  }

  lemma OneOverrideMore(items: seq<Override>, o: Override, overrides: map<string, Override>)
    requires LastCounts(items, overrides)
    ensures LastCounts(items + [o], if OverrideKey(o) != "" then overrides[OverrideKey(o) := o] else overrides)
  {
    hide OverrideKey, IsLast;
    var more, after := items + [o], if OverrideKey(o) != "" then overrides[OverrideKey(o) := o] else overrides;
    forall i: nat, key: string | i < |more|
      ensures IsLast(more, i, key) <==>
        if i == |items| then OverrideKey(o) == key else OverrideKey(o) != key && IsLast(items, i, key)
    {
      LastOfMore(items, o, i, key);
    }
    forall key | key in after
      ensures key != "" && exists i: nat :: i < |more| && IsLast(more, i, key)
    {
      if key == OverrideKey(o) {
        assert IsLast(more, |items|, key);
      } else {
        var i: nat :| i < |items| && IsLast(items, i, key);
        assert IsLast(more, i, key);
      }
    }
  }

  lemma {:induction false} LastOverrideCounts(items: seq<Override>)
    ensures LastCounts(items, ByKey(items))
  {
    hide OverrideKey, LastCounts;
    if items == [] {
      NoOverrides(items);
    } else {
      var init, o := items[..|items| - 1], items[|items| - 1];
      LastOverrideCounts(init);
      OneOverrideMore(init, o, ByKey(init));
      assert items == init + [o];
    }
  }

  lemma NoOverrides(items: seq<Override>)
    requires items == []
    ensures LastCounts(items, map[])
  {}

  /** `_override_by_key`. */
  method OverrideByKey(items: seq<Override>) returns (overrides: map<string, Override>)
    ensures overrides == ByKey(items) && LastCounts(items, overrides)
  {
    overrides := map[];
    for k := 0 to |items|
      invariant overrides == ByKey(items[..k])
    {
      assert items[..k + 1][..k] == items[..k];
      var key := OverrideKey(items[k]);
      if key != "" {
        overrides := overrides[key := items[k]];
      }
    }
    assert items[..|items|] == items;
    LastOverrideCounts(items);
  }

  /** `overrides.get(key) or overrides.get(testname or "")`. */
  function Lookup(overrides: map<string, Override>, key: string, e: Element): Option<Override> {
    if key in overrides then Some(overrides[key])
    else if AttrOrEmpty(e, "testname") in overrides then Some(overrides[AttrOrEmpty(e, "testname")])
    else None
  }

  // ----- which override a group gets ---------------------------------------------------------------------------

  lemma {:induction false} StripLeftCuts(s: string) returns (a: nat)
    ensures a <= |s| && StripLeft(s) == s[a..]
    ensures forall i | 0 <= i < a :: IsSpace(s[i])
    ensures a < |s| ==> !IsSpace(s[a])
  {
    a := 0;
    if s != "" && IsSpace(s[0]) {
      var k := StripLeftCuts(s[1..]);
      a := k + 1;
      forall i | 0 <= i < a
        ensures IsSpace(s[i])
      {
        if i > 0 {
          assert s[i] == s[1..][i - 1];
        }
      }
    }
  }

  lemma {:induction false} StripRightCuts(s: string) returns (b: nat)
    ensures b <= |s| && StripRight(s) == s[..b]
    ensures forall i | b <= i < |s| :: IsSpace(s[i])
    ensures b > 0 ==> !IsSpace(s[b - 1])
  {
    b := |s|;
    if s != "" && IsSpace(s[|s| - 1]) {
      b := StripRightCuts(s[..|s| - 1]);
    }
  }

  /** The ASCII white space of a Python text. */
  predicate IsWhite(c: char) { c in " \t\n\U{B}\U{C}\r\U{1C}\U{1D}\U{1E}\U{1F}" }

  lemma SpaceIsWhite()
    ensures forall c :: IsSpace(c) <==> IsWhite(c)
  {
    forall c
      ensures IsSpace(c) <==> IsWhite(c)
    {
      var white := " \t\n\U{B}\U{C}\r\U{1C}\U{1D}\U{1E}\U{1F}";
      if IsSpace(c) {
        assert c == white[0] || c == white[1] || c == white[2] || c == white[3] || c == white[4] || c == white[5] ||
               c == white[6] || c == white[7] || c == white[8] || c == white[9];
      }
    }
  }

  /** The key of an override is its key, or its name when it has none, without the white space on
      either side. */
  lemma OverrideKeyTold(o: Override) returns (a: nat, b: nat)
    ensures
      var text := if o.key != "" then o.key else o.name;
      && a <= b <= |text| && OverrideKey(o) == text[a..b]
      && (forall i | 0 <= i < |text| && !(a <= i < b) :: IsWhite(text[i]))
      && (a < b ==> !IsWhite(text[a]) && !IsWhite(text[b - 1]))
  {
    hide IsSpace, IsWhite;
    SpaceIsWhite();
    var text := if o.key != "" then o.key else o.name;
    a := StripLeftCuts(text);
    var k := StripRightCuts(text[a..]);
    b := a + k;
    assert forall i | a <= i < |text| :: text[i] == text[a..][i - a];
  }

  /** Some override carries this key. */
  ghost predicate Names(items: seq<Override>, key: string) {
    key != "" && exists i: nat :: i < |items| && IsLast(items, i, key)
  }

  /** A group gets the last override under its key; only when none carries the key, the last one
      under its testname; else none. */
  ghost predicate Gets(items: seq<Override>, key: string, e: Element, o: Option<Override>) {
    var name := if "testname" in e.attrs then e.attrs["testname"] else "";
    if Names(items, key) then exists i: nat :: i < |items| && IsLast(items, i, key) && o == Some(items[i])
    else if Names(items, name) then exists i: nat :: i < |items| && IsLast(items, i, name) && o == Some(items[i])
    else o == None
  }

  lemma LookupGets(items: seq<Override>, key: string, e: Element)
    ensures Gets(items, key, e, Lookup(ByKey(items), key, e))
  {
    hide IsLast, OverrideKey, ByKey;
    LastOverrideCounts(items);
    NamedIsFound(items, key);
    NamedIsFound(items, AttrOrEmpty(e, "testname"));
  }

  lemma NamedIsFound(items: seq<Override>, key: string)
    ensures key in ByKey(items) <==> Names(items, key)
    ensures key in ByKey(items) ==>
      exists i: nat :: i < |items| && IsLast(items, i, key) && ByKey(items)[key] == items[i]
  {
    hide IsLast, OverrideKey, ByKey;
    LastOverrideCounts(items);
    if Names(items, key) {
      var i: nat :| i < |items| && IsLast(items, i, key);
    }
    if key in ByKey(items) {
      var i: nat :| i < |items| && IsLast(items, i, key);
    }
  }
}
