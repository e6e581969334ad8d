/** Dividing the threads of a run over the slaves, and the total it is recorded with. */
module ThreadAccounting {
  import opened Options
  import opened Decimals
  import opened JmxTree
  import opened ThreadGroups
  import opened RunOverrides
  import opened RunThreads
  import Pacing

  /** `math.ceil(n / s)`. */
  function CeilDiv(n: nat, s: nat): nat
    requires s > 0
  {
    (n + s - 1) / s
  }

  lemma CeilCovers(n: nat, s: nat)
    requires s > 0
    ensures n <= s * CeilDiv(n, s) < n + s
  {
    var q := CeilDiv(n, s);
    assert (n + s - 1) == s * q + (n + s - 1) % s;
  }

  /** Reading what `str` wrote, and the two readers on whole numbers. */
  ghost predicate ReadsNumbers(r: Reader) {
    && (forall n: nat :: r.toInt(Decimal(n)) == Some(n))
    && (forall text :: r.toInt(text).Some? && r.toInt(text).value >= 0 ==> r.count(text) == r.toInt(text).value)
  }

  // ----- per-slave texts ---------------------------------------------------------------------------------------

  predicate HasThreads(o: Override) { o.mode == "custom" && o.numThreads != "" }

  /** `_parse_run_int` with minimum 1 accepts the text. */
  predicate IsPositive(r: Reader, text: string) { r.toInt(text).Some? && r.toInt(text).value >= 1 }

  predicate ItemsValid(r: Reader, items: seq<Override>) {
    forall o | o in items && HasThreads(o) :: IsPositive(r, o.numThreads)
  }

  /** `_validate_run_params` accepts the thread numbers. */
  predicate ThreadsValid(r: Reader, numThreads: string, items: seq<Override>) {
    IsPositive(r, numThreads) && ItemsValid(r, items)
  }

  function PerSlave(r: Reader, text: string, slaves: nat): string
    requires IsPositive(r, text)
  {
    if slaves > 1 then Decimal(CeilDiv(r.toInt(text).value, slaves)) else text
  }

  function PreparedOne(r: Reader, o: Override, slaves: nat): Override
    requires HasThreads(o) ==> IsPositive(r, o.numThreads)
  {
    if HasThreads(o) then o.(numThreads := PerSlave(r, o.numThreads, slaves)) else o
  }

  /** On several slaves a custom number becomes the least that covers it on all of them together;
      nothing else changes. */
  ghost predicate IsDivided(r: Reader, o: Override, o': Override, slaves: nat)
    requires HasThreads(o) ==> IsPositive(r, o.numThreads)
  {
    if o.mode == "custom" && o.numThreads != "" && slaves > 1 then
      && o' == o.(numThreads := o'.numThreads) && IsNumeral(o'.numThreads)
      && var n, each := r.toInt(o.numThreads).value, Value(o'.numThreads);
         n <= slaves * each < n + slaves
    else o' == o
  }

  lemma PreparedIsDivided(r: Reader, o: Override, slaves: nat)
    requires HasThreads(o) ==> IsPositive(r, o.numThreads)
    ensures IsDivided(r, o, PreparedOne(r, o, slaves), slaves)
  {
    if HasThreads(o) && slaves > 1 {
      var n := r.toInt(o.numThreads).value;
      CeilCovers(n, slaves);
      DecimalIsNumeral(CeilDiv(n, slaves));
      ValueOfDecimal(CeilDiv(n, slaves));
    }
  }

  /** `_prepare_thread_group_overrides`. */
  method PrepareThreadGroupOverrides(r: Reader, items: seq<Override>, slaves: nat) returns (overrides: seq<Override>)
    requires ItemsValid(r, items)
    ensures |overrides| == |items|
    ensures forall i | 0 <= i < |items| :: overrides[i] == PreparedOne(r, items[i], slaves)
    ensures forall i | 0 <= i < |items| :: IsDivided(r, items[i], overrides[i], slaves)
  {
    overrides := [];
    for k := 0 to |items|
      invariant |overrides| == k
      invariant forall i | 0 <= i < k :: overrides[i] == PreparedOne(r, items[i], slaves)
    {
      var data := items[k];
      if data.mode == "custom" && slaves > 1 && data.numThreads != "" {
        data := data.(numThreads := Decimal(CeilDiv(r.toInt(data.numThreads).value, slaves)));
      }
      overrides := overrides + [data];
    }
    forall i | 0 <= i < |items|
      ensures IsDivided(r, items[i], overrides[i], slaves)
    {
      PreparedIsDivided(r, items[i], slaves);
    }
  }

  function Prepared(r: Reader, items: seq<Override>, slaves: nat): seq<Override>
    requires ItemsValid(r, items)
  {
    seq(|items|, i requires 0 <= i < |items| => PreparedOne(r, items[i], slaves))
  }

  /** Preparing keeps every override under its key. */
  lemma {:induction false} PreparedByKey(r: Reader, items: seq<Override>, slaves: nat)
    requires ItemsValid(r, items)
    ensures ByKey(Prepared(r, items, slaves)).Keys == ByKey(items).Keys
    ensures forall key | key in ByKey(items) ::
      ByKey(items)[key] in items && ByKey(Prepared(r, items, slaves))[key] == PreparedOne(r, ByKey(items)[key], slaves)
  {
    if items != [] {
      var k := |items| - 1;
      PreparedByKey(r, items[..k], slaves);
      assert Prepared(r, items, slaves)[..k] == Prepared(r, items[..k], slaves);
      assert OverrideKey(Prepared(r, items, slaves)[k]) == OverrideKey(items[k]);
    }
  }

  // ----- what each group runs ------------------------------------------------------------------------------------

  /** The settings before and after the division. */
  function Asked(items: seq<Override>, numThreads: string, ramp: string, duration: string): Settings {
    Settings(ByKey(items), numThreads, ramp, duration)
  }

  function Divided(r: Reader, items: seq<Override>, numThreads: string, ramp: string, duration: string, slaves: nat): Settings
    requires ThreadsValid(r, numThreads, items)
  {
    Settings(ByKey(Prepared(r, items, slaves)), PerSlave(r, numThreads, slaves), ramp, duration)
  }

  /** A group that is enabled in the run and not fixed. */
  predicate IsAsked(st: Settings, g: Element, index: nat)
    requires IsGroup(g)
  {
    EnabledAfter(st, g, index) && !IsFixed(OverrideOf(st, index, g))
  }

  /** The threads asked for over all slaves: a fixed group runs its own number on each of them. */
  function Demand(st: Settings, r: Reader, g: Element, index: nat, slaves: nat): nat
    requires IsGroup(g) && slaves > 0
  {
    var o := OverrideOf(st, index, g);
    if !EnabledAfter(st, g, index) then 0
    else if IsFixed(o) then slaves * CountText(r, TextOf(g, ThreadProp(ThreadGroupType(g).value)))
    else if o.Some? && HasThreads(o.value) then r.count(o.value.numThreads)
    else r.count(st.numThreads)
  }

  function AllDemand(st: Settings, r: Reader, groups: seq<Element>, slaves: nat): nat
    requires slaves > 0 && AllGroups(groups)
  {
    if groups == [] then 0
    else AllDemand(st, r, groups[..|groups| - 1], slaves) + Demand(st, r, groups[|groups| - 1], |groups| - 1, slaves)
  }

  function CountAsked(st: Settings, groups: seq<Element>): nat
    requires AllGroups(groups)
  {
    if groups == [] then 0
    else CountAsked(st, groups[..|groups| - 1]) + if IsAsked(st, groups[|groups| - 1], |groups| - 1) then 1 else 0
  }

  /** Every group the run asks for carries its thread property. */
  ghost predicate CarryThreads(st: Settings, groups: seq<Element>)
    requires AllGroups(groups)
  {
    forall i | 0 <= i < |groups| && IsAsked(st, groups[i], i) ::
      TextOf(groups[i], ThreadProp(ThreadGroupType(groups[i]).value)).Some?
  }

  /** The division changes no lookup but the number of threads. */
  lemma DividedLookup(r: Reader, items: seq<Override>, numThreads: string, ramp: string, duration: string, slaves: nat,
                      g: Element, index: nat)
    requires IsGroup(g) && ReadsNumbers(r) && ThreadsValid(r, numThreads, items)
    ensures
      var before, after := Asked(items, numThreads, ramp, duration), Divided(r, items, numThreads, ramp, duration, slaves);
      var o := OverrideOf(before, index, g);
      && EnabledAfter(after, g, index) == EnabledAfter(before, g, index)
      && IsFixed(OverrideOf(after, index, g)) == IsFixed(o)
      && IsPositive(r, ThreadsFor(before, o))
      && ThreadsFor(after, OverrideOf(after, index, g)) == PerSlave(r, ThreadsFor(before, o), slaves)
  {
    PreparedByKey(r, items, slaves);
    var before, after := Asked(items, numThreads, ramp, duration), Divided(r, items, numThreads, ramp, duration, slaves);
    var key := Key(ThreadGroupType(g).value, index);
    hide ByKey, Prepared, ThreadGroupType, Decimal, CeilDiv;
    LookupPrepared(r, ByKey(items), ByKey(Prepared(r, items, slaves)), slaves, key, g);
    PerSlaveNonEmpty(r, numThreads, slaves);
  }

  /** A positive number is never written as nothing. */
  lemma PerSlaveNonEmpty(r: Reader, text: string, slaves: nat)
    requires IsPositive(r, text)
    ensures text != "" ==> PerSlave(r, text, slaves) != ""
  {}

  lemma LookupPrepared(r: Reader, a: map<string, Override>, b: map<string, Override>, slaves: nat, key: string, g: Element)
    requires a.Keys == b.Keys && forall k | k in a :: HasThreads(a[k]) ==> IsPositive(r, a[k].numThreads)
    requires forall k | k in a :: b[k] == PreparedOne(r, a[k], slaves)
    ensures Lookup(a, key, g).Some? == Lookup(b, key, g).Some?
    ensures Lookup(a, key, g).Some? ==>
      var o, o' := Lookup(a, key, g).value, Lookup(b, key, g).value;
      && (HasThreads(o) ==> IsPositive(r, o.numThreads)) && o' == PreparedOne(r, o, slaves)
      && (HasThreads(o') <==> HasThreads(o))
  {
    hide Decimal;
    forall k | k in a
      ensures HasThreads(b[k]) <==> HasThreads(a[k])
    {
      if HasThreads(a[k]) {
        PerSlaveNonEmpty(r, a[k].numThreads, slaves);
      }
    }
  }

  /** `max(1, slave_count)`. */
  function Slaves(slaves: nat): nat { if slaves > 1 then slaves else 1 }

  lemma CountPerSlave(r: Reader, text: string, slaves: nat)
    requires ReadsNumbers(r) && IsPositive(r, text)
    ensures r.count(PerSlave(r, text, slaves)) == CeilDiv(r.count(text), Slaves(slaves))
  {
    if slaves > 1 {
      assert r.toInt(Decimal(CeilDiv(r.toInt(text).value, slaves))) == Some(CeilDiv(r.toInt(text).value, slaves));
    }
  }

  /** t threads on each of n slaves against the d asked for. */
  predicate OneCovered(n: nat, t: nat, d: nat, asked: bool) { if asked then d <= n * t < d + n else n * t == d }

  /** One group: its threads on all slaves together are those asked for; a group that is neither
      fixed nor disabled runs at most one slave's rounding more. */
  lemma GroupCovered(r: Reader, items: seq<Override>, numThreads: string, ramp: string, duration: string, slaves: nat,
                     g: Element, index: nat)
    requires IsGroup(g) && ReadsNumbers(r) && ThreadsValid(r, numThreads, items)
    requires IsAsked(Asked(items, numThreads, ramp, duration), g, index) ==>
      TextOf(g, ThreadProp(ThreadGroupType(g).value)).Some?
    ensures
      var before, after := Asked(items, numThreads, ramp, duration), Divided(r, items, numThreads, ramp, duration, slaves);
      var n := Slaves(slaves);
      OneCovered(n, ThreadsAfter(after, r, g, index), Demand(before, r, g, index, n), IsAsked(before, g, index))
  {
    DividedLookup(r, items, numThreads, ramp, duration, slaves, g, index);
    var before := Asked(items, numThreads, ramp, duration);
    hide Divided, Asked, EnabledAfter, OverrideOf, ReadsNumbers, PerSlave, CeilDiv, TextIn, ThreadGroupType, ThreadProp;
    if IsAsked(before, g, index) {
      var text := ThreadsFor(before, OverrideOf(before, index, g));
      CountPerSlave(r, text, slaves);
      CeilCovers(r.count(text), Slaves(slaves));
    }
  }

  /** The same for all groups, count of them asked for. */
  ghost predicate Covered(n: nat, sum: nat, demand: nat, count: nat)
    requires n > 0
  {
    demand <= n * sum <= demand + count * (n - 1)
  }

  lemma AddCovered(n: nat, sum: nat, t: nat, demand: nat, d: nat, count: nat, asked: bool)
    requires n > 0 && Covered(n, sum, demand, count) && OneCovered(n, t, d, asked)
    ensures Covered(n, sum + t, demand + d, count + if asked then 1 else 0)
  {
    assert n * (sum + t) == n * sum + n * t;
    assert (count + 1) * (n - 1) == count * (n - 1) + (n - 1);
  }

  lemma NothingCovered(n: nat)
    requires n > 0
    ensures Covered(n, 0, 0, 0)
  {}

  /** All groups together. */
  lemma {:induction false} AllCovered(r: Reader, items: seq<Override>, numThreads: string, ramp: string, duration: string,
                                      slaves: nat, groups: seq<Element>)
    requires ReadsNumbers(r) && ThreadsValid(r, numThreads, items) && AllGroups(groups)
    requires CarryThreads(Asked(items, numThreads, ramp, duration), groups)
    ensures
      var before, after := Asked(items, numThreads, ramp, duration), Divided(r, items, numThreads, ramp, duration, slaves);
      var n := Slaves(slaves);
      Covered(n, SumAfter(after, r, groups, 0), AllDemand(before, r, groups, n), CountAsked(before, groups))
  {
    hide Divided, Asked, ReadsNumbers, ThreadsValid, TextIn, ThreadsAfter, Demand, IsAsked, Covered, OneCovered, Slaves,
         SumAfter, AllDemand, CountAsked, CarryThreads, AllGroups;
    var before, after := Asked(items, numThreads, ramp, duration), Divided(r, items, numThreads, ramp, duration, slaves);
    var k, n := |groups| - 1, Slaves(slaves);
    SlavesPositive(slaves);
    if groups == [] {
      NothingAsked(before, after, r, n);
      NothingCovered(n);
    } else {
      LastGroup(before, after, r, groups, n);
      AllCovered(r, items, numThreads, ramp, duration, slaves, groups[..k]);
      GroupCovered(r, items, numThreads, ramp, duration, slaves, groups[k], k);
      AddCovered(n, SumAfter(after, r, groups[..k], 0), ThreadsAfter(after, r, groups[k], k),
                 AllDemand(before, r, groups[..k], n), Demand(before, r, groups[k], k, n),
                 CountAsked(before, groups[..k]), IsAsked(before, groups[k], k));
    }
  }

  lemma SlavesPositive(slaves: nat)
    ensures Slaves(slaves) > 0
  {}

  lemma NothingAsked(before: Settings, after: Settings, r: Reader, n: nat)
    requires n > 0
    ensures SumAfter(after, r, [], 0) == AllDemand(before, r, [], n) == CountAsked(before, []) == 0
  {}

  lemma LastGroup(before: Settings, after: Settings, r: Reader, groups: seq<Element>, n: nat)
    requires groups != [] && n > 0 && AllGroups(groups) && CarryThreads(before, groups)
    ensures
      var k := |groups| - 1;
      && AllGroups(groups[..k]) && IsGroup(groups[k]) && CarryThreads(before, groups[..k])
      && SumAfter(after, r, groups, 0) == SumAfter(after, r, groups[..k], 0) + ThreadsAfter(after, r, groups[k], k)
      && AllDemand(before, r, groups, n) == AllDemand(before, r, groups[..k], n) + Demand(before, r, groups[k], k, n)
      && CountAsked(before, groups) == CountAsked(before, groups[..k]) + (if IsAsked(before, groups[k], k) then 1 else 0)
      && (IsAsked(before, groups[k], k) ==> TextOf(groups[k], ThreadProp(ThreadGroupType(groups[k]).value)).Some?)
  {}

  /** `total_threads` as recorded for the run. */
  function RecordedTotal(total: nat, perSlave: nat, slaves: nat): nat {
    if perSlave > 0 then perSlave * Slaves(slaves) else total
  }

  /** The recorded total, summed on the rewritten and paced plan, covers the threads asked for,
      and exceeds them by less than one thread per slave for each group that is not fixed. */
  lemma RecordedTotalCovers(r: Reader, items: seq<Override>, numThreads: string, ramp: string, duration: string, slaves: nat,
                            root: Element)
    requires PlanOk(root) && ReadsNumbers(r) && ThreadsValid(r, numThreads, items)
    requires CarryThreads(Asked(items, numThreads, ramp, duration), DocGroups([root]))
    ensures
      var before, after := Asked(items, numThreads, ramp, duration), Divided(r, items, numThreads, ramp, duration, slaves);
      var run := Pacing.ApplyPacing(UpdatePlan(after, root), Prepared(r, items, slaves));
      var perSlave := Sum(r, DocGroups([run]));
      var recorded, n := RecordedTotal(r.count(numThreads), perSlave, slaves), Slaves(slaves);
      var demand := AllDemand(before, r, DocGroups([root]), n);
      && perSlave == SumAfter(after, r, DocGroups([root]), 0)
      && (if perSlave > 0 then demand <= recorded <= demand + CountAsked(before, DocGroups([root])) * (n - 1)
          else demand == 0 && recorded == r.count(numThreads))
  {
    var after := Divided(r, items, numThreads, ramp, duration, slaves);
    hide Divided, Asked, DocGroups, PlanOk, Prepared, UpdatePlan, ReadsNumbers, ThreadsValid, CarryThreads;
    SumOfUpdatedPlan(after, r, root);
    UpdateKeepsPlan(after, root);
    Pacing.PacingKeepsGroups(UpdatePlan(after, root), Prepared(r, items, slaves));
    AllCovered(r, items, numThreads, ramp, duration, slaves, DocGroups([root]));
    hide Covered, Pacing.ApplyPacing, SumAfter, AllDemand, CountAsked, Sum;
    var before, n := Asked(items, numThreads, ramp, duration), Slaves(slaves);
    FromCovered(n, SumAfter(after, r, DocGroups([root]), 0), AllDemand(before, r, DocGroups([root]), n),
                CountAsked(before, DocGroups([root])));
  }

  lemma FromCovered(n: nat, sum: nat, demand: nat, count: nat)
    requires n > 0 && Covered(n, sum, demand, count)
    ensures demand <= sum * n <= demand + count * (n - 1)
    ensures sum == 0 ==> demand == 0
  {}
}
