/** Collecting the error samples of a report: those written by the plan, topped up from the XML
    results and then from the JTL, without repetitions and within limits. */
module ErrorSamples {
  import opened Options
  import opened Sets
  import opened Numbers

  const PER_CODE_LIMIT := 10
  const TOTAL_LIMIT := 100
  const XML_SCAN_LIMIT := 1000
  const JTL_SCAN_LIMIT := 5000

  datatype ErrorSample = ErrorSample(time: int, name: string, thread: string, code: string, errorType: string)

  /** The records of one file, None where a sample succeeded. */
  type Records = seq<Option<ErrorSample>>

  type SampleKey = (int, string, string, string)

  /** `_sample_key`. */
  function KeyOf(x: ErrorSample): SampleKey { (x.time, x.name, x.thread, x.code) }

  function TypeOf(x: ErrorSample): string { if x.errorType != "" then x.errorType else "EXCEPTION" }

  function Keys(samples: seq<ErrorSample>): set<SampleKey> { set x | x in samples :: KeyOf(x) }

  function CountType(samples: seq<ErrorSample>, t: string): nat {
    if samples == [] then 0
    else CountType(samples[..|samples| - 1], t) + if TypeOf(samples[|samples| - 1]) == t then 1 else 0
  }

  function Types(samples: seq<ErrorSample>): set<string> { set x | x in samples :: TypeOf(x) }

  lemma OneMore(samples: seq<ErrorSample>, x: ErrorSample, t: string)
    ensures Keys(samples + [x]) == Keys(samples) + {KeyOf(x)}
    ensures Types(samples + [x]) == Types(samples) + {TypeOf(x)}
    ensures CountType(samples + [x], t) == CountType(samples, t) + if TypeOf(x) == t then 1 else 0
  {
    assert (samples + [x])[..|samples|] == samples;
    assert x in samples + [x] && forall y | y in samples :: y in samples + [x];
  }

  /** Two records of one sample: same time, name, thread and code. */
  predicate SameSample(x: ErrorSample, y: ErrorSample) {
    x.time == y.time && x.name == y.name && x.thread == y.thread && x.code == y.code
  }

  lemma KeysTell(samples: seq<ErrorSample>, x: ErrorSample)
    ensures KeyOf(x) in Keys(samples) <==> exists y :: y in samples && SameSample(x, y)
  {
    if KeyOf(x) in Keys(samples) {
      var y :| y in samples && KeyOf(y) == KeyOf(x);
      assert SameSample(x, y);
    }
    if y :| y in samples && SameSample(x, y) {
      assert KeyOf(y) in Keys(samples);
    }
  }

  /** The places of a type's samples; a sample without a type is an exception. */
  function PlacesOf(samples: seq<ErrorSample>, t: string): set<nat> {
    set i: nat | i < |samples| && (if samples[i].errorType == "" then "EXCEPTION" else samples[i].errorType) == t
  }

  lemma {:induction false} CountTypeTells(samples: seq<ErrorSample>, t: string)
    ensures CountType(samples, t) == |PlacesOf(samples, t)|
  {
    if samples != [] {
      hide PlacesOf, TypeOf;
      var n := |samples| - 1;
      CountTypeTells(samples[..n], t);
      PlacesOfMore(samples, t);
    }
  }

  lemma PlacesOfMore(samples: seq<ErrorSample>, t: string)
    requires samples != []
    ensures
      var n := |samples| - 1;
      && n !in PlacesOf(samples[..n], t)
      && PlacesOf(samples, t) == PlacesOf(samples[..n], t) + if TypeOf(samples[n]) == t then {n} else {}
  {}

  /** Fewer than ten of its type, fewer than a hundred in all, and not there yet. */
  ghost predicate MayAdd(samples: seq<ErrorSample>, x: ErrorSample) {
    && |PlacesOf(samples, if x.errorType == "" then "EXCEPTION" else x.errorType)| < 10
    && |samples| < 100
    && !exists y :: y in samples && SameSample(x, y)
  }

  lemma AdmitTells(samples: seq<ErrorSample>, x: ErrorSample)
    ensures Admit(samples, x) == if MayAdd(samples, x) then samples + [x] else samples
  {
    hide CountType, PlacesOf, Keys, KeyOf;
    CountTypeTells(samples, TypeOf(x));
    KeysTell(samples, x);
  }

  // ----- what is admitted ----------------------------------------------------------------------------------------

  /** `_append_sample_if_allowed`. */
  function Admit(samples: seq<ErrorSample>, x: ErrorSample): seq<ErrorSample> {
    if CountType(samples, TypeOf(x)) >= PER_CODE_LIMIT || |samples| >= TOTAL_LIMIT || KeyOf(x) in Keys(samples) then samples
    else samples + [x]
  }

  /** One XML file; the flag says that all scanning ended. */
  function ScanXml(samples: seq<ErrorSample>, records: Records, scanned: nat, target: nat): (seq<ErrorSample>, bool)
    decreases |records|
  {
    if records == [] then (samples, false)
    else
      var r := records[0];
      var next := if r.Some? then Admit(samples, r.value) else samples;
      var n := if r.Some? then scanned + 1 else scanned;
      if |next| >= target || n >= XML_SCAN_LIMIT then (next, true) else ScanXml(next, records[1..], n, target)
  }

  function ScanXmlFiles(samples: seq<ErrorSample>, files: seq<Records>, target: nat): seq<ErrorSample>
    decreases |files|
  {
    if files == [] then samples
    else
      var (next, done) := ScanXml(samples, files[0], 0, target);
      if done then next else ScanXmlFiles(next, files[1..], target)
  }

  /** One JTL file. */
  function ScanJtl(samples: seq<ErrorSample>, rows: Records, scanned: nat, target: nat): (seq<ErrorSample>, bool)
    decreases |rows|
  {
    if rows == [] then (samples, false)
    else if |samples| >= target then (samples, true)
    else if rows[0].None? then ScanJtl(samples, rows[1..], scanned, target)
    else
      var next := Admit(samples, rows[0].value);
      if scanned + 1 >= JTL_SCAN_LIMIT then (next, true) else ScanJtl(next, rows[1..], scanned + 1, target)
  }

  function ScanJtlFiles(samples: seq<ErrorSample>, files: seq<Records>, target: nat): seq<ErrorSample>
    decreases |files|
  {
    if files == [] then samples
    else
      var (next, done) := ScanJtl(samples, files[0], 0, target);
      if done then next else ScanJtlFiles(next, files[1..], target)
  }

  /** `max(1, min(int(limit or 100), most))`. */
  function Clamp(limit: int, most: nat): (n: nat)
    requires most > 0
    ensures 1 <= n <= most
    ensures 1 <= limit <= most ==> n == limit
    ensures limit < 0 ==> n == 1
    ensures limit > most ==> n == most
    ensures limit == 0 ==> n == if most < 100 then most else 100
  {
    var asked := if limit == 0 then 100 else limit;
    if asked < 1 then 1 else if asked > most then most else asked
  }

  /** The plan's own samples, each key once. */
  function Deduplicated(raw: seq<ErrorSample>): seq<ErrorSample> {
    if raw == [] then []
    else
      var earlier, x := Deduplicated(raw[..|raw| - 1]), raw[|raw| - 1];
      if KeyOf(x) in Keys(earlier) then earlier else earlier + [x]
  }

  function Collected(raw: seq<ErrorSample>, xml: seq<Records>, jtl: seq<Records>, limit: int,
                     includeJtl: bool): seq<ErrorSample> {
    var own, target := Deduplicated(raw), Clamp(limit, TOTAL_LIMIT);
    var withXml := if |own| >= target then own else ScanXmlFiles(own, xml, target);
    if includeJtl && |withXml| < target then ScanJtlFiles(withXml, jtl, target) else withXml
  }

  // ----- how far a scan goes ---------------------------------------------------------------------------------------

  function AdmitAll(samples: seq<ErrorSample>, records: Records): seq<ErrorSample> {
    if records == [] then samples
    else
      var before, r := AdmitAll(samples, records[..|records| - 1]), records[|records| - 1];
      if r.Some? then Admit(before, r.value) else before
  }

  function Errors(records: Records): set<nat> { set i: nat | i < |records| && records[i].Some? }

  lemma {:induction false} AdmitFirst(samples: seq<ErrorSample>, r: Option<ErrorSample>, rest: Records)
    ensures AdmitAll(samples, [r] + rest) == AdmitAll(if r.Some? then Admit(samples, r.value) else samples, rest)
  {
    hide Admit;
    if rest == [] {
      assert [r] + rest == [r] && [r][..0] == [];
    } else {
      assert ([r] + rest)[..|rest|] == [r] + rest[..|rest| - 1];
      AdmitFirst(samples, r, rest[..|rest| - 1]);
    }
  }

  lemma ErrorsFirst(r: Option<ErrorSample>, rest: Records)
    ensures |Errors([r] + rest)| == (if r.Some? then 1 else 0) + |Errors(rest)|
    ensures Errors([]) == {}
  {
    var shifted := set i: nat | i in Errors(rest) :: i + 1;
    ShiftKeepsSize(Errors(rest), shifted);
    assert Errors([r] + rest) == (if r.Some? then {0} else {}) + shifted by {
      forall i: nat | i in Errors([r] + rest) && i > 0
        ensures i in shifted
      {
        assert i - 1 in Errors(rest);
      }
    }
  }

  lemma {:induction false} ShiftKeepsSize(s: set<nat>, t: set<nat>)
    requires t == set i: nat | i in s :: i + 1
    ensures |t| == |s|
    decreases |s|
  {
    if s != {} {
      var x := Member(s);
      var t' := set i: nat | i in s - {x} :: i + 1;
      ShiftKeepsSize(s - {x}, t');
      forall i | i in t
        ensures i in t' + {x + 1}
      {
        var j :| j in s && j + 1 == i;
        assert j != x ==> j in s - {x};
      }
      assert t == t' + {x + 1};
    } else {
      assert t == {};
    }
  }

  lemma PrefixOfMore(r: Option<ErrorSample>, rest: Records, k: nat)
    requires k <= |rest|
    ensures ([r] + rest)[..k + 1] == [r] + rest[..k]
  {}

  /** One XML file is read up to the record with which the samples reach their target or the errors
      seen a thousand, or to its end. */
  lemma {:induction false} XmlScanTells(samples: seq<ErrorSample>, records: Records, scanned: nat, target: nat) returns (k: nat)
    requires scanned < 1000 && |samples| < target
    ensures k <= |records| && ScanXml(samples, records, scanned, target).0 == AdmitAll(samples, records[..k])
    ensures ScanXml(samples, records, scanned, target).1 <==>
      |AdmitAll(samples, records[..k])| >= target || scanned + |Errors(records[..k])| >= 1000
    ensures !ScanXml(samples, records, scanned, target).1 ==> k == |records|
    ensures forall j | 0 <= j < k :: |AdmitAll(samples, records[..j])| < target && scanned + |Errors(records[..j])| < 1000
    decreases |records|
  {
    hide Admit, AdmitAll, Errors;
    k := 0;
    NothingScanned(samples, records[..0]);
    if records != [] {
      var r, rest := records[0], records[1..];
      assert records == [r] + rest && rest[..0] == [];
      var next := if r.Some? then Admit(samples, r.value) else samples;
      var n := if r.Some? then scanned + 1 else scanned;
      AdmitFirst(samples, r, []);
      ErrorsFirst(r, []);
      NothingScanned(next, []);
      assert records[..1] == [r] + [];
      k := 1;
      if |next| < target && n < 1000 {
        var m := XmlScanTells(next, rest, n, target);
        k := m + 1;
        forall j | 0 <= j <= m
          ensures records[..j + 1] == [r] + rest[..j]
          ensures AdmitAll(samples, records[..j + 1]) == AdmitAll(next, rest[..j])
          ensures scanned + |Errors(records[..j + 1])| == n + |Errors(rest[..j])|
        {
          PrefixOfMore(r, rest, j);
          AdmitFirst(samples, r, rest[..j]);
          ErrorsFirst(r, rest[..j]);
        }
        forall j | 0 <= j < k
          ensures |AdmitAll(samples, records[..j])| < target && scanned + |Errors(records[..j])| < 1000
        {
          if j > 0 {
            assert records[..(j - 1) + 1] == [r] + rest[..j - 1];
          }
        }
      }
    }
  }

  lemma NothingScanned(samples: seq<ErrorSample>, records: Records)
    requires records == []
    ensures AdmitAll(samples, records) == samples && |Errors(records)| == 0
  {
    assert Errors(records) == {};
  }

  /** One result file is read until the samples have reached their target before a row, or the errors
      seen are five thousand, or to its end. */
  lemma {:induction false} JtlScanTells(samples: seq<ErrorSample>, rows: Records, scanned: nat, target: nat) returns (k: nat)
    requires scanned < 5000
    ensures k <= |rows| && ScanJtl(samples, rows, scanned, target).0 == AdmitAll(samples, rows[..k])
    ensures ScanJtl(samples, rows, scanned, target).1 <==>
      (k < |rows| && |AdmitAll(samples, rows[..k])| >= target) || scanned + |Errors(rows[..k])| >= 5000
    ensures !ScanJtl(samples, rows, scanned, target).1 ==> k == |rows|
    ensures forall j | 0 <= j < k :: |AdmitAll(samples, rows[..j])| < target && scanned + |Errors(rows[..j])| < 5000
    decreases |rows|
  {
    hide Admit, AdmitAll, Errors;
    k := 0;
    NothingScanned(samples, rows[..0]);
    if rows != [] && |samples| < target {
      var r, rest := rows[0], rows[1..];
      assert rows == [r] + rest && rest[..0] == [];
      var next := if r.Some? then Admit(samples, r.value) else samples;
      var n := if r.Some? then scanned + 1 else scanned;
      AdmitFirst(samples, r, []);
      ErrorsFirst(r, []);
      NothingScanned(next, []);
      assert rows[..1] == [r] + [];
      k := 1;
      if n < 5000 {
        var m := JtlScanTells(next, rest, n, target);
        k := m + 1;
        forall j | 0 <= j <= m
          ensures rows[..j + 1] == [r] + rest[..j]
          ensures AdmitAll(samples, rows[..j + 1]) == AdmitAll(next, rest[..j])
          ensures scanned + |Errors(rows[..j + 1])| == n + |Errors(rest[..j])|
        {
          PrefixOfMore(r, rest, j);
          AdmitFirst(samples, r, rest[..j]);
          ErrorsFirst(r, rest[..j]);
        }
        forall j | 0 <= j < k
          ensures |AdmitAll(samples, rows[..j])| < target && scanned + |Errors(rows[..j])| < 5000
        {
          if j > 0 {
            assert rows[..(j - 1) + 1] == [r] + rest[..j - 1];
          }
        }
      }
    }
  }

  // ----- the collection in place -----------------------------------------------------------------------------------

  class Collection {
    var samples: seq<ErrorSample>
    var groups: map<string, nat>
    var seen: set<SampleKey>

    ghost predicate Valid()
      reads this
    {
      && seen == Keys(samples) && groups.Keys == Types(samples)
      && forall t | t in groups :: groups[t] == CountType(samples, t)
    }

    constructor ()
      ensures Valid() && samples == []
    {
      samples, groups, seen := [], map[], {};
    }

    function GroupCount(t: string): nat
      reads this
    {
      if t in groups then groups[t] else 0
    }

    /** Adds a sample to all three. */
    method Add(x: ErrorSample)
      requires Valid()
      modifies this
      ensures Valid() && samples == old(samples) + [x]
    {
      TypesCounted(samples, TypeOf(x));
      forall t
        ensures CountType(samples + [x], t) == CountType(samples, t) + if TypeOf(x) == t then 1 else 0
      {
        OneMore(samples, x, t);
      }
      OneMore(samples, x, "");
      samples := samples + [x];
      seen := seen + {KeyOf(x)};
      groups := groups[TypeOf(x) := GroupCount(TypeOf(x)) + 1];
    }

    /** `_append_sample_if_allowed`. */
    method AppendSampleIfAllowed(x: ErrorSample)
      requires Valid()
      modifies this
      ensures Valid() && samples == Admit(old(samples), x)
      ensures samples == if MayAdd(old(samples), x) then old(samples) + [x] else old(samples)
    {
      AdmitTells(samples, x);
      TypesCounted(samples, TypeOf(x));
      if GroupCount(TypeOf(x)) >= PER_CODE_LIMIT || |samples| >= TOTAL_LIMIT || KeyOf(x) in seen {
        return;
      }
      Add(x);
    }

    /** The loop of `_collect_error_samples` over the plan's own samples. */
    method AddOwn(raw: seq<ErrorSample>)
      requires Valid() && samples == []
      modifies this
      ensures Valid() && samples == Deduplicated(raw)
    {
      for k := 0 to |raw|
        invariant Valid() && samples == Deduplicated(raw[..k])
      {
        assert raw[..k + 1][..k] == raw[..k];
        if KeyOf(raw[k]) !in seen {
          Add(raw[k]);
        }
      }
      assert raw[..|raw|] == raw;
    }

    /** `_append_xml_error_samples`. */
    method AppendXmlErrorSamples(files: seq<Records>, limit: int)
      requires Valid()
      modifies this
      ensures Valid()
      ensures var target := Clamp(limit, TOTAL_LIMIT);
        samples == if |old(samples)| >= target then old(samples) else ScanXmlFiles(old(samples), files, target)
    {
      var target := Clamp(limit, TOTAL_LIMIT);
      if |samples| >= target {
        return;
      }
      assert files[0..] == files;
      for f := 0 to |files|
        invariant Valid() && ScanXmlFiles(old(samples), files, target) == ScanXmlFiles(samples, files[f..], target)
      {
        var done := ScanXmlFile(files[f], target);
        assert files[f..][1..] == files[f + 1..];
        if done {
          return;
        }
      }
      assert files[|files|..] == [];
    }

    method ScanXmlFile(records: Records, target: nat) returns (done: bool)
      requires Valid()
      modifies this
      ensures Valid() && (samples, done) == ScanXml(old(samples), records, 0, target)
    {
      var scanned := 0;
      assert records[0..] == records;
      for k := 0 to |records|
        invariant Valid() && ScanXml(old(samples), records, 0, target) == ScanXml(samples, records[k..], scanned, target)
      {
        assert records[k..][1..] == records[k + 1..];
        if records[k].Some? {
          scanned := scanned + 1;
          AppendSampleIfAllowed(records[k].value);
        }
        if |samples| >= target || scanned >= XML_SCAN_LIMIT {
          return true;
        }
      }
      assert records[|records|..] == [];
      return false;
    }

    /** `_append_jtl_backfill_samples`. */
    method AppendJtlBackfillSamples(files: seq<Records>, limit: int)
      requires Valid()
      modifies this
      ensures Valid()
      ensures var target := Clamp(limit, TOTAL_LIMIT);
        samples == if |old(samples)| >= target then old(samples) else ScanJtlFiles(old(samples), files, target)
    {
      var target := Clamp(limit, TOTAL_LIMIT);
      if |samples| >= target {
        return;
      }
      assert files[0..] == files;
      for f := 0 to |files|
        invariant Valid() && ScanJtlFiles(old(samples), files, target) == ScanJtlFiles(samples, files[f..], target)
      {
        var done := ScanJtlFile(files[f], target);
        assert files[f..][1..] == files[f + 1..];
        if done {
          return;
        }
      }
      assert files[|files|..] == [];
    }

    method ScanJtlFile(rows: Records, target: nat) returns (done: bool)
      requires Valid() && target <= TOTAL_LIMIT
      modifies this
      ensures Valid() && (samples, done) == ScanJtl(old(samples), rows, 0, target)
    {
      var scanned := 0;
      assert rows[0..] == rows;
      for k := 0 to |rows|
        invariant Valid() && ScanJtl(old(samples), rows, 0, target) == ScanJtl(samples, rows[k..], scanned, target)
      {
        assert rows[k..][1..] == rows[k + 1..];
        if |samples| >= target {
          return true;
        }
        if rows[k].Some? {
          scanned := scanned + 1;
          var x := rows[k].value;
          TypesCounted(samples, TypeOf(x));
          if GroupCount(TypeOf(x)) < PER_CODE_LIMIT && KeyOf(x) !in seen {
            Add(x);
          }
          if scanned >= JTL_SCAN_LIMIT {
            return true;
          }
        }
      }
      assert rows[|rows|..] == [];
      return false;
    }
  }

  /** `_collect_error_samples` up to the view it builds. */
  method CollectErrorSamples(raw: seq<ErrorSample>, xml: seq<Records>, jtl: seq<Records>,
                             limit: int, includeJtl: bool) returns (samples: seq<ErrorSample>)
    ensures samples == Collected(raw, xml, jtl, limit, includeJtl)
  {
    var collection := new Collection();
    collection.AddOwn(raw);
    collection.AppendXmlErrorSamples(xml, limit);
    if includeJtl {
      collection.AppendJtlBackfillSamples(jtl, limit);
    }
    return collection.samples;
  }

  lemma {:induction false} TypesCounted(samples: seq<ErrorSample>, t: string)
    ensures t in Types(samples) <==> CountType(samples, t) > 0
  {
    if samples != [] {
      var init, x := samples[..|samples| - 1], samples[|samples| - 1];
      assert samples == init + [x];
      TypesCounted(init, t);
      OneMore(init, x, t);
    }
  }

  // ----- limits ------------------------------------------------------------------------------------------------------

  predicate DistinctKeys(samples: seq<ErrorSample>) {
    forall i, j | 0 <= i < j < |samples| :: KeyOf(samples[i]) != KeyOf(samples[j])
  }

  /** s extends base without repetitions and within the limits. */
  ghost predicate Within(base: seq<ErrorSample>, s: seq<ErrorSample>, target: nat) {
    && base <= s && DistinctKeys(s)
    && |s| <= Max(|base|, target)
    && forall t :: CountType(s, t) <= Max(CountType(base, t), PER_CODE_LIMIT)
  }

  lemma AdmitWithin(base: seq<ErrorSample>, s: seq<ErrorSample>, x: ErrorSample, target: nat)
    requires Within(base, s, target) && |s| < target
    ensures Within(base, Admit(s, x), target)
  {
    forall t
      ensures CountType(s + [x], t) == CountType(s, t) + if TypeOf(x) == t then 1 else 0
    {
      OneMore(s, x, t);
    }
    if KeyOf(x) !in Keys(s) {
      forall i | 0 <= i < |s|
        ensures KeyOf(s[i]) != KeyOf(x)
      {
        assert s[i] in s;
      }
    }
  }

  lemma {:induction false} ScanXmlWithin(base: seq<ErrorSample>, s: seq<ErrorSample>, records: Records, scanned: nat,
                                         target: nat)
    requires Within(base, s, target) && |s| < target
    ensures
      var out := ScanXml(s, records, scanned, target);
      Within(base, out.0, target) && (!out.1 ==> |out.0| < target)
    decreases |records|
  {
    hide Within, Admit;
    if records != [] {
      var r := records[0];
      if r.Some? {
        AdmitWithin(base, s, r.value, target);
      }
      var next := if r.Some? then Admit(s, r.value) else s;
      var n := if r.Some? then scanned + 1 else scanned;
      if |next| < target && n < XML_SCAN_LIMIT {
        ScanXmlWithin(base, next, records[1..], n, target);
      }
    }
  }

  lemma {:induction false} XmlFilesWithin(base: seq<ErrorSample>, s: seq<ErrorSample>, files: seq<Records>, target: nat)
    requires Within(base, s, target) && |s| < target
    ensures Within(base, ScanXmlFiles(s, files, target), target)
    decreases |files|
  {
    hide Within, ScanXml;
    if files != [] {
      ScanXmlWithin(base, s, files[0], 0, target);
      var (next, done) := ScanXml(s, files[0], 0, target);
      if !done {
        XmlFilesWithin(base, next, files[1..], target);
      }
    }
  }

  lemma {:induction false} ScanJtlWithin(base: seq<ErrorSample>, s: seq<ErrorSample>, rows: Records, scanned: nat,
                                         target: nat)
    requires Within(base, s, target)
    ensures Within(base, ScanJtl(s, rows, scanned, target).0, target)
    decreases |rows|
  {
    hide Within, Admit;
    if rows != [] && |s| < target {
      if rows[0].None? {
        ScanJtlWithin(base, s, rows[1..], scanned, target);
      } else {
        AdmitWithin(base, s, rows[0].value, target);
        if scanned + 1 < JTL_SCAN_LIMIT {
          ScanJtlWithin(base, Admit(s, rows[0].value), rows[1..], scanned + 1, target);
        }
      }
    }
  }

  lemma {:induction false} JtlFilesWithin(base: seq<ErrorSample>, s: seq<ErrorSample>, files: seq<Records>, target: nat)
    requires Within(base, s, target)
    ensures Within(base, ScanJtlFiles(s, files, target), target)
    decreases |files|
  {
    hide Within, ScanJtl;
    if files != [] {
      ScanJtlWithin(base, s, files[0], 0, target);
      var (next, done) := ScanJtl(s, files[0], 0, target);
      if !done {
        JtlFilesWithin(base, next, files[1..], target);
      }
    }
  }

  lemma {:induction false} DeduplicatedOnce(raw: seq<ErrorSample>)
    ensures DistinctKeys(Deduplicated(raw)) && Keys(Deduplicated(raw)) == Keys(raw)
  {
    if raw != [] {
      var init, x := raw[..|raw| - 1], raw[|raw| - 1];
      DeduplicatedOnce(init);
      assert raw == init + [x];
      OneMore(init, x, "");
      OneMore(Deduplicated(init), x, "");
      if KeyOf(x) !in Keys(Deduplicated(init)) {
        forall i | 0 <= i < |Deduplicated(init)|
          ensures KeyOf(Deduplicated(init)[i]) != KeyOf(x)
        {
          assert Deduplicated(init)[i] in Deduplicated(init);
        }
      }
    }
  }

  /** The plan's own samples all stay, in front and each key once; what is added keeps the keys
      apart, each type within ten or what the plan wrote, and the whole within the clamped limit or
      what the plan wrote. */
  lemma CollectedWithin(raw: seq<ErrorSample>, xml: seq<Records>, jtl: seq<Records>, limit: int,
                        includeJtl: bool)
    ensures Within(Deduplicated(raw), Collected(raw, xml, jtl, limit, includeJtl), Clamp(limit, TOTAL_LIMIT))
    ensures Keys(Deduplicated(raw)) == Keys(raw)
  {
    var own, target := Deduplicated(raw), Clamp(limit, TOTAL_LIMIT);
    DeduplicatedOnce(raw);
    assert Within(own, own, target);
    hide Within, Deduplicated, ScanXmlFiles, ScanJtlFiles;
    var withXml := if |own| >= target then own else ScanXmlFiles(own, xml, target);
    if |own| < target {
      XmlFilesWithin(own, own, xml, target);
    }
    if includeJtl && |withXml| < target {
      JtlFilesWithin(own, withXml, jtl, target);
    }
  }

  // ----- the view ------------------------------------------------------------------------------------------------------

  predicate Descending(s: seq<ErrorSample>) { forall i, j | 0 <= i < j < |s| :: s[i].time >= s[j].time }

  function AtTime(s: seq<ErrorSample>, time: int): seq<ErrorSample> {
    if s == [] then [] else (if s[0].time == time then [s[0]] else []) + AtTime(s[1..], time)
  }

  /** Inserts behind the samples of the same time or later. */
  function Insert(s: seq<ErrorSample>, x: ErrorSample): seq<ErrorSample> {
    if s == [] || s[0].time < x.time then [x] + s else [s[0]] + Insert(s[1..], x)
  }

  /** `samples.sort(key=time, reverse=True)`: latest first, samples of one time in their old order. */
  function SortDescending(s: seq<ErrorSample>): seq<ErrorSample> {
    if s == [] then [] else Insert(SortDescending(s[..|s| - 1]), s[|s| - 1])
  }

  lemma {:induction false} InsertPermutes(s: seq<ErrorSample>, x: ErrorSample)
    ensures multiset(Insert(s, x)) == multiset(s) + multiset{x}
  {
    if s == [] || s[0].time < x.time {
    } else {
      InsertPermutes(s[1..], x);
      assert s == [s[0]] + s[1..];
    }
  }

  lemma {:induction false} InsertDescends(s: seq<ErrorSample>, x: ErrorSample)
    requires Descending(s)
    ensures Descending(Insert(s, x))
  {
    if s != [] && s[0].time >= x.time {
      InsertDescends(s[1..], x);
      InsertPermutes(s[1..], x);
      var rest := Insert(s[1..], x);
      forall y | y in rest
        ensures y.time <= s[0].time
      {
        assert y in multiset(rest);
        if y != x {
          assert y in s[1..];
        }
      }
    }
  }

  lemma AtTimeStep(x: ErrorSample, s: seq<ErrorSample>, time: int)
    ensures AtTime([x] + s, time) == (if x.time == time then [x] else []) + AtTime(s, time)
  {
    assert ([x] + s)[1..] == s;
  }

  lemma {:induction false} InsertAtTime(s: seq<ErrorSample>, x: ErrorSample, time: int)
    requires Descending(s)
    ensures AtTime(Insert(s, x), time) == AtTime(s, time) + if x.time == time then [x] else []
  {
    hide AtTime;
    if s == [] || s[0].time < x.time {
      AtTimeStep(x, s, time);
      if x.time == time {
        NoneLater(s, time);
      }
    } else {
      InsertAtTime(s[1..], x, time);
      AtTimeStep(s[0], Insert(s[1..], x), time);
      AtTimeStep(s[0], s[1..], time);
      assert [s[0]] + s[1..] == s;
    }
  }

  lemma {:induction false} NoneLater(s: seq<ErrorSample>, time: int)
    requires forall x | x in s :: x.time < time
    ensures AtTime(s, time) == []
  {
    if s != [] {
      NoneLater(s[1..], time);
    }
  }

  lemma {:induction false} AtTimeAppended(s: seq<ErrorSample>, x: ErrorSample, time: int)
    ensures AtTime(s + [x], time) == AtTime(s, time) + if x.time == time then [x] else []
  {
    if s != [] {
      assert (s + [x])[1..] == s[1..] + [x];
      AtTimeAppended(s[1..], x, time);
    }
  }

  /** The sort is a stable permutation into descending time. */
  lemma {:induction false} SortIsStable(s: seq<ErrorSample>, time: int)
    ensures Descending(SortDescending(s)) && multiset(SortDescending(s)) == multiset(s)
    ensures AtTime(SortDescending(s), time) == AtTime(s, time)
  {
    hide Insert, AtTime;
    if s != [] {
      var init, x := s[..|s| - 1], s[|s| - 1];
      SortIsStable(init, time);
      InsertPermutes(SortDescending(init), x);
      InsertDescends(SortDescending(init), x);
      InsertAtTime(SortDescending(init), x, time);
      assert s == init + [x];
      AtTimeAppended(init, x, time);
    }
  }

  datatype View = View(total: nat, groups: map<string, nat>, list: seq<ErrorSample>)

  /** `_build_error_samples_vo`. */
  function BuildView(samples: seq<ErrorSample>, limit: int): View {
    var sorted, items := SortDescending(samples), Clamp(limit, 1000);
    View(|samples|, map t | t in Types(samples) :: CountType(samples, t), if |sorted| <= items then sorted else sorted[..items])
  }

  function SumTypes(samples: seq<ErrorSample>, types: seq<string>): nat {
    if types == [] then 0 else SumTypes(samples, types[..|types| - 1]) + CountType(samples, types[|types| - 1])
  }

  lemma {:induction false} SumGrows(samples: seq<ErrorSample>, x: ErrorSample, types: seq<string>)
    requires Distinct(types)
    ensures SumTypes(samples + [x], types) == SumTypes(samples, types) + if TypeOf(x) in types then 1 else 0
  {
    hide CountType;
    if types != [] {
      var init, last := types[..|types| - 1], types[|types| - 1];
      SumGrows(samples, x, init);
      OneMore(samples, x, last);
      assert types == init + [last];
      if TypeOf(x) == last {
        assert last !in init;
      }
    }
  }

  lemma {:induction false} SumOfNone(samples: seq<ErrorSample>, types: seq<string>)
    requires samples == []
    ensures SumTypes(samples, types) == 0
  {
    if types != [] {
      SumOfNone(samples, types[..|types| - 1]);
    }
  }

  /** The group counts add up to the total. */
  lemma {:induction false} GroupsAddUp(samples: seq<ErrorSample>, types: seq<string>)
    requires Distinct(types) && forall x | x in samples :: TypeOf(x) in types
    ensures SumTypes(samples, types) == |samples|
  {
    if samples == [] {
      SumOfNone(samples, types);
    } else {
      var init, x := samples[..|samples| - 1], samples[|samples| - 1];
      assert samples == init + [x] && x in samples;
      GroupsAddUp(init, types);
      SumGrows(init, x, types);
    }
  }

  /** The view of a collection: a count for each type, adding up to the total, and the latest
      samples, in descending time and, within one time, in the order they were collected. */
  lemma ViewIsLatestPrefix(samples: seq<ErrorSample>, limit: int, types: seq<string>, time: int)
    requires Distinct(types) && forall t :: t in types <==> t in Types(samples)
    ensures
      var view, sorted := BuildView(samples, limit), SortDescending(samples);
      && view.list <= sorted && Descending(view.list)
      && |view.list| == Min(|samples|, Clamp(limit, 1000))
      && (forall i, x | 0 <= i < |view.list| && x in sorted[|view.list|..] :: view.list[i].time >= x.time)
      && AtTime(sorted, time) == AtTime(samples, time) && multiset(sorted) == multiset(samples)
      && (forall t | t in types :: t in view.groups && view.groups[t] == CountType(samples, t))
      && SumTypes(samples, types) == view.total == |samples|
  {
    SortIsStable(samples, time);
    SortKeepsLength(samples);
    assert forall x | x in samples :: TypeOf(x) in Types(samples);
    GroupsAddUp(samples, types);
    hide SortDescending, CountType, AtTime, SumTypes;
  }

  lemma SortKeepsLength(samples: seq<ErrorSample>)
    ensures |SortDescending(samples)| == |samples|
  {
    SortIsStable(samples, 0);
    assert |multiset(SortDescending(samples))| == |multiset(samples)|;
  }
}
