/** The proactive recommendation engine: threshold analyzers over the current
    CPU, memory and disk metrics, the confidence filter with its stable
    priority ordering and cap, dismissal by id, and the auto-implementation gate. */
module Recommendations {
  import opened Common

  /** The priority levels and the integers stored in a recommendation. */
  const LowPriority: int := 1
  const MediumPriority: int := 2
  const HighPriority: int := 3
  const CriticalPriority: int := 4

  /** Engine defaults when the configuration omits them. */
  const DefaultMinConfidence: real := 0.7
  const DefaultMaxRecommendations: int := 10

  datatype Category = Performance | Security | ResourceOptimization | ConfigurationTuning | Maintenance

  datatype Status = Implemented | Failed

  /** A recommendation record. Fields a dictionary may lack are options; the
      description, action list and impact texts are not modelled. */
  datatype Recommendation = Recommendation(
    id: Option<string>,
    title: string,
    category: Category,
    priority: Option<int>,
    confidence: Option<real>,
    autoImplement: bool,
    generatedAt: Option<string>,
    implementedAt: Option<string>,
    status: Option<Status>)

  /** The metric readings the analyzers consult; `None` when the group or the
      key is missing from the metrics dictionary. */
  datatype SystemMetrics = SystemMetrics(
    cpuPercent: Option<real>,
    load1m: Option<real>,
    memoryPercent: Option<real>,
    swapPercent: Option<real>,
    diskPercent: Option<real>)

  /** A fresh analyzer recommendation: an id built from a prefix and the
      current timestamp, and no generation, implementation or status stamp. */
  function Fresh(prefix: string, stamp: string, category: Category, priority: int,
                 title: string, confidence: real, auto: bool): (r: Recommendation)
    ensures r.id == Some(prefix + stamp) && r.priority == Some(priority) && r.confidence == Some(confidence)
    ensures r.generatedAt.None? && r.implementedAt.None? && r.status.None?
  {
    Recommendation(Some(prefix + stamp), title, category, Some(priority), Some(confidence), auto, None, None, None)
  }

  /** Every field an analyzer fills in. */
  predicate FromAnalyzer(r: Recommendation, minConfidence: real)
  {
    r.id.Some? && r.priority.Some? && r.confidence.Some? && r.confidence.value >= minConfidence
    && r.generatedAt.None? && r.status.None?
  }

  // ---------------------------------------------------------------- analyzers

  /** CPU above 90 is a high-priority automatic recommendation, above 80 a
      medium-priority manual one; a 1-minute load above 5 adds a high-priority
      automatic performance recommendation. A missing reading counts as 0. */
  function CpuRecommendations(m: SystemMetrics, stamp: string): (r: seq<Recommendation>)
    ensures forall x :: x in r ==> FromAnalyzer(x, 0.85)
    ensures GetOr(m.cpuPercent, 0.0) > 90.0 <==>
      (exists x :: x in r && x.category == ResourceOptimization && x.priority == Some(HighPriority) && x.autoImplement)
    ensures 80.0 < GetOr(m.cpuPercent, 0.0) <= 90.0 <==>
      (exists x :: x in r && x.category == ResourceOptimization && x.priority == Some(MediumPriority) && !x.autoImplement)
    ensures GetOr(m.cpuPercent, 0.0) <= 80.0 <==> (forall x :: x in r ==> x.category != ResourceOptimization)
    ensures GetOr(m.load1m, 0.0) > 5.0 <==>
      (exists x :: x in r && x.category == Performance && x.priority == Some(HighPriority) && x.autoImplement)
    ensures |r| <= 2
  {
    var cpu := GetOr(m.cpuPercent, 0.0);
    var load := GetOr(m.load1m, 0.0);
    var usage :=
      if cpu > 90.0 then
        [Fresh("cpu_high_", stamp, ResourceOptimization, HighPriority, "Uso de CPU Críticamente Alto", 0.95, true)]
      else if cpu > 80.0 then
        [Fresh("cpu_elevated_", stamp, ResourceOptimization, MediumPriority, "Uso de CPU Elevado", 0.85, false)]
      else [];
    var loadRecs :=
      if load > 5.0 then [Fresh("load_high_", stamp, Performance, HighPriority, "Load Average Alto", 0.90, true)]
      else [];
    usage + loadRecs
  }

  /** Memory above 95 is critical, above 85 high, and swap above 70 adds a
      medium one; all three are automatic. */
  function MemoryRecommendations(m: SystemMetrics, stamp: string): (r: seq<Recommendation>)
    ensures forall x :: x in r ==> FromAnalyzer(x, 0.80) && x.autoImplement && x.category == ResourceOptimization
    ensures GetOr(m.memoryPercent, 0.0) > 95.0 <==> (exists x :: x in r && x.priority == Some(CriticalPriority))
    ensures 85.0 < GetOr(m.memoryPercent, 0.0) <= 95.0 <==> (exists x :: x in r && x.priority == Some(HighPriority))
    ensures GetOr(m.swapPercent, 0.0) > 70.0 <==> (exists x :: x in r && x.priority == Some(MediumPriority))
    ensures |r| <= 2
  {
    var mem := GetOr(m.memoryPercent, 0.0);
    var swap := GetOr(m.swapPercent, 0.0);
    var usage :=
      if mem > 95.0 then
        [Fresh("memory_critical_", stamp, ResourceOptimization, CriticalPriority, "Memoria Críticamente Baja", 0.98, true)]
      else if mem > 85.0 then
        [Fresh("memory_high_", stamp, ResourceOptimization, HighPriority, "Uso de Memoria Alto", 0.88, true)]
      else [];
    var swapRecs :=
      if swap > 70.0 then
        [Fresh("swap_high_", stamp, ResourceOptimization, MediumPriority, "Uso de Swap Elevado", 0.80, true)]
      else [];
    usage + swapRecs
  }

  /** Disk above 95 is critical, above 85 high; both automatic. */
  function DiskRecommendations(m: SystemMetrics, stamp: string): (r: seq<Recommendation>)
    ensures forall x :: x in r ==> FromAnalyzer(x, 0.85) && x.autoImplement && x.category == ResourceOptimization
    ensures GetOr(m.diskPercent, 0.0) > 95.0 <==> (exists x :: x in r && x.priority == Some(CriticalPriority))
    ensures 85.0 < GetOr(m.diskPercent, 0.0) <= 95.0 <==> (exists x :: x in r && x.priority == Some(HighPriority))
    ensures GetOr(m.diskPercent, 0.0) <= 85.0 <==> r == []
  {
    var disk := GetOr(m.diskPercent, 0.0);
    if disk > 95.0 then
      [Fresh("disk_critical_", stamp, ResourceOptimization, CriticalPriority, "Disco Críticamente Lleno", 0.99, true)]
    else if disk > 85.0 then
      [Fresh("disk_high_", stamp, ResourceOptimization, HighPriority, "Disco Casi Lleno", 0.85, true)]
    else []
  }

  /** The performance analysis in its order: CPU, memory, disk, then the
      service findings, which enter as `services`. */
  function Analyze(m: SystemMetrics, stamp: string, services: seq<Recommendation>): seq<Recommendation>
  {
    CpuRecommendations(m, stamp) + MemoryRecommendations(m, stamp) + DiskRecommendations(m, stamp) + services
  }

  // ---------------------------------------------------------------- filter and order

  /** `r.get("confidence", 0) >= min_confidence`. */
  function Confident(minConfidence: real): Recommendation -> bool
  {
    (r: Recommendation) => GetOr(r.confidence, 0.0) >= minConfidence
  }

  /** Every threshold recommendation clears the default confidence bar, so the
      filter keeps all of them. */
  lemma ThresholdRecommendationsPassDefault(m: SystemMetrics, stamp: string)
    ensures var a := Analyze(m, stamp, []);
      Filter(a, Confident(DefaultMinConfidence)) == a
  {
    var a := Analyze(m, stamp, []);
    AnalyzerFields(m, stamp);
    var keep := Confident(DefaultMinConfidence);
    forall i | 0 <= i < |a|
      ensures keep(a[i])
    {
      assert FromAnalyzer(a[i], 0.80);
    }
    FilterShrinks(a, keep);
  }

  lemma AnalyzerFields(m: SystemMetrics, stamp: string)
    ensures forall x :: x in Analyze(m, stamp, []) ==> FromAnalyzer(x, 0.80)
  {
    var c, mem, d := CpuRecommendations(m, stamp), MemoryRecommendations(m, stamp), DiskRecommendations(m, stamp);
    assert Analyze(m, stamp, []) == c + mem + d;
  }

  /** The sort key: `x.get("priority", 1)`. */
  function Key(r: Recommendation): int
  {
    GetOr(r.priority, LowPriority)
  }

  predicate SortedByPriority(s: seq<Recommendation>)
  {
    forall i, j :: 0 <= i < j < |s| ==> Key(s[i]) >= Key(s[j])
  }

  /** Places `x` ahead of the first element whose key is not larger than its own. */
  function Insert(x: Recommendation, t: seq<Recommendation>): (r: seq<Recommendation>)
    ensures multiset(r) == multiset(t) + multiset{x}
  {
    if t == [] then [x]
    else if Key(x) >= Key(t[0]) then [x] + t
    else assert t == [t[0]] + t[1..]; [t[0]] + Insert(x, t[1..])
  }

  /** The stable descending sort `sort(key=priority, reverse=True)`, as an
      insertion sort from the back. */
  function SortByPriority(s: seq<Recommendation>): (r: seq<Recommendation>)
    ensures multiset(r) == multiset(s)
  {
    if s == [] then [] else assert s == [s[0]] + s[1..]; Insert(s[0], SortByPriority(s[1..]))
  }

  lemma {:induction false} InsertSorted(x: Recommendation, t: seq<Recommendation>)
    requires SortedByPriority(t)
    ensures SortedByPriority(Insert(x, t))
  {
    if t != [] && Key(x) < Key(t[0]) {
      var rest := Insert(x, t[1..]);
      InsertSorted(x, t[1..]);
      forall y | y in rest
        ensures Key(y) <= Key(t[0])
      {
        assert y in multiset(rest);
        if y != x {
          assert y in t[1..];
        }
      }
      assert Insert(x, t) == [t[0]] + rest;
    }
  }

  lemma {:induction false} SortSorted(s: seq<Recommendation>)
    ensures SortedByPriority(SortByPriority(s))
  {
    if s != [] {
      SortSorted(s[1..]);
      InsertSorted(s[0], SortByPriority(s[1..]));
    }
  }

  /** The entries of one priority, in their order. */
  function Band(s: seq<Recommendation>, k: int): seq<Recommendation>
  {
    if s == [] then [] else (if Key(s[0]) == k then [s[0]] else []) + Band(s[1..], k)
  }

  lemma {:induction false} InsertStable(x: Recommendation, t: seq<Recommendation>, k: int)
    ensures Band(Insert(x, t), k) == (if Key(x) == k then [x] else []) + Band(t, k)
  {
    if t == [] || Key(x) >= Key(t[0]) {
      assert ([x] + t)[0] == x && ([x] + t)[1..] == t;
    } else {
      InsertStable(x, t[1..], k);
      var r := Insert(x, t);
      assert r == [t[0]] + Insert(x, t[1..]);
      assert r[0] == t[0] && r[1..] == Insert(x, t[1..]);
      if Key(x) == k {
        assert Key(t[0]) != k;
      }
    }
  }

  /** Stability: within each priority the original order survives the sort. */
  lemma {:induction false} SortStable(s: seq<Recommendation>, k: int)
    ensures Band(SortByPriority(s), k) == Band(s, k)
  {
    if s != [] {
      SortStable(s[1..], k);
      InsertStable(s[0], SortByPriority(s[1..]), k);
    }
  }

  /** Python's `s[:n]`: a negative `n` counts from the end. */
  function PySliceTo<T>(s: seq<T>, n: int): (r: seq<T>)
    ensures |r| <= |s| && r == s[..|r|]
    ensures n >= 0 ==> |r| == (if n < |s| then n else |s|)
    ensures n < 0 ==> |r| == (if |s| + n > 0 then |s| + n else 0)
  {
    if n >= 0 then (if n < |s| then s[..n] else s)
    else if |s| + n > 0 then s[..|s| + n]
    else []
  }

  /** The per-entry stamp: an id when none is present, and the generation time. */
  function Stamp(r: Recommendation, idStamp: string, now: string): (out: Recommendation)
    ensures out.generatedAt == Some(now) && out.id.Some?
    ensures r.id.Some? ==> out.id == r.id
    ensures out.(id := r.id, generatedAt := r.generatedAt) == r
  {
    r.(id := if r.id.Some? then r.id else Some("rec_" + idStamp), generatedAt := Some(now))
  }

  function StampAll(s: seq<Recommendation>, idStamp: string, now: string): (r: seq<Recommendation>)
    ensures |r| == |s|
  {
    seq(|s|, i requires 0 <= i < |s| => Stamp(s[i], idStamp, now))
  }

  /** The whole of `_filter_and_prioritize`, as a value. */
  function Prioritized(recs: seq<Recommendation>, minConfidence: real, maxRecommendations: int,
                       idStamp: string, now: string): seq<Recommendation>
  {
    StampAll(PySliceTo(SortByPriority(Filter(recs, Confident(minConfidence))), maxRecommendations), idStamp, now)
  }

  /** Only confident entries come out, each one a stamped input entry: it
      carries the generation time and an id, the input's id when it had one. */
  lemma PrioritizedSound(recs: seq<Recommendation>, minConfidence: real, maxRecommendations: int,
                         idStamp: string, now: string)
    ensures var out := Prioritized(recs, minConfidence, maxRecommendations, idStamp, now);
      forall x :: x in out ==>
        && GetOr(x.confidence, 0.0) >= minConfidence
        && x.generatedAt == Some(now) && x.id.Some?
        && exists y :: y in recs && x == Stamp(y, idStamp, now)
  {
    var kept := Filter(recs, Confident(minConfidence));
    var sorted := SortByPriority(kept);
    var cut := PySliceTo(sorted, maxRecommendations);
    var out := StampAll(cut, idStamp, now);
    forall x | x in out
      ensures exists y :: y in recs && x == Stamp(y, idStamp, now)
      ensures GetOr(x.confidence, 0.0) >= minConfidence
    {
      var i :| 0 <= i < |out| && out[i] == x;
      var y := sorted[i];
      assert cut[i] == y;
      assert x == Stamp(y, idStamp, now);
      assert y in multiset(kept);
      assert y in recs && Confident(minConfidence)(y);
      assert x.confidence == y.confidence;
    }
  }

  /** Highest priority first, and no more than a non-negative cap. */
  lemma PrioritizedOrdered(recs: seq<Recommendation>, minConfidence: real, maxRecommendations: int,
                           idStamp: string, now: string)
    ensures var out := Prioritized(recs, minConfidence, maxRecommendations, idStamp, now);
      SortedByPriority(out) && (maxRecommendations >= 0 ==> |out| <= maxRecommendations)
  {
    var kept := Filter(recs, Confident(minConfidence));
    var sorted := SortByPriority(kept);
    var cut := PySliceTo(sorted, maxRecommendations);
    var out := StampAll(cut, idStamp, now);
    SortSorted(kept);
    forall i, j | 0 <= i < j < |out|
      ensures Key(out[i]) >= Key(out[j])
    {
      assert cut[i] == sorted[i] && cut[j] == sorted[j];
    }
  }

  /** When the cap is not reached, no confident entry is lost. */
  lemma PrioritizedComplete(recs: seq<Recommendation>, minConfidence: real, maxRecommendations: int,
                            idStamp: string, now: string)
    requires maxRecommendations >= |recs|
    ensures var out := Prioritized(recs, minConfidence, maxRecommendations, idStamp, now);
      forall y :: y in recs && Confident(minConfidence)(y) ==> Stamp(y, idStamp, now) in out
  {
    var kept := Filter(recs, Confident(minConfidence));
    var sorted := SortByPriority(kept);
    var cut := PySliceTo(sorted, maxRecommendations);
    var out := StampAll(cut, idStamp, now);
    assert |multiset(sorted)| == |sorted| && |multiset(kept)| == |kept|;
    assert cut == sorted;
    forall y | y in recs && Confident(minConfidence)(y)
      ensures Stamp(y, idStamp, now) in out
    {
      assert y in multiset(sorted);
      var i :| 0 <= i < |sorted| && sorted[i] == y;
      assert out[i] == Stamp(y, idStamp, now);
    }
  }

  // ---------------------------------------------------------------- implementation gate

  /** `rec.get("auto_implement", False) and rec["confidence"] >= min_confidence`. */
  predicate Eligible(r: Recommendation, minConfidence: real)
  {
    r.autoImplement && r.confidence.Some? && r.confidence.value >= minConfidence
  }

  /** An automatic entry without a confidence raises, which ends the loop. */
  predicate Raises(r: Recommendation)
  {
    r.autoImplement && r.confidence.None?
  }

  /** The simulated actions always succeed, so an eligible entry is marked implemented. */
  function MarkImplemented(r: Recommendation, now: string): (out: Recommendation)
    ensures out.status == Some(Implemented) && out.implementedAt == Some(now)
    ensures out.(status := r.status, implementedAt := r.implementedAt) == r
  {
    r.(implementedAt := Some(now), status := Some(Implemented))
  }

  /** The entries `implement_recommendations` returns: the eligible ones,
      marked, up to the first entry that raises. */
  function ImplementedOf(recs: seq<Recommendation>, minConfidence: real, now: string): seq<Recommendation>
  {
    if recs == [] || Raises(recs[0]) then []
    else (if Eligible(recs[0], minConfidence) then [MarkImplemented(recs[0], now)] else [])
         + ImplementedOf(recs[1..], minConfidence, now)
  }

  function MarkAll(s: seq<Recommendation>, now: string): (r: seq<Recommendation>)
    ensures |r| == |s|
  {
    seq(|s|, i requires 0 <= i < |s| => MarkImplemented(s[i], now))
  }

  lemma ImplementedOfStep(recs: seq<Recommendation>, i: int, minConfidence: real, now: string)
    requires 0 <= i < |recs| && !Raises(recs[i])
    ensures ImplementedOf(recs[i..], minConfidence, now) ==
      (if Eligible(recs[i], minConfidence) then [MarkImplemented(recs[i], now)] else [])
      + ImplementedOf(recs[i + 1..], minConfidence, now)
  {
    assert recs[i..][0] == recs[i];
    assert recs[i..][1..] == recs[i + 1..];
  }

  /** When no entry raises, exactly the eligible entries are implemented, in order. */
  lemma {:induction false} ImplementedGate(recs: seq<Recommendation>, minConfidence: real, now: string)
    requires forall r :: r in recs ==> !Raises(r)
    ensures ImplementedOf(recs, minConfidence, now) ==
            MarkAll(Filter(recs, (r: Recommendation) => Eligible(r, minConfidence)), now)
  {
    var keep := (r: Recommendation) => Eligible(r, minConfidence);
    if recs != [] {
      assert recs[0] in recs;
      assert forall r :: r in recs[1..] ==> r in recs;
      ImplementedGate(recs[1..], minConfidence, now);
      var tail := Filter(recs[1..], keep);
      if keep(recs[0]) {
        assert Filter(recs, keep) == [recs[0]] + tail;
        assert MarkAll([recs[0]] + tail, now) == [MarkImplemented(recs[0], now)] + MarkAll(tail, now);
      } else {
        assert Filter(recs, keep) == tail;
      }
    }
  }

  /** Nothing ineligible is implemented, and every result is marked. */
  lemma {:induction false} ImplementedOnlyEligible(recs: seq<Recommendation>, minConfidence: real, now: string)
    ensures forall x :: x in ImplementedOf(recs, minConfidence, now) ==>
      x.status == Some(Implemented) && exists r :: r in recs && Eligible(r, minConfidence) && x == MarkImplemented(r, now)
  {
    if recs != [] && !Raises(recs[0]) {
      ImplementedOnlyEligible(recs[1..], minConfidence, now);
      assert forall r :: r in recs[1..] ==> r in recs;
    }
  }

  // ---------------------------------------------------------------- dismissal

  /** `r.get("id") != recommendation_id`. */
  function NotId(id: string): Recommendation -> bool
  {
    (r: Recommendation) => r.id != Some(id)
  }

  /** Dismissal removes exactly the entries with the id, keeps the others in
      order, and dismissing twice is dismissing once. */
  lemma DismissSpec(active: seq<Recommendation>, id: string)
    ensures forall x :: x in Filter(active, NotId(id)) <==> x in active && x.id != Some(id)
    ensures forall a, b :: active == a + b ==>
      Filter(active, NotId(id)) == Filter(a, NotId(id)) + Filter(b, NotId(id))
    ensures Filter(Filter(active, NotId(id)), NotId(id)) == Filter(active, NotId(id))
    ensures (forall x :: x in active ==> x.id != Some(id)) ==> Filter(active, NotId(id)) == active
  {
    forall a, b | active == a + b
      ensures Filter(active, NotId(id)) == Filter(a, NotId(id)) + Filter(b, NotId(id))
    {
      FilterAppend(a, b, NotId(id));
    }
    var once := Filter(active, NotId(id));
    FilterShrinks(once, NotId(id));
    FilterShrinks(active, NotId(id));
  }

  // ---------------------------------------------------------------- engine

  class Engine {
    const minConfidence: real
    const maxRecommendations: int
    var active: seq<Recommendation>
    var implemented: seq<Recommendation>

    /** Thresholds from the configuration, defaulting to 0.7 and 10. */
    constructor (configuredMin: Option<real>, configuredMax: Option<int>)
      ensures minConfidence == GetOr(configuredMin, DefaultMinConfidence)
      ensures maxRecommendations == GetOr(configuredMax, DefaultMaxRecommendations)
      ensures active == [] && implemented == []
    {
      minConfidence := GetOr(configuredMin, DefaultMinConfidence);
      maxRecommendations := GetOr(configuredMax, DefaultMaxRecommendations);
      active := [];
      implemented := [];
    }

    /** Filter by confidence, sort by priority, cap, then stamp each entry in a loop. */
    method FilterAndPrioritize(recs: seq<Recommendation>, idStamp: string, now: string)
      returns (out: seq<Recommendation>)
      ensures out == Prioritized(recs, minConfidence, maxRecommendations, idStamp, now)
    {
      var filtered := Filter(recs, Confident(minConfidence));
      filtered := SortByPriority(filtered);
      filtered := PySliceTo(filtered, maxRecommendations);
      ghost var cut := filtered;
      var i := 0;
      while i < |filtered|
        invariant 0 <= i <= |filtered| == |cut|
        invariant forall j :: 0 <= j < i ==> filtered[j] == Stamp(cut[j], idStamp, now)
        invariant forall j :: i <= j < |filtered| ==> filtered[j] == cut[j]
      {
        var rec := filtered[i];
        if rec.id.None? {
          rec := rec.(id := Some("rec_" + idStamp));
        }
        rec := rec.(generatedAt := Some(now));
        filtered := filtered[i := rec];
        i := i + 1;
      }
      out := filtered;
    }

    /** Analyze the metrics and make the filtered list the active one. */
    method GenerateRecommendations(m: SystemMetrics, stamp: string, services: seq<Recommendation>, now: string)
      returns (out: seq<Recommendation>)
      modifies this
      ensures out == Prioritized(Analyze(m, stamp, services), minConfidence, maxRecommendations, stamp, now)
      ensures active == out && implemented == old(implemented)
    {
      out := FilterAndPrioritize(Analyze(m, stamp, services), stamp, now);
      active := out;
    }

    /** Drop every active entry with the given id; always reports success. */
    method DismissRecommendation(id: string) returns (ok: bool)
      modifies this
      ensures ok
      ensures active == Filter(old(active), NotId(id)) && implemented == old(implemented)
    {
      active := Filter(active, NotId(id));
      ok := true;
    }

    /** Implement the eligible entries in order, stopping at an entry that
        raises; the implemented ones are also appended to the engine's record. */
    method ImplementRecommendations(recs: seq<Recommendation>, now: string) returns (done: seq<Recommendation>)
      modifies this
      ensures done == ImplementedOf(recs, minConfidence, now)
      ensures implemented == old(implemented) + done && active == old(active)
    {
      done := [];
      var i := 0;
      while i < |recs| && !Raises(recs[i])
        invariant 0 <= i <= |recs|
        invariant done + ImplementedOf(recs[i..], minConfidence, now) == ImplementedOf(recs, minConfidence, now)
        invariant implemented == old(implemented) + done && active == old(active)
      {
        ImplementedOfStep(recs, i, minConfidence, now);
        ghost var rest := ImplementedOf(recs[i + 1..], minConfidence, now);
        var rec := recs[i];
        if rec.autoImplement && rec.confidence.value >= minConfidence {
          rec := rec.(implementedAt := Some(now));
          rec := rec.(status := Some(Implemented));
          assert rec == MarkImplemented(recs[i], now);
          assert (done + [rec]) + rest == done + ([rec] + rest);
          done := done + [rec];
          implemented := implemented + [rec];
        } else {
          assert ImplementedOf(recs[i..], minConfidence, now) == rest;
        }
        i := i + 1;
      }
      if i < |recs| {
        assert Raises(recs[i..][0]);
      }
    }
  }
}
