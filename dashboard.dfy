/** The browser-side controller of the optimization dashboard: a bounded chart
    window fed by the real-time stream, threshold colouring of the headline
    metrics, reconnection after a stream error, and the recommendation and
    manual-optimization buttons, which act only on a successful reply. */
module Dashboard {
  import opened Common

  /** Points kept on the performance chart. */
  const MaxDataPoints: nat := 50
  /** Period of the full dashboard refresh. */
  const UpdateIntervalMs: nat := 5000
  /** Delay before reopening the stream after an error. */
  const ReconnectDelayMs: nat := 5000
  /** Delay before the page reloads after a successful manual optimization. */
  const ReloadDelayMs: nat := 2000
  /** Lifetime of a notification toast. */
  const NotificationLifetimeMs: nat := 5000

  // ---------------------------------------------------------------- chart window

  /** The last `n` elements of `s`, or all of it when it is shorter. */
  function LastN<T>(s: seq<T>, n: nat): seq<T>
  {
    if |s| <= n then s else s[|s| - n..]
  }

  /** The window holds min(|s|, n) elements: the most recent ones, in arrival order. */
  lemma LastNShape<T>(s: seq<T>, n: nat)
    ensures |LastN(s, n)| == (if |s| < n then |s| else n)
    ensures forall i :: 0 <= i < |LastN(s, n)| ==> LastN(s, n)[i] == s[|s| - |LastN(s, n)| + i]
  {
  }

  lemma LastNAt<T>(s: seq<T>, i: int)
    requires 0 <= i < |LastN(s, MaxDataPoints)|
    ensures |LastN(s, MaxDataPoints)| <= |s|
    ensures LastN(s, MaxDataPoints)[i] == s[|s| - |LastN(s, MaxDataPoints)| + i]
  {
  }

  /** One `push` followed by a `shift` when the array grew past the bound. */
  function PushBounded<T>(w: seq<T>, x: T): seq<T>
  {
    var p := w + [x];
    if |p| > MaxDataPoints then p[1..] else p
  }

  /** Pushing onto the window of a history gives the window of the extended history. */
  lemma {:induction false} LastNPush<T>(s: seq<T>, x: T)
    ensures PushBounded(LastN(s, MaxDataPoints), x) == LastN(s + [x], MaxDataPoints)
  {
    var n := MaxDataPoints;
    var w := LastN(s, n);
    var t := s + [x];
    if |s| < n {
      assert |t| <= n;
    } else if |s| == n {
      assert w == s;
      assert (w + [x])[1..] == t[|t| - n..];
    } else {
      assert w == s[|s| - n..];
      assert (w + [x])[1..] == s[|s| - n + 1..] + [x];
      assert t[|t| - n..] == s[|s| - n + 1..] + [x];
    }
  }

  /** A stream message: unparseable text, a JSON `null`, or an object. */
  datatype Message = Malformed | NullPayload | Payload(sample: Sample)

  /** The parts of a stream object the controller reads. A percent is absent
      when its group or its field is missing. `displayFault` marks an object on
      which the metric display throws before the chart is touched (a load
      average present but not a number). */
  datatype Sample = Sample(cpu: Option<real>, memory: Option<real>, disk: Option<real>, displayFault: bool)

  datatype Channel = CpuChannel | MemoryChannel | DiskChannel

  /** `data.<channel>?.percent || 0`: a missing (or zero) percent is charted as 0. */
  function Percent(s: Sample, c: Channel): (r: real)
    ensures Field(s, c) == None ==> r == 0.0
    ensures Field(s, c).Some? ==> r == Field(s, c).value
  {
    match c
    case CpuChannel => GetOr(s.cpu, 0.0)
    case MemoryChannel => GetOr(s.memory, 0.0)
    case DiskChannel => GetOr(s.disk, 0.0)
  }

  function Field(s: Sample, c: Channel): Option<real>
  {
    match c
    case CpuChannel => s.cpu
    case MemoryChannel => s.memory
    case DiskChannel => s.disk
  }

  /** The values charted on one channel for a history of samples. */
  function ChannelHistory(h: seq<Sample>, c: Channel): (r: seq<real>)
    ensures |r| == |h|
  {
    seq(|h|, i requires 0 <= i < |h| => Percent(h[i], c))
  }

  lemma ChannelHistoryPush(h: seq<Sample>, s: Sample, c: Channel)
    ensures ChannelHistory(h + [s], c) == ChannelHistory(h, c) + [Percent(s, c)]
  {
  }

  // ---------------------------------------------------------------- indicators

  datatype Tier = Normal | WarningTier | CriticalTier

  /** The tier of `value` against a warning and a critical cutoff. */
  function Classify(value: real, warning: real, critical: real): Tier
  {
    if value >= critical then CriticalTier
    else if value >= warning then WarningTier
    else Normal
  }

  /** Both directions of the colouring rule. */
  lemma ClassifyIff(value: real, warning: real, critical: real)
    ensures Classify(value, warning, critical) == CriticalTier <==> value >= critical
    ensures Classify(value, warning, critical) == WarningTier <==> warning <= value < critical
    ensures Classify(value, warning, critical) == Normal <==> value < warning && value < critical
  {
  }

  /** With ordered cutoffs a larger value never gets a lower tier. */
  lemma ClassifyMonotone(v1: real, v2: real, warning: real, critical: real)
    requires warning <= critical && v1 <= v2
    ensures Rank(Classify(v1, warning, critical)) <= Rank(Classify(v2, warning, critical))
  {
  }

  function Rank(t: Tier): nat
  {
    match t
    case Normal => 0
    case WarningTier => 1
    case CriticalTier => 2
  }

  /** The classes the indicator code owns; every update removes them first. */
  const TierClassNames: set<string> := {"text-warning", "text-danger", "metric-critical"}

  function ClassesFor(t: Tier): set<string>
  {
    match t
    case CriticalTier => {"text-danger", "metric-critical"}
    case WarningTier => {"text-warning"}
    case Normal => {}
  }

  /** The class lists after colouring element `id` for tier `t`; a missing
      element is left alone. */
  function Recolor(indicators: map<string, set<string>>, id: string, t: Tier): map<string, set<string>>
  {
    if id in indicators then indicators[id := (indicators[id] - TierClassNames) + ClassesFor(t)]
    else indicators
  }

  /** After colouring, the element carries exactly the tier's classes among the
      indicator classes, keeps all its other classes, and no other element
      changes. */
  lemma RecolorSpec(indicators: map<string, set<string>>, id: string, t: Tier)
    ensures Recolor(indicators, id, t).Keys == indicators.Keys
    ensures id in indicators ==>
      Recolor(indicators, id, t)[id] * TierClassNames == ClassesFor(t)
      && Recolor(indicators, id, t)[id] - TierClassNames == indicators[id] - TierClassNames
    ensures forall other :: other in indicators && other != id ==>
      Recolor(indicators, id, t)[other] == indicators[other]
    ensures id !in indicators ==> Recolor(indicators, id, t) == indicators
  {
    if id in indicators {
      var r := Recolor(indicators, id, t)[id];
      assert ClassesFor(t) <= TierClassNames;
      assert r * TierClassNames == ClassesFor(t);
      assert r - TierClassNames == indicators[id] - TierClassNames;
    }
  }

  /** The colouring applied for one sample: cpu at 80/95, memory at 85/95,
      disk at 90/98. */
  function Indicators(indicators: map<string, set<string>>, s: Sample): map<string, set<string>>
  {
    var a := Recolor(indicators, "cpu-percent", Classify(Percent(s, CpuChannel), 80.0, 95.0));
    var b := Recolor(a, "memory-percent", Classify(Percent(s, MemoryChannel), 85.0, 95.0));
    Recolor(b, "disk-percent", Classify(Percent(s, DiskChannel), 90.0, 98.0))
  }

  /** Each headline indicator ends carrying the tier of its own metric. */
  lemma IndicatorsSpec(indicators: map<string, set<string>>, s: Sample)
    ensures Indicators(indicators, s).Keys == indicators.Keys
    ensures "cpu-percent" in indicators ==>
      Indicators(indicators, s)["cpu-percent"] * TierClassNames == ClassesFor(Classify(Percent(s, CpuChannel), 80.0, 95.0))
    ensures "memory-percent" in indicators ==>
      Indicators(indicators, s)["memory-percent"] * TierClassNames == ClassesFor(Classify(Percent(s, MemoryChannel), 85.0, 95.0))
    ensures "disk-percent" in indicators ==>
      Indicators(indicators, s)["disk-percent"] * TierClassNames == ClassesFor(Classify(Percent(s, DiskChannel), 90.0, 98.0))
    ensures forall other :: other in indicators && other !in {"cpu-percent", "memory-percent", "disk-percent"} ==>
      Indicators(indicators, s)[other] == indicators[other]
  {
    var ct := Classify(Percent(s, CpuChannel), 80.0, 95.0);
    var mt := Classify(Percent(s, MemoryChannel), 85.0, 95.0);
    var dt := Classify(Percent(s, DiskChannel), 90.0, 98.0);
    var a := Recolor(indicators, "cpu-percent", ct);
    var b := Recolor(a, "memory-percent", mt);
    RecolorSpec(indicators, "cpu-percent", ct);
    RecolorSpec(a, "memory-percent", mt);
    RecolorSpec(b, "disk-percent", dt);
  }

  // ---------------------------------------------------------------- recommendations

  /** The fields of a recommendation the list shows; an absent title or
      description is the empty string, an absent or non-numeric priority is None. */
  datatype RecommendationView = RecommendationView(id: string, priority: Option<int>, title: string, description: string)

  datatype Card = Card(cardClass: string, badgeColor: string, title: string, description: string, recommendationId: string)

  datatype Rendering = Placeholder | Cards(cards: seq<Card>)

  /** Priority 4 shows as high, 3 as medium, anything else as low. */
  function PriorityClass(p: Option<int>): string
  {
    if p == Some(4) then "high" else if p == Some(3) then "medium" else "low"
  }

  function BadgeColor(p: Option<int>): string
  {
    if p == Some(4) then "danger" else if p == Some(3) then "warning" else "success"
  }

  lemma PriorityStyleIff(p: Option<int>)
    ensures PriorityClass(p) == "high" <==> BadgeColor(p) == "danger"
    ensures PriorityClass(p) == "high" <==> p == Some(4)
    ensures PriorityClass(p) == "medium" <==> BadgeColor(p) == "warning"
    ensures PriorityClass(p) == "medium" <==> p == Some(3)
    ensures PriorityClass(p) == "low" <==> BadgeColor(p) == "success"
    ensures PriorityClass(p) == "low" <==> p != Some(4) && p != Some(3)
  {
  }

  function CardFor(r: RecommendationView): Card
  {
    Card(PriorityClass(r.priority), BadgeColor(r.priority),
         if r.title == "" then "Recomendación" else r.title, r.description, r.id)
  }

  /** `renderRecommendations`: a placeholder for an empty list, otherwise one
      card per recommendation in list order. */
  function RenderRecommendations(recs: seq<RecommendationView>): (r: Rendering)
    ensures r.Placeholder? <==> recs == []
    ensures r.Cards? ==>
              |r.cards| == |recs|
              && forall i :: 0 <= i < |recs| ==>
                   r.cards[i].cardClass == PriorityClass(recs[i].priority)
                   && r.cards[i].badgeColor == BadgeColor(recs[i].priority)
                   && r.cards[i].recommendationId == recs[i].id
                   && r.cards[i].description == recs[i].description
                   && (recs[i].title != "" ==> r.cards[i].title == recs[i].title)
                   && (recs[i].title == "" ==> r.cards[i].title == "Recomendación")
  {
    if recs == [] then Placeholder else Cards(seq(|recs|, i requires 0 <= i < |recs| => CardFor(recs[i])))
  }

  // ---------------------------------------------------------------- controller

  /** What a scheduled callback does; `UpdateDashboard` is the periodic
      refresh of the metric texts. */
  datatype Action = Reconnect | ReloadPage | RemoveNotification(index: nat) | UpdateDashboard

  /** A `setTimeout` callback waiting to run. */
  datatype Timer = Timer(delayMs: nat, action: Action)

  datatype NoticeType = Success | Error | Info

  datatype Notification = Notification(kind: NoticeType, message: string)

  /** A POST the page sent. */
  datatype Request = RecommendationAction(action: string, recommendationId: string) | ManualOptimizationRequest(service: string)

  /** How a POST ended: the fetch or the JSON decoding failed, or the backend
      replied with its `success` flag. */
  datatype Outcome = Failed | Replied(success: bool)

  /** `array.push(x)` followed by `array.shift()` when the array is now
      longer than the bound. */
  method PushShift<T>(w: seq<T>, x: T) returns (r: seq<T>)
    ensures r == PushBounded(w, x)
    ensures r[|r| - 1] == x
  {
    r := w + [x];
    if |r| > MaxDataPoints {
      r := r[1..];
    }
  }

  /** `charts.performance.data`: the label axis and the cpu, memory and disk
      datasets, each a bounded FIFO of at most 50 points. */
  class PerformanceChart {
    var labels: seq<string>
    var cpuData: seq<real>
    var memoryData: seq<real>
    var diskData: seq<real>
    /** Every label and sample ever charted, oldest first. */
    ghost var labelHistory: seq<string>
    ghost var sampleHistory: seq<Sample>

    /** The chart shows the last 50 points of everything charted. */
    ghost predicate Valid()
      reads this
    {
      |labelHistory| == |sampleHistory|
      && labels == LastN(labelHistory, MaxDataPoints)
      && cpuData == LastN(ChannelHistory(sampleHistory, CpuChannel), MaxDataPoints)
      && memoryData == LastN(ChannelHistory(sampleHistory, MemoryChannel), MaxDataPoints)
      && diskData == LastN(ChannelHistory(sampleHistory, DiskChannel), MaxDataPoints)
    }

    constructor ()
      ensures Valid()
      ensures labels == [] && cpuData == [] && memoryData == [] && diskData == []
      ensures labelHistory == [] && sampleHistory == []
    {
      labels, cpuData, memoryData, diskData := [], [], [], [];
      labelHistory, sampleHistory := [], [];
    }

    /** `addChartData`: push the label and the three percents, then drop the
        oldest point of any array longer than 50. */
    method AddChartData(sample: Sample, timeLabel: string)
      requires Valid()
      modifies this
      ensures Valid()
      ensures labelHistory == old(labelHistory) + [timeLabel]
      ensures sampleHistory == old(sampleHistory) + [sample]
      ensures labels == PushBounded(old(labels), timeLabel)
      ensures cpuData == PushBounded(old(cpuData), Percent(sample, CpuChannel))
      ensures memoryData == PushBounded(old(memoryData), Percent(sample, MemoryChannel))
      ensures diskData == PushBounded(old(diskData), Percent(sample, DiskChannel))
    {
      LastNPush(labelHistory, timeLabel);
      ChannelHistoryPush(sampleHistory, sample, CpuChannel);
      ChannelHistoryPush(sampleHistory, sample, MemoryChannel);
      ChannelHistoryPush(sampleHistory, sample, DiskChannel);
      LastNPush(ChannelHistory(sampleHistory, CpuChannel), Percent(sample, CpuChannel));
      LastNPush(ChannelHistory(sampleHistory, MemoryChannel), Percent(sample, MemoryChannel));
      LastNPush(ChannelHistory(sampleHistory, DiskChannel), Percent(sample, DiskChannel));

      labels := PushShift(labels, timeLabel);
      cpuData := PushShift(cpuData, Percent(sample, CpuChannel));
      memoryData := PushShift(memoryData, Percent(sample, MemoryChannel));
      diskData := PushShift(diskData, Percent(sample, DiskChannel));
      labelHistory, sampleHistory := labelHistory + [timeLabel], sampleHistory + [sample];
    }
  }

  /** After any sequence of pushes, every array of the chart holds
      min(n, 50) points, where n is the number of pushes. */
  lemma ChartWindowLengths(c: PerformanceChart)
    requires c.Valid()
    ensures var n := |c.labelHistory|;
      |c.labels| == |c.cpuData| == |c.memoryData| == |c.diskData| == (if n < MaxDataPoints then n else MaxDataPoints)
  {
  }

  /** The points on the chart are the most recent ones, in arrival order, and
      each dataset point belongs to the sample its label was pushed with. */
  lemma ChartWindowContents(c: PerformanceChart, i: int)
    requires c.Valid() && 0 <= i < |c.labels|
    ensures var k := |c.labelHistory| - |c.labels| + i;
      0 <= k < |c.labelHistory|
      && c.labels[i] == c.labelHistory[k]
      && c.cpuData[i] == Percent(c.sampleHistory[k], CpuChannel)
      && c.memoryData[i] == Percent(c.sampleHistory[k], MemoryChannel)
      && c.diskData[i] == Percent(c.sampleHistory[k], DiskChannel)
  {
    LastNAt(c.labelHistory, i);
    LastNAt(ChannelHistory(c.sampleHistory, CpuChannel), i);
    LastNAt(ChannelHistory(c.sampleHistory, MemoryChannel), i);
    LastNAt(ChannelHistory(c.sampleHistory, DiskChannel), i);
  }

  class DashboardManager {
    const chart: PerformanceChart
    /** The class list of every indicator element on the page, by element id. */
    var indicators: map<string, set<string>>
    /** Number of event streams opened so far. */
    var eventSources: nat
    /** Callbacks scheduled with `setTimeout`, in scheduling order. */
    var timers: seq<Timer>
    /** Callbacks registered with `setInterval`, which fire again every period. */
    var intervals: seq<Timer>
    var notifications: seq<Notification>
    var requests: seq<Request>
    /** Number of times the recommendation list was (re)loaded. */
    var recommendationLoads: nat

    ghost predicate Valid()
      reads this, chart
    {
      chart.Valid()
    }

    /** The page-load setup: an empty chart, one stream opened, the
        recommendation list loaded once, and the dashboard refresh repeating
        every 5000 ms. */
    constructor (pageIndicators: map<string, set<string>>)
      ensures Valid() && fresh(chart)
      ensures chart.labels == [] && chart.labelHistory == []
      ensures indicators == pageIndicators
      ensures eventSources == 1 && timers == [] && notifications == [] && requests == []
      ensures intervals == [Timer(UpdateIntervalMs, UpdateDashboard)]
      ensures recommendationLoads == 1
    {
      chart := new PerformanceChart();
      indicators := pageIndicators;
      eventSources := 1;
      timers, notifications, requests := [], [], [];
      intervals := [Timer(UpdateIntervalMs, UpdateDashboard)];
      recommendationLoads := 1;
    }

    /** `updateIndicatorColor`: nothing for a missing element; otherwise the
        indicator classes are removed and the tier's classes added. */
    method UpdateIndicatorColor(elementId: string, value: real, warningThreshold: real, criticalThreshold: real)
      modifies this
      ensures intervals == old(intervals)
      ensures indicators == Recolor(old(indicators), elementId, Classify(value, warningThreshold, criticalThreshold))
      ensures eventSources == old(eventSources) && timers == old(timers) && notifications == old(notifications)
      ensures requests == old(requests) && recommendationLoads == old(recommendationLoads)
    {
      if elementId !in indicators {
        return;
      }
      var classes := indicators[elementId] - TierClassNames;
      if value >= criticalThreshold {
        classes := classes + {"text-danger", "metric-critical"};
      } else if value >= warningThreshold {
        classes := classes + {"text-warning"};
      } else {
        assert classes == classes + ClassesFor(Normal);
      }
      indicators := indicators[elementId := classes];
    }

    /** `updateVisualIndicators`: colour cpu, memory and disk with their cutoffs. */
    method UpdateVisualIndicators(sample: Sample)
      modifies this
      ensures intervals == old(intervals)
      ensures indicators == Indicators(old(indicators), sample)
      ensures eventSources == old(eventSources) && timers == old(timers) && notifications == old(notifications)
      ensures requests == old(requests) && recommendationLoads == old(recommendationLoads)
    {
      UpdateIndicatorColor("cpu-percent", Percent(sample, CpuChannel), 80.0, 95.0);
      UpdateIndicatorColor("memory-percent", Percent(sample, MemoryChannel), 85.0, 95.0);
      UpdateIndicatorColor("disk-percent", Percent(sample, DiskChannel), 90.0, 98.0);
    }

    /** The stream's `onmessage`: an unparseable message, a `null` payload or
        a payload whose metric display throws is dropped (the error is only
        logged); otherwise the point is charted and the indicators coloured. */
    method OnStreamMessage(msg: Message, timeLabel: string)
      requires Valid()
      modifies this, chart
      ensures intervals == old(intervals)
      ensures Valid()
      ensures (msg.Malformed? || msg.NullPayload? || msg.sample.displayFault) ==>
        chart.labels == old(chart.labels) && chart.labelHistory == old(chart.labelHistory)
        && chart.sampleHistory == old(chart.sampleHistory) && indicators == old(indicators)
      ensures msg.Payload? && !msg.sample.displayFault ==>
        chart.labelHistory == old(chart.labelHistory) + [timeLabel]
        && chart.sampleHistory == old(chart.sampleHistory) + [msg.sample]
        && indicators == Indicators(old(indicators), msg.sample)
      ensures eventSources == old(eventSources) && timers == old(timers)
      ensures notifications == old(notifications) && requests == old(requests)
      ensures recommendationLoads == old(recommendationLoads)
    {
      match msg
      case Malformed =>
      case NullPayload =>
      case Payload(sample) =>
        if !sample.displayFault {
          chart.AddChartData(sample, timeLabel);
          UpdateVisualIndicators(sample);
        }
    }

    /** The stream's `onerror`: schedule a reconnect in 5000 ms. The failed
        stream is not closed, so every error adds another pending reconnect. */
    method OnStreamError()
      modifies this
      ensures intervals == old(intervals)
      ensures timers == old(timers) + [Timer(ReconnectDelayMs, Reconnect)]
      ensures eventSources == old(eventSources) && indicators == old(indicators)
      ensures notifications == old(notifications) && requests == old(requests)
      ensures recommendationLoads == old(recommendationLoads)
    {
      timers := timers + [Timer(ReconnectDelayMs, Reconnect)];
    }

    /** `connectRealTimeUpdates`, as run when a reconnect timer fires: open a new stream. */
    method ConnectRealTimeUpdates()
      modifies this
      ensures intervals == old(intervals)
      ensures eventSources == old(eventSources) + 1
      ensures timers == old(timers) && indicators == old(indicators)
      ensures notifications == old(notifications) && requests == old(requests)
      ensures recommendationLoads == old(recommendationLoads)
    {
      eventSources := eventSources + 1;
    }

    /** `showNotification`: add the toast and schedule its removal. */
    method ShowNotification(kind: NoticeType, message: string)
      modifies this
      ensures intervals == old(intervals)
      ensures notifications == old(notifications) + [Notification(kind, message)]
      ensures timers == old(timers) + [Timer(NotificationLifetimeMs, RemoveNotification(|old(notifications)|))]
      ensures indicators == old(indicators) && eventSources == old(eventSources)
      ensures requests == old(requests) && recommendationLoads == old(recommendationLoads)
    {
      timers := timers + [Timer(NotificationLifetimeMs, RemoveNotification(|notifications|))];
      notifications := notifications + [Notification(kind, message)];
    }

    /** The reply handling shared by the implement and dismiss buttons: a
        success notice and a reload of the list on success, an error notice
        otherwise. */
    method PostRecommendationAction(action: string, recId: string, outcome: Outcome, done: string, failed: string)
      modifies this
      ensures intervals == old(intervals)
      ensures requests == old(requests) + [RecommendationAction(action, recId)]
      ensures notifications == old(notifications) +
        [if outcome == Replied(true) then Notification(Success, done) else Notification(Error, failed)]
      ensures recommendationLoads == old(recommendationLoads) + (if outcome == Replied(true) then 1 else 0)
      ensures timers == old(timers) + [Timer(NotificationLifetimeMs, RemoveNotification(|old(notifications)|))]
      ensures indicators == old(indicators) && eventSources == old(eventSources)
    {
      requests := requests + [RecommendationAction(action, recId)];
      match outcome
      case Failed =>
        ShowNotification(Error, failed);
      case Replied(success) =>
        ShowNotification(if success then Success else Error, if success then done else failed);
        if success {
          recommendationLoads := recommendationLoads + 1;
        }
    }

    /** `implementRecommendation`: POST the implement action; reload the list only on success. */
    method ImplementRecommendation(recId: string, outcome: Outcome)
      modifies this
      ensures intervals == old(intervals)
      ensures requests == old(requests) + [RecommendationAction("implement", recId)]
      ensures notifications == old(notifications) +
        [if outcome == Replied(true) then Notification(Success, "Recomendación implementada")
         else Notification(Error, "Error implementando recomendación")]
      ensures recommendationLoads == old(recommendationLoads) + (if outcome == Replied(true) then 1 else 0)
      ensures timers == old(timers) + [Timer(NotificationLifetimeMs, RemoveNotification(|old(notifications)|))]
      ensures indicators == old(indicators) && eventSources == old(eventSources)
    {
      PostRecommendationAction("implement", recId, outcome, "Recomendación implementada", "Error implementando recomendación");
    }

    /** `dismissRecommendation`: POST the dismiss action; reload the list only on success. */
    method DismissRecommendation(recId: string, outcome: Outcome)
      modifies this
      ensures intervals == old(intervals)
      ensures requests == old(requests) + [RecommendationAction("dismiss", recId)]
      ensures notifications == old(notifications) +
        [if outcome == Replied(true) then Notification(Success, "Recomendación descartada")
         else Notification(Error, "Error descartando recomendación")]
      ensures recommendationLoads == old(recommendationLoads) + (if outcome == Replied(true) then 1 else 0)
      ensures timers == old(timers) + [Timer(NotificationLifetimeMs, RemoveNotification(|old(notifications)|))]
      ensures indicators == old(indicators) && eventSources == old(eventSources)
    {
      PostRecommendationAction("dismiss", recId, outcome, "Recomendación descartada", "Error descartando recomendación");
    }

    /** `manualOptimization`: nothing without confirmation; otherwise POST
        `{service: 'all'}`, notify, and on success schedule a page reload in
        2000 ms. */
    method ManualOptimization(confirmed: bool, outcome: Outcome)
      modifies this
      ensures intervals == old(intervals)
      ensures !confirmed ==> requests == old(requests) && notifications == old(notifications) && timers == old(timers)
      ensures confirmed ==> requests == old(requests) + [ManualOptimizationRequest("all")]
      ensures confirmed && outcome == Replied(true) ==>
        notifications == old(notifications) + [Notification(Success, "Optimización completada")]
        && timers == old(timers) + [Timer(NotificationLifetimeMs, RemoveNotification(|old(notifications)|)), Timer(ReloadDelayMs, ReloadPage)]
      ensures confirmed && outcome == Replied(false) ==>
        notifications == old(notifications) + [Notification(Error, "Error en optimización")]
        && timers == old(timers) + [Timer(NotificationLifetimeMs, RemoveNotification(|old(notifications)|))]
      ensures confirmed && outcome == Failed ==>
        notifications == old(notifications) + [Notification(Error, "Error ejecutando optimización")]
        && timers == old(timers) + [Timer(NotificationLifetimeMs, RemoveNotification(|old(notifications)|))]
      ensures indicators == old(indicators) && eventSources == old(eventSources)
      ensures recommendationLoads == old(recommendationLoads)
    {
      if !confirmed {
        return;
      }
      requests := requests + [ManualOptimizationRequest("all")];
      match outcome
      case Failed =>
        ShowNotification(Error, "Error ejecutando optimización");
      case Replied(success) =>
        ShowNotification(if success then Success else Error,
                         if success then "Optimización completada" else "Error en optimización");
        if success {
          timers := timers + [Timer(ReloadDelayMs, ReloadPage)];
        }
    }
  }


  /** Whatever replies arrive, a page reload is only ever scheduled by a
      confirmed manual optimization that succeeded. */
  lemma ReloadOnlyOnSuccess(before: seq<Timer>, after: seq<Timer>, confirmed: bool, outcome: Outcome, n: nat)
    requires confirmed && outcome == Replied(true) ==>
      after == before + [Timer(NotificationLifetimeMs, RemoveNotification(n)), Timer(ReloadDelayMs, ReloadPage)]
    requires confirmed && outcome != Replied(true) ==>
      after == before + [Timer(NotificationLifetimeMs, RemoveNotification(n))]
    requires !confirmed ==> after == before
    ensures CountReloads(after) == CountReloads(before) + (if confirmed && outcome == Replied(true) then 1 else 0)
  {
    if confirmed && outcome == Replied(true) {
      CountReloadsAppend(before, [Timer(NotificationLifetimeMs, RemoveNotification(n)), Timer(ReloadDelayMs, ReloadPage)]);
      var added := [Timer(NotificationLifetimeMs, RemoveNotification(n)), Timer(ReloadDelayMs, ReloadPage)];
      assert added[1..] == [Timer(ReloadDelayMs, ReloadPage)];
      assert [Timer(ReloadDelayMs, ReloadPage)][1..] == [];
      assert CountReloads(added) == 1;
    } else if confirmed {
      var added := [Timer(NotificationLifetimeMs, RemoveNotification(n))];
      assert added[1..] == [];
      CountReloadsAppend(before, added);
    }
  }

  function CountReloads(ts: seq<Timer>): nat
  {
    if ts == [] then 0 else (if ts[0].action == ReloadPage then 1 else 0) + CountReloads(ts[1..])
  }

  lemma {:induction false} CountReloadsAppend(a: seq<Timer>, b: seq<Timer>)
    ensures CountReloads(a + b) == CountReloads(a) + CountReloads(b)
  {
    if a == [] {
      assert a + b == b;
    } else {
      assert (a + b)[0] == a[0];
      assert (a + b)[1..] == a[1..] + b;
      CountReloadsAppend(a[1..], b);
    }
  }
}
