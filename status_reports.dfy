/** The two validators of the status-report generator: the dotted-quad IPv4 check
    used when collecting blocked addresses, and the threshold check that turns
    collected metrics into alerts. */
module StatusReports {
  import opened Common

  // ---------------------------------------------------------------- IPv4

  /** A dotted part passes `part.isdigit()` and `0 <= int(part) <= 255`. */
  predicate IsOctet(part: string)
  {
    |part| >= 1 && AllDigits(part) && DecimalValue(part) <= 255
  }

  /** The loop over the parts, returning False at the first bad one. */
  function AllOctets(parts: seq<string>): bool
  {
    if parts == [] then true
    else if !IsOctet(parts[0]) then false
    else AllOctets(parts[1..])
  }

  /** `is_valid_ip`: exactly four dot-separated parts, each a decimal number
      of at most 255. Total: no input raises, so the source's catch-all never
      changes the answer. */
  function IsValidIp(ip: string): bool
  {
    var parts := Split(ip, '.');
    |parts| == 4 && AllOctets(parts)
  }

  lemma {:induction false} AllOctetsIff(parts: seq<string>)
    ensures AllOctets(parts) <==> forall k :: 0 <= k < |parts| ==> IsOctet(parts[k])
  {
    if parts != [] {
      AllOctetsIff(parts[1..]);
      assert forall k :: 1 <= k < |parts| ==> parts[k] == parts[1..][k - 1];
    }
  }

  /** The validator accepts exactly the strings with four parts that are all octets. */
  lemma IsValidIpIff(ip: string)
    ensures IsValidIp(ip) <==>
      (var parts := Split(ip, '.');
       |parts| == 4 && forall k :: 0 <= k < 4 ==> IsOctet(parts[k]))
  {
    AllOctetsIff(Split(ip, '.'));
  }

  /** The canonical dotted-quad rendering of four octets. */
  function FormatIp(a: nat, b: nat, c: nat, d: nat): string
    requires a <= 255 && b <= 255 && c <= 255 && d <= 255
  {
    Join([NatToString(a), NatToString(b), NatToString(c), NatToString(d)], '.')
  }

  lemma DigitsHaveNoDot(s: string)
    requires AllDigits(s)
    ensures '.' !in s
  {
    forall i | 0 <= i < |s|
      ensures s[i] != '.'
    {
      assert IsDigit(s[i]);
    }
  }

  /** Every rendered address is accepted, and its parts read back as the octets. */
  lemma FormatIpIsValid(a: nat, b: nat, c: nat, d: nat)
    requires a <= 255 && b <= 255 && c <= 255 && d <= 255
    ensures IsValidIp(FormatIp(a, b, c, d))
    ensures Split(FormatIp(a, b, c, d), '.') == [NatToString(a), NatToString(b), NatToString(c), NatToString(d)]
    ensures var parts := Split(FormatIp(a, b, c, d), '.');
      DecimalValue(parts[0]) == a && DecimalValue(parts[1]) == b
      && DecimalValue(parts[2]) == c && DecimalValue(parts[3]) == d
  {
    var parts := [NatToString(a), NatToString(b), NatToString(c), NatToString(d)];
    forall k | 0 <= k < 4
      ensures '.' !in parts[k]
    {
      DigitsHaveNoDot(parts[k]);
    }
    SplitJoin(parts, '.');
    DecimalValueOfNatToString(a);
    DecimalValueOfNatToString(b);
    DecimalValueOfNatToString(c);
    DecimalValueOfNatToString(d);
    AllOctetsIff(parts);
  }

  /** Splits a literal address whose pieces are given. */
  lemma SplitsAs(ip: string, parts: seq<string>)
    requires |parts| >= 1 && forall k :: 0 <= k < |parts| ==> '.' !in parts[k]
    requires ip == Join(parts, '.')
    ensures Split(ip, '.') == parts
  {
    SplitJoin(parts, '.');
  }

  /** Too few or too many parts are rejected. */
  lemma IsValidIpRejectsPartCount()
    ensures !IsValidIp("1.2.3")
    ensures !IsValidIp("1.2.3.4.5")
  {
    SplitsAs("1.2.3", ["1", "2", "3"]);
    SplitsAs("1.2.3.4.5", ["1", "2", "3", "4", "5"]);
  }

  /** An empty part is rejected. */
  lemma IsValidIpRejectsEmptyPart()
    ensures !IsValidIp("1..3.4")
  {
    SplitsAs("1..3.4", ["1", "", "3", "4"]);
  }

  /** A sign is rejected, as `"-1".isdigit()` is false. */
  lemma IsValidIpRejectsSign()
    ensures !IsValidIp("-1.2.3.4")
  {
    SplitsAs("-1.2.3.4", ["-1", "2", "3", "4"]);
    assert !IsDigit("-1"[0]);
  }

  /** A part above 255 is rejected. */
  lemma IsValidIpRejectsLargePart()
    ensures !IsValidIp("256.1.1.1")
  {
    SplitsAs("256.1.1.1", ["256", "1", "1", "1"]);
    assert DecimalValue("256") == 256 by {
      assert "256"[..2] == "25";
      assert "25"[..1] == "2";
    }
  }

  /** Leading zeros are accepted, as `int("01")` reads them as decimal. */
  lemma IsValidIpAcceptsLeadingZeros()
    ensures IsValidIp("01.2.3.4")
  {
    SplitsAs("01.2.3.4", ["01", "2", "3", "4"]);
    assert IsOctet("01") by {
      assert "01"[..1] == "0";
    }
    AllOctetsIff(["01", "2", "3", "4"]);
  }

  // ---------------------------------------------------------------- alerts

  datatype Severity = Warning | Critical

  /** The `type` field of an alert. */
  datatype AlertKind = CpuUsage | MemoryUsage | DiskUsage | ResponseTime | SslExpired | SslExpiringSoon | FailedLogins

  datatype Alert = Alert(kind: AlertKind, severity: Severity, threshold: real, currentValue: real)

  /** The configurable thresholds (`config["alerts"]["thresholds"]`). */
  datatype Thresholds = Thresholds(cpuUsage: real, memoryUsage: real, diskUsage: real, responseTime: real)

  /** The defaults of the report generator's configuration. */
  const DefaultThresholds := Thresholds(80.0, 85.0, 90.0, 2000.0)

  /** The number of failed logins in 24 hours above which an alert is raised. */
  const FailedLoginLimit: real := 20.0

  /** The collected metrics: a dictionary, as key-value pairs in insertion order. */
  type Metrics = seq<(string, real)>

  function Lookup(m: Metrics, key: string): Option<real>
  {
    if m == [] then None
    else if m[0].0 == key then Some(m[0].1)
    else Lookup(m[1..], key)
  }

  /** True when `key` is present with a value strictly above `limit`. */
  predicate Exceeds(m: Metrics, key: string, limit: real)
  {
    Lookup(m, key).Some? && Lookup(m, key).value > limit
  }

  /** One alert of `kind` when `key` is present and strictly above `limit`. */
  function Above(m: Metrics, key: string, limit: real, kind: AlertKind, severity: Severity): seq<Alert>
  {
    if Exceeds(m, key, limit) then [Alert(kind, severity, limit, Lookup(m, key).value)] else []
  }

  predicate IsDiskKey(key: string)
  {
    Contains(key, "disk_usage_percent")
  }

  function DiskAlert(entry: (string, real), limit: real): seq<Alert>
  {
    if IsDiskKey(entry.0) && entry.1 > limit then [Alert(DiskUsage, Critical, limit, entry.1)] else []
  }

  /** The disk alerts of the loop over all entries, in dictionary order. */
  function DiskAlerts(m: Metrics, limit: real): seq<Alert>
  {
    if m == [] then [] else DiskAlerts(m[..|m| - 1], limit) + DiskAlert(m[|m| - 1], limit)
  }

  /** The checks made before the disk loop. */
  function EarlyAlerts(t: Thresholds, m: Metrics): seq<Alert>
  {
    Above(m, "cpu_usage", t.cpuUsage, CpuUsage, Warning)
    + Above(m, "memory_usage_percent", t.memoryUsage, MemoryUsage, Warning)
  }

  /** The checks made after the disk loop. */
  function LateAlerts(t: Thresholds, m: Metrics): seq<Alert>
  {
    Above(m, "virtualmin_response_time", t.responseTime, ResponseTime, Warning)
    + Above(m, "ssl_expired_certs", 0.0, SslExpired, Critical)
    + Above(m, "ssl_expiring_soon_certs", 0.0, SslExpiringSoon, Warning)
    + Above(m, "failed_login_attempts_24h", FailedLoginLimit, FailedLogins, Warning)
  }

  /** The alerts `check_alerts` returns, in the order it appends them. */
  function Alerts(enabled: bool, t: Thresholds, m: Metrics): seq<Alert>
  {
    if !enabled then [] else EarlyAlerts(t, m) + DiskAlerts(m, t.diskUsage) + LateAlerts(t, m)
  }

  /** `check_alerts`: the fixed checks in order, with a loop over every metric
      whose key mentions disk usage. */
  method CheckAlerts(enabled: bool, t: Thresholds, metrics: Metrics) returns (alerts: seq<Alert>)
    ensures alerts == Alerts(enabled, t, metrics)
  {
    if !enabled {
      return [];
    }
    alerts := Above(metrics, "cpu_usage", t.cpuUsage, CpuUsage, Warning);
    alerts := alerts + Above(metrics, "memory_usage_percent", t.memoryUsage, MemoryUsage, Warning);
    alerts := AppendDiskAlerts(alerts, metrics, t.diskUsage);
    ghost var middle := alerts;
    var response := Above(metrics, "virtualmin_response_time", t.responseTime, ResponseTime, Warning);
    var expired := Above(metrics, "ssl_expired_certs", 0.0, SslExpired, Critical);
    var expiring := Above(metrics, "ssl_expiring_soon_certs", 0.0, SslExpiringSoon, Warning);
    var logins := Above(metrics, "failed_login_attempts_24h", FailedLoginLimit, FailedLogins, Warning);
    alerts := alerts + response;
    alerts := alerts + expired;
    AppendAssoc(middle, response, expired);
    alerts := alerts + expiring;
    AppendAssoc(middle, response + expired, expiring);
    alerts := alerts + logins;
    AppendAssoc(middle, response + expired + expiring, logins);
    AppendAssoc(EarlyAlerts(t, metrics), DiskAlerts(metrics, t.diskUsage), LateAlerts(t, metrics));
  }

  /** The loop of `check_alerts` over every metric, appending a critical
      alert for each disk-usage key above the limit. */
  method AppendDiskAlerts(start: seq<Alert>, metrics: Metrics, limit: real) returns (alerts: seq<Alert>)
    ensures alerts == start + DiskAlerts(metrics, limit)
  {
    alerts := start;
    var i := 0;
    while i < |metrics|
      invariant 0 <= i <= |metrics|
      invariant alerts == start + DiskAlerts(metrics[..i], limit)
    {
      var (key, value) := metrics[i];
      if IsDiskKey(key) && value > limit {
        alerts := alerts + [Alert(DiskUsage, Critical, limit, value)];
      }
      assert DiskAlerts(metrics[..i + 1], limit) == DiskAlerts(metrics[..i], limit) + DiskAlert(metrics[i], limit) by {
        assert metrics[..i + 1][..i] == metrics[..i];
      }
      i := i + 1;
    }
    assert metrics[..i] == metrics;
  }

  lemma AppendAssoc<T>(a: seq<T>, b: seq<T>, c: seq<T>)
    ensures a + b + c == a + (b + c)
  {
  }

  function CountKind(alerts: seq<Alert>, kind: AlertKind): nat
  {
    if alerts == [] then 0
    else (if alerts[0].kind == kind then 1 else 0) + CountKind(alerts[1..], kind)
  }

  lemma {:induction false} CountKindAppend(a: seq<Alert>, b: seq<Alert>, kind: AlertKind)
    ensures CountKind(a + b, kind) == CountKind(a, kind) + CountKind(b, kind)
  {
    if a == [] {
      assert a + b == b;
    } else {
      assert (a + b)[0] == a[0];
      assert (a + b)[1..] == a[1..] + b;
      CountKindAppend(a[1..], b, kind);
    }
  }

  /** The number of entries whose key mentions disk usage and whose value is
      strictly above `limit`. */
  function CountDiskOver(m: Metrics, limit: real): nat
  {
    if m == [] then 0
    else CountDiskOver(m[..|m| - 1], limit) + (if IsDiskKey(m[|m| - 1].0) && m[|m| - 1].1 > limit then 1 else 0)
  }

  /** The disk loop yields one critical disk alert per disk-usage entry above
      the threshold, and alerts of no other kind. */
  lemma {:induction false} DiskAlertsCount(m: Metrics, limit: real, kind: AlertKind)
    ensures CountKind(DiskAlerts(m, limit), kind) == if kind == DiskUsage then CountDiskOver(m, limit) else 0
  {
    if m != [] {
      DiskAlertsCount(m[..|m| - 1], limit, kind);
      CountKindAppend(DiskAlerts(m[..|m| - 1], limit), DiskAlert(m[|m| - 1], limit), kind);
    }
  }

  lemma {:induction false} DiskAlertsShape(m: Metrics, limit: real)
    ensures forall a :: a in DiskAlerts(m, limit) ==>
      a.kind == DiskUsage && a.severity == Critical && a.threshold == limit && a.currentValue > limit
  {
    if m != [] {
      DiskAlertsShape(m[..|m| - 1], limit);
    }
  }

  lemma AboveCount(m: Metrics, key: string, limit: real, kind: AlertKind, severity: Severity, other: AlertKind)
    ensures CountKind(Above(m, key, limit, kind, severity), other) ==
            if other == kind && Exceeds(m, key, limit) then 1 else 0
  {
    if Exceeds(m, key, limit) {
      assert Above(m, key, limit, kind, severity)[1..] == [];
    }
  }

  function Indicator(b: bool): nat
  {
    if b then 1 else 0
  }

  /** Each fixed check contributes one alert of its kind exactly when its
      metric is present and strictly above its threshold; the disk check
      contributes one per disk-usage entry above the disk threshold. */
  lemma AlertsByKind(t: Thresholds, m: Metrics, kind: AlertKind)
    ensures CountKind(Alerts(true, t, m), kind) ==
      match kind
      case CpuUsage => Indicator(Exceeds(m, "cpu_usage", t.cpuUsage))
      case MemoryUsage => Indicator(Exceeds(m, "memory_usage_percent", t.memoryUsage))
      case DiskUsage => CountDiskOver(m, t.diskUsage)
      case ResponseTime => Indicator(Exceeds(m, "virtualmin_response_time", t.responseTime))
      case SslExpired => Indicator(Exceeds(m, "ssl_expired_certs", 0.0))
      case SslExpiringSoon => Indicator(Exceeds(m, "ssl_expiring_soon_certs", 0.0))
      case FailedLogins => Indicator(Exceeds(m, "failed_login_attempts_24h", 20.0))
  {
    var a1 := Above(m, "cpu_usage", t.cpuUsage, CpuUsage, Warning);
    var a2 := Above(m, "memory_usage_percent", t.memoryUsage, MemoryUsage, Warning);
    var a4 := Above(m, "virtualmin_response_time", t.responseTime, ResponseTime, Warning);
    var a5 := Above(m, "ssl_expired_certs", 0.0, SslExpired, Critical);
    var a6 := Above(m, "ssl_expiring_soon_certs", 0.0, SslExpiringSoon, Warning);
    var a7 := Above(m, "failed_login_attempts_24h", FailedLoginLimit, FailedLogins, Warning);
    var disk := DiskAlerts(m, t.diskUsage);
    CountKindAppend(a1, a2, kind);
    CountKindAppend(a4, a5, kind);
    CountKindAppend(a4 + a5, a6, kind);
    CountKindAppend(a4 + a5 + a6, a7, kind);
    CountKindAppend(a1 + a2, disk, kind);
    CountKindAppend(a1 + a2 + disk, a4 + a5 + a6 + a7, kind);
    AboveCount(m, "cpu_usage", t.cpuUsage, CpuUsage, Warning, kind);
    AboveCount(m, "memory_usage_percent", t.memoryUsage, MemoryUsage, Warning, kind);
    AboveCount(m, "virtualmin_response_time", t.responseTime, ResponseTime, Warning, kind);
    AboveCount(m, "ssl_expired_certs", 0.0, SslExpired, Critical, kind);
    AboveCount(m, "ssl_expiring_soon_certs", 0.0, SslExpiringSoon, Warning, kind);
    AboveCount(m, "failed_login_attempts_24h", FailedLoginLimit, FailedLogins, Warning, kind);
    DiskAlertsCount(m, t.diskUsage, kind);
  }

  predicate SeverityFits(a: Alert)
  {
    (a.severity == Critical <==> a.kind == DiskUsage || a.kind == SslExpired)
    && a.currentValue > a.threshold
  }

  /** Severity follows the kind: disk usage and expired certificates are
      critical, every other alert is a warning; every alert's value is
      strictly above the threshold it reports. With alerting disabled the
      list is empty. */
  lemma AlertSeverities(enabled: bool, t: Thresholds, m: Metrics)
    ensures forall a :: a in Alerts(enabled, t, m) ==> SeverityFits(a)
    ensures !enabled ==> Alerts(enabled, t, m) == []
  {
    if enabled {
      DiskAlertsShape(m, t.diskUsage);
      var early := EarlyAlerts(t, m);
      var late := LateAlerts(t, m);
      assert forall a :: a in early ==> SeverityFits(a);
      assert forall a :: a in late ==> SeverityFits(a);
    }
  }
}
