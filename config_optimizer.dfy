/** The tuning tables of the automatic configuration optimizer: Apache worker
    and keep-alive settings, MySQL buffer and connection sizing, PHP limits and
    kernel parameters, each chosen from the current load. */
module ConfigOptimizer {
  import opened Common

  /** `min(hi, max(lo, x))`. */
  function Clamp(lo: int, hi: int, x: int): (r: int)
    requires lo <= hi
    ensures lo <= r <= hi
    ensures lo <= x <= hi ==> r == x
    ensures x < lo ==> r == lo
    ensures x > hi ==> r == hi
  {
    if x < lo then lo else if x > hi then hi else x
  }

  function MinInt(a: int, b: int): (r: int)
    ensures r <= a && r <= b && (r == a || r == b)
  {
    if a < b then a else b
  }

  // ---------------------------------------------------------------- Apache

  datatype ApacheSettings = ApacheSettings(
    startServers: int,
    minSpareServers: int,
    maxSpareServers: int,
    maxRequestWorkers: int,
    maxConnectionsPerChild: int,
    keepAlive: string,
    maxKeepAliveRequests: int,
    keepAliveTimeout: int)

  predicate HighLoad(cpuPercent: real, memoryPercent: real)
  {
    cpuPercent > 80.0 || memoryPercent > 85.0
  }

  /** Under high load a small prefork pool; with many connections a large one;
      otherwise the default. Keep-alive is switched off above 70% CPU. */
  function ApacheOptimizations(cpuPercent: real, memoryPercent: real, activeConnections: int): (a: ApacheSettings)
    ensures HighLoad(cpuPercent, memoryPercent) ==>
      a.maxRequestWorkers == Clamp(32, 128, activeConnections * 2) && a.maxConnectionsPerChild == 5000
    ensures !HighLoad(cpuPercent, memoryPercent) && activeConnections > 100 ==>
      a.maxRequestWorkers == MinInt(512, activeConnections * 3) && 300 < a.maxRequestWorkers
    ensures !HighLoad(cpuPercent, memoryPercent) && activeConnections <= 100 ==> a.maxRequestWorkers == 256
    ensures 32 <= a.maxRequestWorkers <= 512
    ensures 1 <= a.minSpareServers < a.startServers < a.maxSpareServers
    ensures a.keepAlive == "Off" <==> cpuPercent > 70.0
    ensures a.keepAlive == "Off" ==> a.maxKeepAliveRequests == 50 && a.keepAliveTimeout == 2
    ensures a.keepAlive == "On" || a.keepAlive == "Off"
  {
    var base :=
      if HighLoad(cpuPercent, memoryPercent) then
        ApacheSettings(2, 1, 3, MinInt(128, if 32 > activeConnections * 2 then 32 else activeConnections * 2), 5000, "", 0, 0)
      else if activeConnections > 100 then
        ApacheSettings(4, 3, 10, MinInt(512, activeConnections * 3), 10000, "", 0, 0)
      else
        ApacheSettings(3, 2, 5, 256, 10000, "", 0, 0);
    if cpuPercent > 70.0 then base.(keepAlive := "Off", maxKeepAliveRequests := 50, keepAliveTimeout := 2)
    else base.(keepAlive := "On", maxKeepAliveRequests := 500, keepAliveTimeout := 5)
  }

  /** More connections never mean fewer workers within one load tier. */
  lemma ApacheWorkersMonotone(cpuPercent: real, memoryPercent: real, c1: int, c2: int)
    requires c1 <= c2 && (c1 > 100 <==> c2 > 100)
    ensures ApacheOptimizations(cpuPercent, memoryPercent, c1).maxRequestWorkers
         <= ApacheOptimizations(cpuPercent, memoryPercent, c2).maxRequestWorkers
  {
  }

  // ---------------------------------------------------------------- MySQL

  datatype MysqlSettings = MysqlSettings(
    innodbBufferPoolSize: string,
    innodbLogFileSize: string,
    maxConnections: int,
    queryCacheSize: string,
    queryCacheType: string,
    tableOpenCache: int)

  /** The buffer pool by installed memory in gigabytes. */
  function BufferPool(memoryTotal: real): string
  {
    if memoryTotal >= 8.0 then "2G" else if memoryTotal >= 4.0 then "1G" else "512M"
  }

  /** A size with a `G` or `M` suffix, read as megabytes; `None` when the
      suffix or the digits are missing. */
  function Megabytes(size: string): Option<nat>
  {
    if |size| < 2 || !AllDigits(size[..|size| - 1]) then None
    else if size[|size| - 1] == 'G' then Some(DecimalValue(size[..|size| - 1]) * 1024)
    else if size[|size| - 1] == 'M' then Some(DecimalValue(size[..|size| - 1]))
    else None
  }

  /** The log size: 256M per gigabyte for a `G` pool, else a quarter of the
      pool's megabytes. */
  function LogFileSize(pool: string): string
    requires |pool| >= 1 && AllDigits(pool[..|pool| - 1])
  {
    var digits := DecimalValue(pool[..|pool| - 1]);
    if pool[|pool| - 1] == 'G' then NatToString(digits * 256) + "M"
    else NatToString(digits / 4) + "M"
  }

  /** The connection limit, the query cache by CPU, a table cache of twice
      the connection limit capped at 4096, and a log file a quarter of the
      buffer pool. */
  function MysqlOptimizations(cpuPercent: real, memoryTotal: real, activeConnections: int): (m: MysqlSettings)
    ensures m.innodbBufferPoolSize == BufferPool(memoryTotal)
    ensures m.maxConnections == (if activeConnections > 50 then MinInt(500, activeConnections * 2) else 200)
    ensures 100 < m.maxConnections <= 500
    ensures m.tableOpenCache == MinInt(4096, m.maxConnections * 2)
    ensures m.queryCacheSize == (if cpuPercent < 70.0 then "128M" else "64M") && m.queryCacheType == "ON"
    ensures Megabytes(m.innodbBufferPoolSize).Some? && Megabytes(m.innodbLogFileSize).Some?
    ensures Megabytes(m.innodbLogFileSize).value * 4 == Megabytes(m.innodbBufferPoolSize).value
  {
    var pool := BufferPool(memoryTotal);
    LogIsQuarterOfPool(memoryTotal);
    var maxConnections := if activeConnections > 50 then MinInt(500, activeConnections * 2) else 200;
    MysqlSettings(pool, LogFileSize(pool), maxConnections,
                  if cpuPercent < 70.0 then "128M" else "64M", "ON",
                  MinInt(4096, maxConnections * 2))
  }

  /** The cap on the table cache never bites: it is always twice the
      connection limit. */
  lemma TableCacheTwiceConnections(cpuPercent: real, memoryTotal: real, activeConnections: int)
    ensures var m := MysqlOptimizations(cpuPercent, memoryTotal, activeConnections);
      m.tableOpenCache == 2 * m.maxConnections && m.tableOpenCache <= 1000
  {
  }

  lemma MegabytesOfRendering(n: nat, suffix: char)
    requires suffix == 'M' || suffix == 'G'
    ensures Megabytes(NatToString(n) + [suffix]) == Some(if suffix == 'G' then n * 1024 else n)
  {
    var s := NatToString(n) + [suffix];
    assert s[..|s| - 1] == NatToString(n);
    DecimalValueOfNatToString(n);
  }

  /** The log file is a quarter of the buffer pool, as its comment intends:
      2G gives 512M, 1G gives 256M and 512M gives 128M. */
  lemma LogIsQuarterOfPool(memoryTotal: real)
    ensures var pool := BufferPool(memoryTotal);
      AllDigits(pool[..|pool| - 1]) &&
      Megabytes(pool).Some? && Megabytes(LogFileSize(pool)).Some? &&
      Megabytes(LogFileSize(pool)).value * 4 == Megabytes(pool).value
  {
    var pool := BufferPool(memoryTotal);
    if pool == "512M" {
      assert pool == NatToString(512) + ['M'] by {
        assert NatToString(512) == NatToString(51) + [DigitChar(2)];
        assert NatToString(51) == NatToString(5) + [DigitChar(1)];
      }
      QuarterOfRendering(512, 'M');
    } else {
      var n: nat := if pool == "2G" then 2 else 1;
      assert pool == NatToString(n) + ['G'];
      QuarterOfRendering(n, 'G');
    }
  }

  /** For a pool written as digits and a suffix, the log's megabytes are a
      quarter of the pool's (exactly, when a megabyte count divides by 4). */
  lemma QuarterOfRendering(n: nat, suffix: char)
    requires suffix == 'G' || (suffix == 'M' && n % 4 == 0)
    ensures var pool := NatToString(n) + [suffix];
      AllDigits(pool[..|pool| - 1]) &&
      Megabytes(pool).Some? && Megabytes(LogFileSize(pool)).Some? &&
      Megabytes(LogFileSize(pool)).value * 4 == Megabytes(pool).value
  {
    var pool := NatToString(n) + [suffix];
    assert pool[..|pool| - 1] == NatToString(n);
    DecimalValueOfNatToString(n);
    MegabytesOfRendering(n, suffix);
    var logMb: nat := if suffix == 'G' then n * 256 else n / 4;
    assert LogFileSize(pool) == NatToString(logMb) + ['M'];
    MegabytesOfRendering(logMb, 'M');
  }


  // ---------------------------------------------------------------- PHP

  datatype PhpSettings = PhpSettings(
    memoryLimit: string,
    maxExecutionTime: int,
    uploadMaxFilesize: string,
    postMaxSize: string,
    maxFileUploads: int)

  /** Less memory per script as the system's memory fills; shorter scripts
      when many processes run. */
  function PhpOptimizations(memoryPercent: real, activeProcesses: int): (p: PhpSettings)
    ensures p.memoryLimit == (if memoryPercent > 80.0 then "256M" else if memoryPercent > 60.0 then "384M" else "512M")
    ensures p.maxExecutionTime == 180 <==> activeProcesses > 20
    ensures p.maxExecutionTime == 180 || p.maxExecutionTime == 300
    ensures p.uploadMaxFilesize == "100M" && p.postMaxSize == "100M" && p.maxFileUploads == 20
  {
    var limit := if memoryPercent > 80.0 then "256M" else if memoryPercent > 60.0 then "384M" else "512M";
    PhpSettings(limit, if activeProcesses > 20 then 180 else 300, "100M", "100M", 20)
  }

  /** The memory limit never grows as memory use grows. */
  lemma PhpLimitMonotone(m1: real, m2: real, processes: int)
    requires m1 <= m2
    ensures Megabytes(PhpOptimizations(m2, processes).memoryLimit).Some?
    ensures Megabytes(PhpOptimizations(m2, processes).memoryLimit).value
         <= Megabytes(PhpOptimizations(m1, processes).memoryLimit).value
  {
    var l1 := PhpOptimizations(m1, processes).memoryLimit;
    var l2 := PhpOptimizations(m2, processes).memoryLimit;
    PhpLimitValue(m1, processes);
    PhpLimitValue(m2, processes);
  }

  lemma PhpLimitValue(memoryPercent: real, processes: int)
    ensures Megabytes(PhpOptimizations(memoryPercent, processes).memoryLimit)
         == Some(if memoryPercent > 80.0 then 256 else if memoryPercent > 60.0 then 384 else 512)
  {
    var limit := PhpOptimizations(memoryPercent, processes).memoryLimit;
    if memoryPercent > 80.0 {
      assert limit[..|limit| - 1] == "256";
      assert DecimalValue("256") == 256 by {
        assert "256"[..2] == "25";
        assert "25"[..1] == "2";
      }
    } else if memoryPercent > 60.0 {
      assert limit[..|limit| - 1] == "384";
      assert DecimalValue("384") == 384 by {
        assert "384"[..2] == "38";
        assert "38"[..1] == "3";
      }
    } else {
      assert limit[..|limit| - 1] == "512";
      assert DecimalValue("512") == 512 by {
        assert "512"[..2] == "51";
        assert "51"[..1] == "5";
      }
    }
  }



  // ---------------------------------------------------------------- kernel


  datatype SysctlValue = Number(n: int) | Text(s: string)

  datatype SystemSettings = SystemSettings(sysctl: map<string, SysctlValue>, limits: map<string, int>)

  /** Less swapping under memory pressure, more when memory is plentiful. */
  function Swappiness(memoryPercent: real): (s: int)
    ensures memoryPercent > 85.0 ==> s == 5
    ensures memoryPercent < 50.0 ==> s == 20
    ensures 50.0 <= memoryPercent <= 85.0 ==> s == 10
  {
    if memoryPercent > 85.0 then 5 else if memoryPercent < 50.0 then 20 else 10
  }

  /** Swappiness never grows as memory use grows. */
  lemma SwappinessMonotone(m1: real, m2: real)
    requires m1 <= m2
    ensures Swappiness(m2) <= Swappiness(m1)
  {
  }

  /** The fixed network and dirty-page parameters plus swappiness, and the
      open-file and process limits. CPU and load average are not consulted. */
  function SystemOptimizations(cpuPercent: real, memoryPercent: real, loadAverage: real): (o: SystemSettings)
    ensures "vm.swappiness" in o.sysctl && o.sysctl["vm.swappiness"] == Number(Swappiness(memoryPercent))
    ensures |o.sysctl| == 8 && |o.limits| == 4
    ensures forall k :: k in o.limits ==> o.limits[k] == 65536
  {
    var sysctl := map[
      "net.core.somaxconn" := Number(65536),
      "net.ipv4.tcp_max_syn_backlog" := Number(65536),
      "net.ipv4.ip_local_port_range" := Text("1024 65535"),
      "net.ipv4.tcp_tw_reuse" := Number(1),
      "net.ipv4.tcp_fin_timeout" := Number(15),
      "vm.dirty_ratio" := Number(20),
      "vm.dirty_background_ratio" := Number(5),
      "vm.swappiness" := Number(Swappiness(memoryPercent))];
    var limits := map[
      "* soft nofile" := 65536,
      "* hard nofile" := 65536,
      "* soft nproc" := 65536,
      "* hard nproc" := 65536];
    SystemSettings(sysctl, limits)
  }

  /** Only memory use shapes the kernel settings. */
  lemma SystemDependsOnlyOnMemory(c1: real, l1: real, c2: real, l2: real, memoryPercent: real)
    ensures SystemOptimizations(c1, memoryPercent, l1) == SystemOptimizations(c2, memoryPercent, l2)
  {
  }
}
