/** The Ansible inventory built from Terraform outputs: four host groups that
    share one set of SSH variables, one host entry per listed IP, and global
    variables that depend on the environment. */
module Inventory {
  import opened Common

  const AnsibleUser: string := "ubuntu"
  const SshKeyFile: string := "~/.ssh/virtualmin_key"
  const SshCommonArgs: string := "-o StrictHostKeyChecking=no"
  const ProjectName: string := "virtualmin-enterprise"
  const DefaultEnvironment: string := "production"
  const DefaultRegion: string := "us-east-1"
  const DefaultDomain: string := "example.com"
  const ProductionRetentionDays: nat := 30

  datatype Role = Web | Database | Monitoring | Balancer

  /** The child group a role's hosts go to. */
  function GroupKey(r: Role): string
  {
    match r
    case Web => "web_servers"
    case Database => "database_servers"
    case Monitoring => "monitoring_servers"
    case Balancer => "load_balancers"
  }

  /** The `server_role` value of a role's hosts. */
  function RoleName(r: Role): string
  {
    match r
    case Web => "web"
    case Database => "database"
    case Monitoring => "monitoring"
    case Balancer => "load_balancer"
  }

  /** The stem of a generated host name. */
  function NameStem(r: Role): string
  {
    match r
    case Web => "web-server-"
    case Database => "db-server-"
    case Monitoring => "monitoring-server-"
    case Balancer => "load-balancer-"
  }

  const Roles: seq<Role> := [Web, Database, Monitoring, Balancer]

  /** The `value`s of the Terraform outputs the generator reads; `None` for
      an output that is absent. */
  datatype RoleOutputs = RoleOutputs(ips: Option<seq<string>>, names: Option<seq<string>>)

  datatype TerraformOutputs = TerraformOutputs(
    environment: Option<string>,
    region: Option<string>,
    domain: Option<string>,
    web: RoleOutputs,
    database: RoleOutputs,
    monitoring: RoleOutputs,
    balancer: RoleOutputs)

  function OutputsOf(t: TerraformOutputs, r: Role): RoleOutputs
  {
    match r
    case Web => t.web
    case Database => t.database
    case Monitoring => t.monitoring
    case Balancer => t.balancer
  }

  datatype Host = Host(ansibleHost: string, serverRole: string, serverId: nat)

  datatype SshVars = SshVars(ansibleUser: string, sshPrivateKeyFile: string, sshCommonArgs: string)

  const GroupVars: SshVars := SshVars(AnsibleUser, SshKeyFile, SshCommonArgs)

  datatype Group = Group(hosts: map<string, Host>, vars: SshVars)

  /** The `all.vars` block; the environment-specific switches are absent
      unless the environment sets them. */
  datatype GlobalVars = GlobalVars(
    environment: string,
    region: string,
    projectName: string,
    domain: string,
    enableBackup: Option<bool>,
    backupRetentionDays: Option<nat>,
    enableMonitoring: Option<bool>,
    enableSecurityHardening: Option<bool>)

  datatype Inventory = Inventory(children: map<string, Group>, vars: GlobalVars)

  // ---------------------------------------------------------------- host names

  /** `names[i]` when the list is long enough, else `<stem><i+1>`. */
  function HostName(r: Role, names: seq<string>, i: nat): string
  {
    if i < |names| then names[i] else NameStem(r) + NatToString(i + 1)
  }

  /** Generated names never collide with each other. */
  lemma GeneratedNamesDistinct(r: Role, names: seq<string>, i: nat, j: nat)
    requires |names| <= i && |names| <= j && i != j
    ensures HostName(r, names, i) != HostName(r, names, j)
  {
    var p := NameStem(r);
    if HostName(r, names, i) == HostName(r, names, j) {
      assert (p + NatToString(i + 1))[|p|..] == NatToString(i + 1);
      assert (p + NatToString(j + 1))[|p|..] == NatToString(j + 1);
      DecimalValueOfNatToString(i + 1);
      DecimalValueOfNatToString(j + 1);
    }
  }

  /** The hosts of a role after its first `|ips|` entries: each IP in turn
      writes its entry, so a repeated name keeps the last one. */
  function HostsOf(r: Role, ips: seq<string>, names: seq<string>): map<string, Host>
  {
    if ips == [] then map[]
    else
      var i := |ips| - 1;
      HostsOf(r, ips[..i], names)[HostName(r, names, i) := Host(ips[i], RoleName(r), i + 1)]
  }

  /** Every IP's name is present and nothing else is. */
  lemma {:induction false} HostsOfKeys(r: Role, ips: seq<string>, names: seq<string>)
    ensures HostsOf(r, ips, names).Keys == set i | 0 <= i < |ips| :: HostName(r, names, i)
  {
    if ips != [] {
      var n := |ips| - 1;
      HostsOfKeys(r, ips[..n], names);
      assert (set i | 0 <= i < |ips| :: HostName(r, names, i)) ==
             (set i | 0 <= i < n :: HostName(r, names, i)) + {HostName(r, names, n)};
    }
  }

  /** A name maps to the IP of its last occurrence, with the 1-based index of
      that occurrence. */
  lemma {:induction false} HostsOfLast(r: Role, ips: seq<string>, names: seq<string>, i: nat)
    requires i < |ips|
    requires forall j :: i < j < |ips| ==> HostName(r, names, j) != HostName(r, names, i)
    ensures HostName(r, names, i) in HostsOf(r, ips, names)
    ensures HostsOf(r, ips, names)[HostName(r, names, i)] == Host(ips[i], RoleName(r), i + 1)
  {
    var n := |ips| - 1;
    if i < n {
      var front := ips[..n];
      assert front[i] == ips[i];
      HostsOfLast(r, front, names, i);
    }
  }

  /** With distinct names there is exactly one host per IP, carrying that IP,
      the role and its 1-based position. */
  lemma OneHostPerIp(r: Role, ips: seq<string>, names: seq<string>)
    requires forall i, j :: 0 <= i < j < |ips| ==> HostName(r, names, i) != HostName(r, names, j)
    ensures |HostsOf(r, ips, names)| == |ips|
    ensures forall i :: 0 <= i < |ips| ==>
      (HostName(r, names, i) in HostsOf(r, ips, names) &&
       HostsOf(r, ips, names)[HostName(r, names, i)] == Host(ips[i], RoleName(r), i + 1))
  {
    HostsOfKeys(r, ips, names);
    NamesCard(r, ips, names);
    forall i | 0 <= i < |ips|
      ensures HostName(r, names, i) in HostsOf(r, ips, names)
      ensures HostsOf(r, ips, names)[HostName(r, names, i)] == Host(ips[i], RoleName(r), i + 1)
    {
      HostsOfLast(r, ips, names, i);
    }
  }

  lemma {:induction false} NamesCard(r: Role, ips: seq<string>, names: seq<string>)
    requires forall i, j :: 0 <= i < j < |ips| ==> HostName(r, names, i) != HostName(r, names, j)
    ensures |set i | 0 <= i < |ips| :: HostName(r, names, i)| == |ips|
  {
    if ips != [] {
      var n := |ips| - 1;
      NamesCard(r, ips[..n], names);
      var before := set i | 0 <= i < n :: HostName(r, names, i);
      assert (set i | 0 <= i < |ips| :: HostName(r, names, i)) == before + {HostName(r, names, n)};
      assert HostName(r, names, n) !in before;
    }
  }

  /** Without a names output, every IP gets its own generated host: the n-th
      address (counting from 1) is the host <stem><n>. */
  lemma UnnamedHostsPerIp(r: Role, ips: seq<string>)
    ensures |HostsOf(r, ips, [])| == |ips|
    ensures forall n: nat :: 1 <= n <= |ips| ==>
      (NameStem(r) + NatToString(n) in HostsOf(r, ips, []) &&
       HostsOf(r, ips, [])[NameStem(r) + NatToString(n)] == Host(ips[n - 1], RoleName(r), n))
  {
    UnnamedHostsCount(r, ips);
    forall n: nat | 1 <= n <= |ips|
      ensures NameStem(r) + NatToString(n) in HostsOf(r, ips, []) &&
              HostsOf(r, ips, [])[NameStem(r) + NatToString(n)] == Host(ips[n - 1], RoleName(r), n)
    {
      UnnamedHostAt(r, ips, n - 1);
    }
  }

  lemma UnnamedHostsCount(r: Role, ips: seq<string>)
    ensures |HostsOf(r, ips, [])| == |ips|
  {
    forall i, j | 0 <= i < j < |ips|
      ensures HostName(r, [], i) != HostName(r, [], j)
    {
      GeneratedNamesDistinct(r, [], i, j);
    }
    HostsOfKeys(r, ips, []);
    NamesCard(r, ips, []);
  }

  lemma UnnamedHostAt(r: Role, ips: seq<string>, i: nat)
    requires i < |ips|
    ensures NameStem(r) + NatToString(i + 1) in HostsOf(r, ips, [])
    ensures HostsOf(r, ips, [])[NameStem(r) + NatToString(i + 1)] == Host(ips[i], RoleName(r), i + 1)
  {
    forall j | i < j < |ips|
      ensures HostName(r, [], j) != HostName(r, [], i)
    {
      GeneratedNamesDistinct(r, [], i, j);
    }
    HostsOfLast(r, ips, [], i);
  }

  // ---------------------------------------------------------------- global variables

  /** The base variables, with the environment's switches merged in:
      production enables backups kept 30 days, staging disables them. */
  function GlobalVarsFor(t: TerraformOutputs): (v: GlobalVars)
    ensures v.environment == GetOr(t.environment, DefaultEnvironment)
    ensures v.region == GetOr(t.region, DefaultRegion) && v.domain == GetOr(t.domain, DefaultDomain)
    ensures v.projectName == ProjectName
    ensures t.environment.None? ==> v.environment == "production"
    ensures v.environment == "production" ==>
      v.enableBackup == Some(true) && v.backupRetentionDays == Some(ProductionRetentionDays)
      && v.enableMonitoring == Some(true) && v.enableSecurityHardening == Some(true)
    ensures v.environment == "staging" ==>
      v.enableBackup == Some(false) && v.backupRetentionDays.None?
      && v.enableMonitoring == Some(true) && v.enableSecurityHardening == Some(false)
    ensures v.environment != "production" && v.environment != "staging" ==>
      v.enableBackup.None? && v.backupRetentionDays.None? && v.enableMonitoring.None? && v.enableSecurityHardening.None?
  {
    var env := GetOr(t.environment, DefaultEnvironment);
    var base := GlobalVars(env, GetOr(t.region, DefaultRegion), ProjectName, GetOr(t.domain, DefaultDomain),
                           None, None, None, None);
    if env == "production" then
      base.(enableBackup := Some(true), backupRetentionDays := Some(ProductionRetentionDays),
            enableMonitoring := Some(true), enableSecurityHardening := Some(true))
    else if env == "staging" then
      base.(enableBackup := Some(false), enableMonitoring := Some(true), enableSecurityHardening := Some(false))
    else base
  }

  // ---------------------------------------------------------------- generation

  /** The hosts a role contributes: none when its IP output is absent. */
  function RoleHosts(t: TerraformOutputs, r: Role): map<string, Host>
  {
    var o := OutputsOf(t, r);
    if o.ips.Some? then HostsOf(r, o.ips.value, GetOr(o.names, [])) else map[]
  }

  /** One role's block: each IP in turn writes its host entry into the
      group's host dictionary; nothing is written when the IP output is absent. */
  method CollectHosts(t: TerraformOutputs, r: Role) returns (hosts: map<string, Host>)
    ensures hosts == RoleHosts(t, r)
  {
    hosts := map[];
    var o := OutputsOf(t, r);
    if o.ips.Some? {
      var ips := o.ips.value;
      var names := GetOr(o.names, []);
      var i := 0;
      while i < |ips|
        invariant 0 <= i <= |ips|
        invariant hosts == HostsOf(r, ips[..i], names)
      {
        assert ips[..i + 1][..i] == ips[..i];
        var hostname := if i < |names| then names[i] else NameStem(r) + NatToString(i + 1);
        hosts := hosts[hostname := Host(ips[i], RoleName(r), i + 1)];
        i := i + 1;
      }
      assert ips[..i] == ips;
    }
  }

  /** The inventory: four child groups with the shared SSH variables, filled
      role by role, then the global variables. */
  method GenerateInventory(t: TerraformOutputs) returns (inv: Inventory)
    ensures inv.children.Keys == set r | r in Roles :: GroupKey(r)
    ensures forall r :: r in Roles ==> inv.children[GroupKey(r)] == Group(RoleHosts(t, r), GroupVars)
    ensures inv.vars == GlobalVarsFor(t)
  {
    var web := CollectHosts(t, Web);
    var database := CollectHosts(t, Database);
    var monitoring := CollectHosts(t, Monitoring);
    var balancers := CollectHosts(t, Balancer);
    var children := map[GroupKey(Web) := Group(web, GroupVars),
                        GroupKey(Database) := Group(database, GroupVars),
                        GroupKey(Monitoring) := Group(monitoring, GroupVars),
                        GroupKey(Balancer) := Group(balancers, GroupVars)];
    inv := Inventory(children, GlobalVarsFor(t));
  }
}
