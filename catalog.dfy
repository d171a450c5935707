/** The global configuration audit as data: the four verdict policies, the
    ordered catalog of global checks, the AAA branch and the table of rows the
    global audit produces for a configuration. */
module Catalog {
  import opened ConfParse
  import opened Report

  /** `check_service`, `check_config`, `check_vuln_config`, `check_optional_config`. */
  datatype Policy = StandardService | StandardConfig | VulnConfig | OptionalConfig

  /** One call of a policy: the pattern searched for and the label of its row. */
  datatype Check = Check(policy: Policy, pattern: Pattern, cmd: string)

  /** The verdict a policy gives for a yes/no presence answer. */
  function PolicyVerdict(policy: Policy, present: bool): (v: Verdict)
    ensures v != NotFound
    ensures policy == StandardService || policy == StandardConfig ==> v == Pass || v == Fail
    ensures policy == VulnConfig ==> v == Warn || v == NotInUse
    ensures policy == OptionalConfig ==> v == Pass || v == Recommended
  {
    match policy
    case StandardService => if present then Fail else Pass
    case StandardConfig => if present then Pass else Fail
    case VulnConfig => if present then Warn else NotInUse
    case OptionalConfig => if present then Pass else Recommended
  }

  /** Every policy tells presence from absence, and a disable-by-default service
      and an enable-by-default setting judge the same answer oppositely. */
  lemma PolicyVerdictsDistinguishPresence(policy: Policy, present: bool)
    ensures PolicyVerdict(policy, true) != PolicyVerdict(policy, false)
    ensures (PolicyVerdict(StandardService, present) == Pass) <==> (PolicyVerdict(StandardConfig, present) == Fail)
    ensures (PolicyVerdict(StandardConfig, present) == Pass) <==> present
    ensures (PolicyVerdict(StandardService, present) == Fail) <==> present
  {
  }

  /** The row one check contributes for a configuration. */
  function CheckRow(cfg: RunningConfig, c: Check): Row {
    Row(c.cmd, PolicyVerdict(c.policy, Present(cfg, c.pattern)))
  }

  /** The rows of a list of checks, in list order. */
  function CatalogRows(cfg: RunningConfig, checks: seq<Check>): seq<Row> {
    seq(|checks|, i requires 0 <= i < |checks| => CheckRow(cfg, checks[i]))
  }

  lemma CatalogRowsSnoc(cfg: RunningConfig, checks: seq<Check>, i: nat)
    requires i < |checks|
    ensures CatalogRows(cfg, checks[..i + 1]) == CatalogRows(cfg, checks[..i]) + [CheckRow(cfg, checks[i])]
  {
    assert checks[..i + 1][i] == checks[i];
  }

  // Regular-expression tails with character classes (\w+, \d+, \d{1,7}, \W, ...)
  // are approximated by the literal text before them.

  /** `src/ciscoconfaudit/__init__.py` lines 82-107: small servers, finger, bootp, DNS, PAD, HTTP, config and password recovery. */
  const ServiceChecks: seq<Check> := [
    Check(StandardService, Exact("service tcp-small-servers"), "no service tcp-small-servers"),
    Check(StandardService, Exact("service udp-small-servers"), "no service udp-small-servers"),
    Check(StandardService, Exact("no ip finger"), "no ip finger"),
    Check(StandardService, Exact("no service finger"), "no service finger"),
    Check(StandardService, Exact("no ip bootp server"), "no ip bootp server"),
    Check(StandardConfig, Exact("ip dhcp bootp ignore"), "ip dhcp bootp ignore"),
    Check(StandardConfig, Or(Exact("no ip domain-lookup"), Exact("no ip domain lookup")),
          "no ip domain-lookup | no ip domain lookup"),
    Check(StandardConfig, Or(Prefix("ip domain name "), Prefix("ip domain-name ")),
          "ip domain name <domain> | ip domain-name <domain>"),
    Check(StandardService, Exact("no service pad"), "no service pad"),
    Check(StandardConfig, Exact("no ip http server"), "no ip http server"),
    Check(StandardConfig, Exact("no ip http secure-server"), "no ip http secure-server"),
    Check(StandardService, Exact("no service config"), "no service config"),
    Check(StandardConfig, Exact("no service password-recovery"),
          "no service password-recovery (Use with caution)")
  ]

  /** Lines 108-131: call-home, password encryption, timestamps, keepalives, exclusive configuration, secure boot, banner, UDLD. */
  const HardeningChecks: seq<Check> := [
    Check(StandardService, Exact("service call-home"), "no service call-home"),
    Check(StandardService, Exact("service password-encryption"), "service password-encryption"),
    Check(StandardConfig, Exact("service timestamps log datetime msec localtime show-timezone year"),
          "service timestamps log datetime msec localtime show-timezone year"),
    Check(StandardConfig, Exact("service timestamps debug datetime msec localtime show-timezone year"),
          "service timestamps debug datetime msec localtime show-timezone year"),
    Check(StandardConfig, Exact("service tcp-keepalives-in"), "service tcp-keepalives-in"),
    Check(StandardConfig, Exact("service tcp-keepalives-out"), "service tcp-keepalives-out"),
    Check(StandardConfig, Exact("configuration mode exclusive auto"), "configuration mode exclusive auto"),
    Check(StandardConfig, Exact("secure boot-image"), "secure boot-image"),
    Check(StandardConfig, Prefix("secure boot-config"), "secure boot-config"),
    Check(StandardConfig, Prefix("banner motd"), "banner motd"),
    Check(StandardConfig, Exact("udld enable"), "udld enable")
  ]

  /** Lines 132-160: DHCP snooping, ARP inspection and SSH server settings. */
  const SnoopingAndSshChecks: seq<Check> := [
    Check(StandardConfig, Exact("ip dhcp snooping"), "ip dhcp snooping"),
    Check(StandardConfig, Prefix("ip dhcp snooping vlan "), "ip dhcp snooping vlan <vlan-range>"),
    Check(StandardConfig, Prefix("ip arp inspection vlan "), "ip arp inspection vlan <vlan-range>"),
    Check(StandardConfig, Exact("ip dhcp snooping information option"), "ip dhcp snooping information option"),
    Check(StandardConfig, Exact("ip ssh version 2"), "ip ssh version 2"),
    Check(StandardConfig, Exact("ip ssh time-out 60"), "ip ssh time-out 60"),
    Check(StandardConfig, Exact("ip ssh authentication-retries 3"), "ip ssh authentication-retries 3"),
    Check(StandardConfig, Or(Exact("ip ssh dh min size 2048"), Exact("ip ssh dh min size 4096")),
          "ip ssh dh min size 2048|4096"),
    Check(OptionalConfig, Prefix("ip ssh server algorithm encryption aes"),
          "ip ssh server algorithm encryption aes128-ctr aes192-ctr aes256-ctr"),
    Check(OptionalConfig, Prefix("ip ssh client algorithm encryption aes"),
          "ip ssh client algorithm encryption aes128-ctr aes192-ctr aes256-ctr")
  ]

  /** Lines 161-181: source routing, gratuitous ARP, IP options, vstack, console and monitor logging, memory thresholds. */
  const ForwardingAndLoggingChecks: seq<Check> := [
    Check(StandardConfig, Exact("no ip source-route"), "no ip source-route"),
    Check(StandardConfig, Exact("no ipv6 source-route"), "no ipv6 source-route"),
    Check(StandardConfig, Or(Exact("no ip gratuitous-arps"), Exact("no ip arp gratuitous")),
          "no ip gratuitous-arps | no ip arp gratuitous"),
    Check(StandardConfig, Exact("ip options drop"), "ip options drop"),
    Check(StandardConfig, Exact("no vstack"), "no vstack"),
    Check(StandardConfig, Exact("no logging console"), "no logging console"),
    Check(StandardConfig, Exact("no logging monitor"), "no logging monitor"),
    Check(StandardConfig, Prefix("memory free low-watermark processor "),
          "memory free low-watermark processor <threshold>"),
    Check(StandardConfig, Prefix("memory free low-watermark io "), "memory free low-watermark io <threshold>"),
    Check(StandardConfig, Prefix("memory reserve critical "), "memory reserve critical <value>")
  ]

  /** Lines 182-207: the optional recommendations. */
  const OptionalChecks: seq<Check> := [
    Check(OptionalConfig, Prefix("exception crashinfo maximum files "),
          "exception crashinfo maximum files <number-of-files>"),
    Check(OptionalConfig, Or(Exact("vtp mode transparent"), Exact("vtp mode off")), "vtp mode transparent|off"),
    Check(OptionalConfig, Exact("no system ignore startupconfig switch all"),
          "no system ignore startupconfig switch all"),
    Check(OptionalConfig, Exact("diagnostic bootup level minimal"), "diagnostic bootup level minimal"),
    Check(OptionalConfig, Exact("software auto-upgrade enable"), "software auto-upgrade enable"),
    Check(OptionalConfig, Exact("license smart transport off"), "license smart transport off"),
    Check(OptionalConfig, Exact("login on-success log"), "login on-success log"),
    Check(OptionalConfig, Exact("login on-failure log"), "login on-failure log"),
    Check(OptionalConfig, Prefix("clock timezone "),
          "clock timezone <timezone> <hours_offset> <mintues_offset>")
  ]

  /** Lines 208-220: NTP, local users and the enable secret. */
  const TimeAndCredentialChecks: seq<Check> := [
    Check(StandardConfig, Prefix("ntp server "), "ntp server"),
    Check(StandardConfig, Exact("no ntp allow mode control 0"), "no ntp allow mode control 0"),
    Check(StandardConfig,
          Both(Prefix("username "), Both(Infix(" privilege "), Or(Infix(" secret 8 "), Infix(" secret 9 ")))),
          "username <username> privilege <priv_level> secret [8-9] <password>"),
    Check(StandardConfig, Prefix("enable algorithm-type scrypt secret "),
          "enable algorithm-type scrypt secret <password>")
  ]

  /** The global checks before the AAA section, in the order the audit runs
      them, exactly as the source calls them. */
  const BaseChecksAsWritten: seq<Check> :=
    ServiceChecks + HardeningChecks + SnoopingAndSshChecks + ForwardingAndLoggingChecks +
    OptionalChecks + TimeAndCredentialChecks

  /** A disable-by-default check whose pattern is the very line its label
      recommends: its presence is reported as FAIL although it is the
      recommended setting. */
  predicate ServiceMisapplied(c: Check) {
    c.policy == StandardService && c.pattern == Exact(c.cmd)
  }

  /** The check as evidently intended: a recommended line that is present passes. */
  function Corrected(c: Check): (d: Check)
    ensures d.pattern == c.pattern && d.cmd == c.cmd
    ensures !ServiceMisapplied(d)
    ensures !ServiceMisapplied(c) ==> d == c
  {
    if ServiceMisapplied(c) then c.(policy := StandardConfig) else c
  }

  /** The global checks as evidently intended: the source's list with the
      misapplied disable-by-default policies replaced by the enable-by-default one. */
  const BaseChecks: seq<Check> := CorrectedChecks(BaseChecksAsWritten)

  function CorrectedChecks(checks: seq<Check>): (fixed: seq<Check>)
    ensures |fixed| == |checks|
    ensures forall k | 0 <= k < |checks| :: fixed[k] == Corrected(checks[k])
  {
    seq(|checks|, i requires 0 <= i < |checks| => Corrected(checks[i]))
  }

  /** A check honours its own label when a configuration made of exactly the
      recommended line passes it. A vulnerability check's label names the weak
      setting rather than a recommendation, so it is not held to this. */
  predicate HonoursOwnLabel(c: Check) {
    c.policy != VulnConfig && c.pattern == Exact(c.cmd) ==> CheckRow([Block(c.cmd, [])], c).status == Pass
  }

  lemma OwnLinePresent(c: Check)
    requires c.pattern == Exact(c.cmd)
    ensures Present([Block(c.cmd, [])], c.pattern)
  {
    assert AllLines([Block(c.cmd, [])]) == [c.cmd];
    assert Matches(c.pattern, c.cmd);
  }

  /** As written, six recommended lines are checked as disable-by-default
      services (`no ip finger`, `no service finger`, `no ip bootp server`,
      `no service pad`, `no service config`, `service password-encryption`), and
      `check_service(r"^no\sip\sfinger$", "no ip finger")` reports the
      recommended `no ip finger` as FAIL. */
  lemma ServicePolicyMisappliedAsWritten()
    ensures forall k | 0 <= k < |BaseChecksAsWritten| ::
              ServiceMisapplied(BaseChecksAsWritten[k]) <==> (k == 2 || k == 3 || k == 4 || k == 8 || k == 11 || k == 14)
    ensures CheckRow([Block("no ip finger", [])], BaseChecksAsWritten[2]) == Row("no ip finger", Fail)
    ensures !HonoursOwnLabel(BaseChecksAsWritten[2])
  {
    OwnLinePresent(BaseChecksAsWritten[2]);
  }

  /** Every corrected check honours its label. */
  lemma CorrectedHonoursLabel(c: Check)
    ensures HonoursOwnLabel(Corrected(c))
  {
    var d := Corrected(c);
    if d.policy != VulnConfig && d.pattern == Exact(d.cmd) {
      OwnLinePresent(d);
    }
  }

  /** Every corrected global check whose pattern is its label passes on that line. */
  lemma CorrectedChecksHonourLabels()
    ensures |BaseChecks| == |BaseChecksAsWritten|
    ensures forall k | 0 <= k < |BaseChecks| ::
              BaseChecks[k].pattern == BaseChecksAsWritten[k].pattern &&
              BaseChecks[k].cmd == BaseChecksAsWritten[k].cmd
    ensures forall k | 0 <= k < |BaseChecks| :: HonoursOwnLabel(BaseChecks[k])
  {
    forall k | 0 <= k < |BaseChecks| ensures HonoursOwnLabel(BaseChecks[k]) {
      CorrectedHonoursLabel(BaseChecksAsWritten[k]);
    }
  }

  const AaaNewModelLabel: string := "aaa new-model"
  const NoAaaNewModel: Pattern := Exact("no aaa new-model")

  /** The AAA sub-checks, run only when `no aaa new-model` is absent, as the
      source calls them (the accounting check for commands 0 appears twice). */
  const AaaChecksAsWritten: seq<Check> := [
    Check(StandardConfig, Exact("aaa authentication login default group tacacs+ enable"),
          "aaa authentication login default group tacacs+ enable"),
    Check(StandardConfig, Prefix("aaa authentication attempts login "),
          "aaa authentication attempts login <max-attempts>"),
    Check(StandardConfig, Exact("aaa authorization exec default group tacacs none"),
          "aaa authorization exec default group tacacs none"),
    Check(StandardConfig, Exact("aaa authorization commands 0 default group tacacs none"),
          "aaa authorization commands 0 default group tacacs none"),
    Check(StandardConfig, Exact("aaa authorization commands 1 default group tacacs none"),
          "aaa authorization commands 1 default group tacacs none"),
    Check(StandardConfig, Infix("aaa authorization commands 15 default group tacacs none"),
          "aaa authorization commands 15 default group tacacs none"),
    Check(StandardConfig, Exact("aaa accounting exec default start-stop group tacacs"),
          "aaa accounting exec default start-stop group tacacs"),
    Check(StandardConfig, Exact("aaa accounting commands 0 default start-stop group tacacs"),
          "aaa accounting commands 0 default start-stop group tacacs"),
    Check(StandardConfig, Exact("aaa accounting commands 0 default start-stop group tacacs"),
          "aaa accounting commands 0 default start-stop group tacacs"),
    Check(StandardConfig, Prefix("aaa accounting commands 15 default start-stop group tacacs"),
          "aaa accounting commands 15 default start-stop group tacacs")
  ]

  const AaaAccountingCommands1: Check :=
    Check(StandardConfig, Exact("aaa accounting commands 1 default start-stop group tacacs"),
          "aaa accounting commands 1 default start-stop group tacacs")

  /** The AAA sub-checks as evidently intended: the repeated commands 0
      accounting check replaced by the commands 1 one, matching the
      authorization checks. */
  const AaaChecks: seq<Check> := AaaChecksAsWritten[..8] + [AaaAccountingCommands1] + AaaChecksAsWritten[9..]

  /** As written, two AAA rows are the same check, so `aaa accounting commands 1`
      is never examined: a configuration that has it gets the same AAA rows as
      one that does not. */
  lemma AaaAccountingDuplicatedAsWritten()
    ensures AaaChecksAsWritten[7] == AaaChecksAsWritten[8]
    ensures forall cfg: RunningConfig :: CheckRow(cfg, AaaChecksAsWritten[7]) == CheckRow(cfg, AaaChecksAsWritten[8])
    ensures forall c | c in AaaChecksAsWritten :: c.pattern != AaaAccountingCommands1.pattern
  {
  }

  /** Corrected, every AAA sub-check has its own label, and the commands 1
      accounting line decides a row of its own. */
  lemma AaaLabelsDistinct()
    ensures |AaaChecks| == |AaaChecksAsWritten|
    ensures forall i, j | 0 <= i < j < |AaaChecks| :: AaaChecks[i].cmd != AaaChecks[j].cmd
    ensures CheckRow([Block(AaaAccountingCommands1.cmd, [])], AaaChecks[8]).status == Pass
    ensures CheckRow([], AaaChecks[8]).status == Fail
  {
    OwnLinePresent(AaaAccountingCommands1);
  }

  /** The weak SNMPv2c community check, always the last global row. */
  const SnmpCheck: Check :=
    Check(VulnConfig, Or(Exact("snmp-server community private rw"), Exact("snmp-server community public ro")),
          "Weak SNMPv2c community string (Trivial authentication)")

  /** The AAA section over a list of sub-checks: one FAIL row when AAA is
      switched off, otherwise a PASS row followed by the sub-check rows. */
  function AaaRows(cfg: RunningConfig, aaa: seq<Check>): seq<Row> {
    if Present(cfg, NoAaaNewModel) then [Row(AaaNewModelLabel, Fail)]
    else [Row(AaaNewModelLabel, Pass)] + CatalogRows(cfg, aaa)
  }

  /** The rows of the global table for a list of base checks and a list of AAA
      sub-checks: the base rows, the AAA section and the SNMP row. */
  function GlobalRows(cfg: RunningConfig, base: seq<Check>, aaa: seq<Check>): seq<Row> {
    CatalogRows(cfg, base) + AaaRows(cfg, aaa) + [CheckRow(cfg, SnmpCheck)]
  }

  /** The rows `global_config` puts in the global table, in order, with the
      calls exactly as the source makes them. */
  function GlobalAuditRows(cfg: RunningConfig): seq<Row> {
    GlobalRows(cfg, BaseChecksAsWritten, AaaChecksAsWritten)
  }

  /** The rows of the global table as evidently intended: the corrected base
      catalog and the corrected AAA sub-checks. */
  function IntendedGlobalAuditRows(cfg: RunningConfig): seq<Row> {
    GlobalRows(cfg, BaseChecks, AaaChecks)
  }

  lemma HeadedRows(cfg: RunningConfig, head: Row, checks: seq<Check>)
    ensures var rows := [head] + CatalogRows(cfg, checks);
      |rows| == 1 + |checks| && rows[0] == head &&
      forall k | 0 <= k < |checks| :: rows[1 + k] == CheckRow(cfg, checks[k])
  {
    var sub := CatalogRows(cfg, checks);
    var rows := [head] + sub;
    forall k | 0 <= k < |checks| ensures rows[1 + k] == CheckRow(cfg, checks[k]) {
      assert rows[1 + k] == sub[k];
    }
  }

  /** The global table is the base rows, then the AAA section, then the SNMP row. */
  lemma GlobalRowsParts(cfg: RunningConfig, base: seq<Check>, aaa: seq<Check>)
    ensures var rows := GlobalRows(cfg, base, aaa);
      var section := AaaRows(cfg, aaa);
      |rows| == |base| + |section| + 1 &&
      (forall k | 0 <= k < |base| :: rows[k] == CheckRow(cfg, base[k])) &&
      (forall j | 0 <= j < |section| :: rows[|base| + j] == section[j]) &&
      rows[|rows| - 1] == CheckRow(cfg, SnmpCheck)
  {
    var rows := GlobalRows(cfg, base, aaa);
    var head := CatalogRows(cfg, base);
    var section := AaaRows(cfg, aaa);
    forall k | 0 <= k < |base| ensures rows[k] == CheckRow(cfg, base[k]) {
      assert rows[k] == head[k];
    }
    forall j | 0 <= j < |section| ensures rows[|base| + j] == section[j] {
      assert rows[|head| + j] == section[j];
    }
  }

  /** The AAA section: the `aaa new-model` row, then the sub-check rows in list
      order only when `no aaa new-model` is absent. */
  lemma AaaRowsLayout(cfg: RunningConfig, aaa: seq<Check>)
    ensures var rows := AaaRows(cfg, aaa);
      var noAaa := Present(cfg, NoAaaNewModel);
      |rows| == 1 + (if noAaa then 0 else |aaa|) &&
      rows[0] == Row(AaaNewModelLabel, if noAaa then Fail else Pass) &&
      (!noAaa ==> forall k | 0 <= k < |aaa| :: rows[1 + k] == CheckRow(cfg, aaa[k]))
  {
    if !Present(cfg, NoAaaNewModel) {
      HeadedRows(cfg, Row(AaaNewModelLabel, Pass), aaa);
    }
  }

  /** The layout of the global table over any base list and AAA list: the base
      rows in list order, then the `aaa new-model` row (FAIL exactly when
      `no aaa new-model` is present), then the AAA sub-check rows only when it
      is absent, and the SNMP row last. */
  lemma GlobalRowsLayout(cfg: RunningConfig, base: seq<Check>, aaa: seq<Check>)
    ensures var rows := GlobalRows(cfg, base, aaa);
      var n := |base|;
      var noAaa := Present(cfg, NoAaaNewModel);
      |rows| == n + 2 + (if noAaa then 0 else |aaa|) &&
      (forall k | 0 <= k < n :: rows[k] == CheckRow(cfg, base[k])) &&
      rows[n] == Row(AaaNewModelLabel, if noAaa then Fail else Pass) &&
      (!noAaa ==> forall k | 0 <= k < |aaa| :: rows[n + 1 + k] == CheckRow(cfg, aaa[k])) &&
      rows[|rows| - 1] == CheckRow(cfg, SnmpCheck) &&
      rows[|rows| - 1].status != Pass
  {
    AaaRowsLayout(cfg, aaa);
    GlobalRowsParts(cfg, base, aaa);
    var rows := GlobalRows(cfg, base, aaa);
    var section := AaaRows(cfg, aaa);
    var n := |base|;
    assert rows[n] == section[0];
    if !Present(cfg, NoAaaNewModel) {
      forall k | 0 <= k < |aaa| ensures rows[n + 1 + k] == CheckRow(cfg, aaa[k]) {
        assert rows[n + 1 + k] == section[1 + k];
      }
    }
  }

  /** The layout of the global table as the source fills it: the base rows in
      the order of the calls, then the `aaa new-model` row (FAIL exactly when
      `no aaa new-model` is present), then the ten AAA sub-check rows only when
      it is absent, the commands 0 accounting row twice in a row, and the SNMP
      row last. */
  lemma GlobalAuditLayout(cfg: RunningConfig)
    ensures var rows := GlobalAuditRows(cfg);
      var n := |BaseChecksAsWritten|;
      var noAaa := Present(cfg, NoAaaNewModel);
      |rows| == n + 2 + (if noAaa then 0 else |AaaChecksAsWritten|) &&
      (forall k | 0 <= k < n :: rows[k] == CheckRow(cfg, BaseChecksAsWritten[k])) &&
      rows[n] == Row(AaaNewModelLabel, if noAaa then Fail else Pass) &&
      (!noAaa ==> forall k | 0 <= k < |AaaChecksAsWritten| ::
                    rows[n + 1 + k] == CheckRow(cfg, AaaChecksAsWritten[k])) &&
      (!noAaa ==> rows[n + 8] == rows[n + 9] &&
                  rows[n + 8].audit == "aaa accounting commands 0 default start-stop group tacacs") &&
      rows[|rows| - 1] == CheckRow(cfg, SnmpCheck) &&
      rows[|rows| - 1].status != Pass
  {
    GlobalRowsLayout(cfg, BaseChecksAsWritten, AaaChecksAsWritten);
    AaaAccountingDuplicatedAsWritten();
  }

  lemma NothingPresentInEmpty(p: Pattern)
    ensures !Present([], p)
  {
    assert AllLines([]) == [];
  }

  /** On an empty configuration every check sees its pattern absent. */
  lemma EmptyCatalogRows(checks: seq<Check>)
    ensures forall k | 0 <= k < |checks| ::
      CatalogRows([], checks)[k].status == PolicyVerdict(checks[k].policy, false)
  {
    forall k | 0 <= k < |checks|
      ensures CatalogRows([], checks)[k].status == PolicyVerdict(checks[k].policy, false)
    {
      NothingPresentInEmpty(checks[k].pattern);
    }
  }

  /** On an empty configuration AAA is on and every AAA sub-check gives its
      policy's verdict for an absent line. */
  lemma EmptyAaaRows(aaa: seq<Check>)
    ensures var rows := AaaRows([], aaa);
      |rows| == 1 + |aaa| && rows[0] == Row(AaaNewModelLabel, Pass) &&
      forall k | 0 <= k < |aaa| :: rows[1 + k].status == PolicyVerdict(aaa[k].policy, false)
  {
    NothingPresentInEmpty(NoAaaNewModel);
    EmptyCatalogRows(aaa);
    HeadedRows([], Row(AaaNewModelLabel, Pass), aaa);
  }

  /** On an empty configuration each base row has its policy's "absent"
      verdict, `aaa new-model` passes, every AAA sub-check that is an
      enable-by-default setting fails, and SNMP is not in use. */
  lemma EmptyConfigRows(base: seq<Check>, aaa: seq<Check>)
    requires forall j | 0 <= j < |aaa| :: aaa[j].policy == StandardConfig
    ensures var rows := GlobalRows([], base, aaa);
      |rows| == |base| + 2 + |aaa| &&
      (forall k | 0 <= k < |base| ::
         rows[k].status == (match base[k].policy
                             case StandardService => Pass
                             case StandardConfig => Fail
                             case VulnConfig => NotInUse
                             case OptionalConfig => Recommended)) &&
      rows[|base|] == Row(AaaNewModelLabel, Pass) &&
      (forall k | |base| < k < |rows| - 1 :: rows[k].status == Fail) &&
      rows[|rows| - 1].status == NotInUse
  {
    NothingPresentInEmpty(SnmpCheck.pattern);
    EmptyCatalogRows(base);
    EmptyAaaRows(aaa);
    GlobalRowsParts([], base, aaa);
    var rows := GlobalRows([], base, aaa);
    var section := AaaRows([], aaa);
    forall k | |base| < k < |rows| - 1 ensures rows[k].status == Fail {
      var j := k - |base| - 1;
      assert rows[|base| + (1 + j)] == section[1 + j];
    }
  }

  /** On an empty configuration the `no ip finger` row, checked as a service,
      passes. */
  lemma EmptyFingerRow()
    ensures GlobalAuditRows([])[2] == Row("no ip finger", Pass)
  {
    GlobalRowsParts([], BaseChecksAsWritten, AaaChecksAsWritten);
    NothingPresentInEmpty(BaseChecksAsWritten[2].pattern);
  }

  /** An empty configuration, as the source audits it: disable-by-default
      services pass (the six recommended lines checked as services among them,
      `no ip finger` first), enable-by-default settings fail, optional ones are
      recommended, AAA is on but every sub-check fails, the SNMP check is not in
      use, and the host name is the default. */
  lemma EmptyConfigGlobalAudit()
    ensures var rows := GlobalAuditRows([]);
      |rows| == |BaseChecksAsWritten| + 2 + |AaaChecksAsWritten| &&
      (forall k | 0 <= k < |BaseChecksAsWritten| ::
         rows[k].status == (match BaseChecksAsWritten[k].policy
                             case StandardService => Pass
                             case StandardConfig => Fail
                             case VulnConfig => NotInUse
                             case OptionalConfig => Recommended)) &&
      rows[2] == Row("no ip finger", Pass) &&
      rows[|BaseChecksAsWritten|] == Row(AaaNewModelLabel, Pass) &&
      (forall k | |BaseChecksAsWritten| < k < |rows| - 1 :: rows[k].status == Fail) &&
      rows[|rows| - 1].status == NotInUse
    ensures Hostname([]) == DefaultHostname
  {
    assert forall j | 0 <= j < |AaaChecksAsWritten| :: AaaChecksAsWritten[j].policy == StandardConfig;
    EmptyConfigRows(BaseChecksAsWritten, AaaChecksAsWritten);
    EmptyFingerRow();
    assert AllLines([]) == [];
  }

  const FingerOff: RunningConfig := [Block("no ip finger", [])]

  /** On a configuration holding `no ip finger`, the source's table reports that
      row as FAIL while the intended table reports it as PASS; all other rows
      of the two tables are in the same places. */
  lemma FingerRowAsWrittenAndIntended()
    ensures |GlobalAuditRows(FingerOff)| == |IntendedGlobalAuditRows(FingerOff)|
    ensures GlobalAuditRows(FingerOff)[2] == Row("no ip finger", Fail)
    ensures IntendedGlobalAuditRows(FingerOff)[2] == Row("no ip finger", Pass)
  {
    ServicePolicyMisappliedAsWritten();
    CorrectedChecksHonourLabels();
    assert FingerOff == [Block(BaseChecksAsWritten[2].cmd, [])];
    assert ServiceMisapplied(BaseChecksAsWritten[2]);
    assert HonoursOwnLabel(BaseChecks[2]);
    OwnLinePresent(BaseChecks[2]);
    assert GlobalAuditRows(FingerOff)[2] == CheckRow(FingerOff, BaseChecksAsWritten[2]);
    assert IntendedGlobalAuditRows(FingerOff)[2] == CheckRow(FingerOff, BaseChecks[2]);
  }
}
