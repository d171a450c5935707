/** The `CiscoConfAudit` engine: an object holding the parsed configuration and
    the two audit tables, whose check methods append rows to those tables. */
module Audit {
  import opened ConfParse
  import opened Report
  import opened Catalog
  import opened Scoped

  class CiscoConfAudit {
    var globalTable: Option<Table>
    var interfaceTable: Option<Table>
    var parse: Option<RunningConfig>

    constructor (globalTable: Option<Table> := None, interfaceTable: Option<Table> := None,
                 parse: Option<RunningConfig> := None)
      ensures this.globalTable == globalTable
      ensures this.interfaceTable == interfaceTable
      ensures this.parse == parse
    {
      this.globalTable := globalTable;
      this.interfaceTable := interfaceTable;
      this.parse := parse;
    }

    // Global verdict policies: each appends exactly one row to the global table.

    method CheckService(pattern: Pattern, cmd: string)
      requires parse.Some? && globalTable.Some?
      modifies this`globalTable
      ensures globalTable == Some(old(globalTable.value).AddRow(
                Row(cmd, if Present(parse.value, pattern) then Fail else Pass)))
    {
      if Present(parse.value, pattern) {
        globalTable := Some(globalTable.value.AddRow(Row(cmd, Fail)));
      } else {
        globalTable := Some(globalTable.value.AddRow(Row(cmd, Pass)));
      }
    }

    method CheckConfig(pattern: Pattern, cmd: string)
      requires parse.Some? && globalTable.Some?
      modifies this`globalTable
      ensures globalTable == Some(old(globalTable.value).AddRow(
                Row(cmd, if Present(parse.value, pattern) then Pass else Fail)))
    {
      if Present(parse.value, pattern) {
        globalTable := Some(globalTable.value.AddRow(Row(cmd, Pass)));
      } else {
        globalTable := Some(globalTable.value.AddRow(Row(cmd, Fail)));
      }
    }

    /** The source's third branch, which would add PASS, can never be taken:
        the pattern is either absent or present. */
    method CheckVulnConfig(pattern: Pattern, cmd: string)
      requires parse.Some? && globalTable.Some?
      modifies this`globalTable
      ensures globalTable == Some(old(globalTable.value).AddRow(
                Row(cmd, if Present(parse.value, pattern) then Warn else NotInUse)))
      ensures globalTable.value.rows[|globalTable.value.rows| - 1].status != Pass
    {
      if !Present(parse.value, pattern) {
        globalTable := Some(globalTable.value.AddRow(Row(cmd, NotInUse)));
      } else if Present(parse.value, pattern) {
        globalTable := Some(globalTable.value.AddRow(Row(cmd, Warn)));
      } else {
        assert false;
      }
    }

    method CheckOptionalConfig(pattern: Pattern, cmd: string)
      requires parse.Some? && globalTable.Some?
      modifies this`globalTable
      ensures globalTable == Some(old(globalTable.value).AddRow(
                Row(cmd, if Present(parse.value, pattern) then Pass else Recommended)))
      ensures globalTable.value.rows[|globalTable.value.rows| - 1].status != Fail
    {
      if Present(parse.value, pattern) {
        globalTable := Some(globalTable.value.AddRow(Row(cmd, Pass)));
      } else {
        globalTable := Some(globalTable.value.AddRow(Row(cmd, Recommended)));
      }
    }

    /** One catalog entry, run by its policy. */
    method RunCheck(c: Check)
      requires parse.Some? && globalTable.Some?
      modifies this`globalTable
      ensures globalTable == Some(old(globalTable.value).AddRow(CheckRow(parse.value, c)))
    {
      match c.policy
      case StandardService => CheckService(c.pattern, c.cmd);
      case StandardConfig => CheckConfig(c.pattern, c.cmd);
      case VulnConfig => CheckVulnConfig(c.pattern, c.cmd);
      case OptionalConfig => CheckOptionalConfig(c.pattern, c.cmd);
    }

    /** A fixed sequence of policy calls, in order. */
    method RunChecks(checks: seq<Check>)
      requires parse.Some? && globalTable.Some?
      modifies this`globalTable
      ensures globalTable == Some(old(globalTable.value).AddRows(CatalogRows(parse.value, checks)))
    {
      ghost var start := globalTable.value;
      start.AddNoRows();
      for i := 0 to |checks|
        invariant globalTable == Some(start.AddRows(CatalogRows(parse.value, checks[..i])))
      {
        RunCheck(checks[i]);
        CatalogRowsSnoc(parse.value, checks, i);
        start.AddRowsThenRow(CatalogRows(parse.value, checks[..i]), CheckRow(parse.value, checks[i]));
      }
      assert checks[..|checks|] == checks;
    }

    /** The AAA section of `global_config`: one FAIL row when AAA is switched
        off, otherwise a PASS row followed by the AAA sub-checks. */
    method CheckAaa()
      requires parse.Some? && globalTable.Some?
      modifies this`globalTable
      ensures globalTable == Some(old(globalTable.value).AddRows(AaaRows(parse.value, AaaChecksAsWritten)))
    {
      ghost var start := globalTable.value;
      if Present(parse.value, NoAaaNewModel) {
        globalTable := Some(globalTable.value.AddRow(Row(AaaNewModelLabel, Fail)));
        start.AddNoRows();
        start.AddRowsThenRow([], Row(AaaNewModelLabel, Fail));
      } else {
        globalTable := Some(globalTable.value.AddRow(Row(AaaNewModelLabel, Pass)));
        RunChecks(AaaChecksAsWritten);
        start.AddNoRows();
        start.AddRowsThenRow([], Row(AaaNewModelLabel, Pass));
        start.AddRowsThenRows([Row(AaaNewModelLabel, Pass)], CatalogRows(parse.value, AaaChecksAsWritten));
      }
    }

    /** `global_config`: parse, title the table with the host name, run the base
        checks, the AAA section and finally the SNMP check. */
    method GlobalConfig(runningConfig: RunningConfig)
      modifies this`globalTable, this`parse
      ensures parse == Some(runningConfig)
      ensures globalTable == Some(Table(Hostname(runningConfig) + " Global Config Audit",
                                        GlobalAuditRows(runningConfig)))
    {
      parse := Some(runningConfig);
      var empty := Table(Hostname(runningConfig) + " Global Config Audit", []);
      globalTable := Some(empty);
      RunChecks(BaseChecksAsWritten);
      ghost var base := CatalogRows(runningConfig, BaseChecksAsWritten);
      ghost var aaa := AaaRows(runningConfig, AaaChecksAsWritten);
      CheckAaa();
      empty.AddRowsThenRows(base, aaa);
      RunCheck(SnmpCheck);
      empty.AddRowsThenRow(base + aaa, CheckRow(runningConfig, SnmpCheck));
    }

    // Interface-level checks: each appends its rows to the interface table.

    /** `check_vlan1`. */
    method CheckVlan1(parse: RunningConfig)
      requires interfaceTable.Some?
      modifies this`interfaceTable
      ensures interfaceTable == Some(old(interfaceTable.value).AddRows(Vlan1Rows(parse)))
    {
      var vlans := FindObjects(parse, Vlan1Selector);
      if vlans == [] {
        interfaceTable := Some(interfaceTable.value.AddRow(Vlan1NotFound));
      } else {
        ghost var start := interfaceTable.value;
        start.AddNoRows();
        for i := 0 to |vlans|
          invariant interfaceTable == Some(start.AddRows(seq(i, k requires 0 <= k < i => Vlan1Row(vlans[k]))))
        {
          var v := vlans[i];
          var audit := "'" + v.text + "' has no ip address and is shutdown";
          if HasChild(v, Suffix(" shutdown")) && HasChild(v, Suffix(" no ip address")) {
            interfaceTable := Some(interfaceTable.value.AddRow(Row(audit, Pass)));
          } else {
            interfaceTable := Some(interfaceTable.value.AddRow(Row(audit, Fail)));
          }
          assert seq(i + 1, k requires 0 <= k < i + 1 => Vlan1Row(vlans[k]))
              == seq(i, k requires 0 <= k < i => Vlan1Row(vlans[k])) + [Vlan1Row(v)];
          start.AddRowsThenRow(seq(i, k requires 0 <= k < i => Vlan1Row(vlans[k])), Vlan1Row(v));
        }
      }
    }

    /** One pass of an aggregator's loop: a FAIL row for a block that neither
        has the control nor is shut down, and whether the block counts as passing. */
    method AuditScopedBlock(rule: ScopedRule, b: Block) returns (passed: bool)
      requires interfaceTable.Some?
      modifies this`interfaceTable
      ensures passed == Passes(rule, b)
      ensures interfaceTable == Some(old(interfaceTable.value).AddRows(
                if passed then [] else [FailRow(rule, b)]))
    {
      if !Holds(rule.control, b) && !HasChild(b, rule.shutdown) {
        interfaceTable := Some(interfaceTable.value.AddRow(FailRow(rule, b)));
        passed := false;
      } else {
        interfaceTable.value.AddNoRows();
        passed := true;
      }
    }

    /** The shared shape of `check_mop` ... `check_ip_unreachables`: a global
        override gives one PASS row; otherwise each scoped block that neither has
        the control nor is shut down gets a FAIL row while the tallies count,
        and the decision after the loop adds the no-scope row, the aggregate
        PASS row, or nothing. */
    method CheckScoped(rule: ScopedRule, parse: RunningConfig)
      requires interfaceTable.Some?
      modifies this`interfaceTable
      ensures interfaceTable == Some(old(interfaceTable.value).AddRows(ScopedRows(rule, parse)))
      ensures Overridden(rule, parse) ==>
                interfaceTable == Some(old(interfaceTable.value).AddRow(Row(rule.overrideAudit, Pass)))
    {
      if rule.globalOverride.Some? && Present(parse, rule.globalOverride.value) {
        interfaceTable := Some(interfaceTable.value.AddRow(Row(rule.overrideAudit, Pass)));
        return;
      }
      var scope := FindObjects(parse, rule.scope);
      var total, passing := 0, 0;
      ghost var start := interfaceTable.value;
      start.AddNoRows();
      for i := 0 to |scope|
        invariant total == i
        invariant passing == PassCount(rule, scope[..i])
        invariant interfaceTable == Some(start.AddRows(FailRows(rule, scope[..i])))
      {
        var b := scope[i];
        var passed := AuditScopedBlock(rule, b);
        if passed {
          passing := passing + 1;
        }
        total := total + 1;
        start.AddRowsThenRows(FailRows(rule, scope[..i]), if passed then [] else [FailRow(rule, b)]);
        assert scope[..i + 1] == scope[..i] + [b];
        FailRowsSnoc(rule, scope[..i], b);
      }
      assert scope[..|scope|] == scope;
      ghost var fails := FailRows(rule, scope);
      if total == 0 {
        interfaceTable := Some(interfaceTable.value.AddRow(Row(rule.noScopeAudit, rule.noScopeStatus)));
        start.AddRowsThenRow(fails, Row(rule.noScopeAudit, rule.noScopeStatus));
      } else if passing == total {
        interfaceTable := Some(interfaceTable.value.AddRow(Row(rule.allAudit, Pass)));
        start.AddRowsThenRow(fails, Row(rule.allAudit, Pass));
      } else {
        assert fails + [] == fails;
      }
    }

    method CheckMop(parse: RunningConfig)
      requires interfaceTable.Some?
      modifies this`interfaceTable
      ensures interfaceTable == Some(old(interfaceTable.value).AddRows(ScopedRows(MopRule, parse)))
    {
      CheckScoped(MopRule, parse);
    }

    method CheckPortSecurity(parse: RunningConfig)
      requires interfaceTable.Some?
      modifies this`interfaceTable
      ensures interfaceTable == Some(old(interfaceTable.value).AddRows(ScopedRows(PortSecurityRule, parse)))
    {
      CheckScoped(PortSecurityRule, parse);
    }

    method CheckStpPortfast(parse: RunningConfig)
      requires interfaceTable.Some?
      modifies this`interfaceTable
      ensures interfaceTable == Some(old(interfaceTable.value).AddRows(ScopedRows(StpPortfastRule, parse)))
    {
      CheckScoped(StpPortfastRule, parse);
    }

    method CheckStpBpdu(parse: RunningConfig)
      requires interfaceTable.Some?
      modifies this`interfaceTable
      ensures interfaceTable == Some(old(interfaceTable.value).AddRows(ScopedRows(StpBpduRule, parse)))
    {
      CheckScoped(StpBpduRule, parse);
    }

    method CheckStpRoot(parse: RunningConfig)
      requires interfaceTable.Some?
      modifies this`interfaceTable
      ensures interfaceTable == Some(old(interfaceTable.value).AddRows(ScopedRows(StpRootRule, parse)))
    {
      CheckScoped(StpRootRule, parse);
    }

    method CheckCdp(parse: RunningConfig)
      requires interfaceTable.Some?
      modifies this`interfaceTable
      ensures interfaceTable == Some(old(interfaceTable.value).AddRows(ScopedRows(CdpRule, parse)))
    {
      CheckScoped(CdpRule, parse);
    }

    method CheckLldp(parse: RunningConfig)
      requires interfaceTable.Some?
      modifies this`interfaceTable
      ensures interfaceTable == Some(old(interfaceTable.value).AddRows(ScopedRows(LldpRule, parse)))
    {
      CheckScoped(LldpRule, parse);
    }

    method CheckIpSrcVerify(parse: RunningConfig)
      requires interfaceTable.Some?
      modifies this`interfaceTable
      ensures interfaceTable == Some(old(interfaceTable.value).AddRows(ScopedRows(IpSrcVerifyRule, parse)))
    {
      CheckScoped(IpSrcVerifyRule, parse);
    }

    method CheckStickyMac(parse: RunningConfig)
      requires interfaceTable.Some?
      modifies this`interfaceTable
      ensures interfaceTable == Some(old(interfaceTable.value).AddRows(ScopedRows(StickyMacRule, parse)))
    {
      CheckScoped(StickyMacRule, parse);
    }

    method CheckArpProxy(parse: RunningConfig)
      requires interfaceTable.Some?
      modifies this`interfaceTable
      ensures interfaceTable == Some(old(interfaceTable.value).AddRows(ScopedRows(ArpProxyRule, parse)))
    {
      CheckScoped(ArpProxyRule, parse);
    }

    method CheckIpRedirects(parse: RunningConfig)
      requires interfaceTable.Some?
      modifies this`interfaceTable
      ensures interfaceTable == Some(old(interfaceTable.value).AddRows(ScopedRows(IpRedirectsRule, parse)))
    {
      CheckScoped(IpRedirectsRule, parse);
    }

    /** Defined in the source but not called by `interface_config`. */
    method CheckRouteCache(parse: RunningConfig)
      requires interfaceTable.Some?
      modifies this`interfaceTable
      ensures interfaceTable == Some(old(interfaceTable.value).AddRows(ScopedRows(RouteCacheRule, parse)))
    {
      CheckScoped(RouteCacheRule, parse);
    }

    method CheckDirectedBroadcast(parse: RunningConfig)
      requires interfaceTable.Some?
      modifies this`interfaceTable
      ensures interfaceTable == Some(old(interfaceTable.value).AddRows(ScopedRows(DirectedBroadcastRule, parse)))
    {
      CheckScoped(DirectedBroadcastRule, parse);
    }

    method CheckIpUnreachables(parse: RunningConfig)
      requires interfaceTable.Some?
      modifies this`interfaceTable
      ensures interfaceTable == Some(old(interfaceTable.value).AddRows(ScopedRows(IpUnreachablesRule, parse)))
    {
      CheckScoped(IpUnreachablesRule, parse);
    }

    /** One pass of `check_lines`' loop: the rows for one `line vty` block. */
    method AuditVtyLine(line: Block) returns (ssh: bool)
      requires interfaceTable.Some?
      modifies this`interfaceTable
      ensures ssh == HasChild(line, TransportSsh)
      ensures interfaceTable == Some(old(interfaceTable.value).AddRows(VtyRows(line)))
    {
      ghost var start := interfaceTable.value;
      if !HasChild(line, TransportSsh) {
        interfaceTable := Some(interfaceTable.value.AddRow(TransportRow(line)));
        ssh := false;
      } else {
        interfaceTable := Some(interfaceTable.value.AddRow(TransportRow(line)));
        ssh := true;
      }
      ghost var mid := interfaceTable.value.rows;
      if !HasChild(line, ExecTimeout) {
        interfaceTable := Some(interfaceTable.value.AddRow(ExecTimeoutRow(line)));
      }
      ghost var mid2 := interfaceTable.value.rows;
      if !HasChild(line, LoggingSync) {
        interfaceTable := Some(interfaceTable.value.AddRow(LoggingRow(line)));
      }
      assert mid == start.rows + [TransportRow(line)];
      assert mid2 == mid + (if HasChild(line, ExecTimeout) then [] else [ExecTimeoutRow(line)]);
      assert interfaceTable.value.rows
          == mid2 + (if HasChild(line, LoggingSync) then [] else [LoggingRow(line)]);
      assert interfaceTable.value.rows == start.rows + VtyRows(line);
    }

    /** `check_lines`: three kinds of row per `line vty` block, then the decision
        on the transport tally. */
    method CheckLines(parse: RunningConfig)
      requires interfaceTable.Some?
      modifies this`interfaceTable
      ensures interfaceTable == Some(old(interfaceTable.value).AddRows(LinesRows(parse)))
    {
      var lines := FindObjects(parse, VtySelector);
      var total, passing := 0, 0;
      ghost var start := interfaceTable.value;
      start.AddNoRows();
      for i := 0 to |lines|
        invariant total == i
        invariant passing == SshCount(lines[..i])
        invariant interfaceTable == Some(start.AddRows(VtyBody(lines[..i])))
      {
        var line := lines[i];
        var ssh := AuditVtyLine(line);
        if ssh {
          passing := passing + 1;
        }
        total := total + 1;
        start.AddRowsThenRows(VtyBody(lines[..i]), VtyRows(line));
        assert lines[..i + 1] == lines[..i] + [line];
        VtyBodySnoc(lines[..i], line);
      }
      assert lines[..|lines|] == lines;
      ghost var body := VtyBody(lines);
      if total == 0 {
        interfaceTable := Some(interfaceTable.value.AddRow(VtyNoScope));
        start.AddRowsThenRow(body, VtyNoScope);
      } else if passing == total {
        interfaceTable := Some(interfaceTable.value.AddRow(VtyAllPass));
        start.AddRowsThenRow(body, VtyAllPass);
      } else {
        assert body + [] == body;
      }
    }

    /** `interface_config`: parse, title the table with the host name and run the
        interface-level checks in their fixed order. */
    method InterfaceConfig(runningConfig: RunningConfig)
      modifies this`interfaceTable, this`parse
      ensures parse == Some(runningConfig)
      ensures interfaceTable == Some(Table(Hostname(runningConfig) + " Interface-Level Audit",
                                           InterfaceAuditRows(runningConfig)))
    {
      parse := Some(runningConfig);
      interfaceTable := Some(Table(Hostname(runningConfig) + " Interface-Level Audit", []));
      var cfg := parse.value;
      CheckVlan1(cfg);
      CheckMop(cfg);
      CheckPortSecurity(cfg);
      CheckStpPortfast(cfg);
      CheckStpBpdu(cfg);
      CheckStpRoot(cfg);
      CheckCdp(cfg);
      CheckLldp(cfg);
      CheckIpSrcVerify(cfg);
      CheckStickyMac(cfg);
      CheckArpProxy(cfg);
      CheckIpRedirects(cfg);
      CheckIpUnreachables(cfg);
      CheckDirectedBroadcast(cfg);
      CheckLines(cfg);
    }
  }
}
