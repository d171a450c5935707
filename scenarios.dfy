/** Concrete configurations and the rows the audit gives them. */
module Scenarios {
  import opened ConfParse
  import opened Report
  import opened Catalog
  import opened Scoped

  const AccessMacSticky: Block := Block("interface GigabitEthernet0/1", [
    " switchport mode access",
    " switchport port-security",
    " switchport port-security mac-address sticky"
  ])

  const HardenedSwitch: RunningConfig := [Block("hostname SW1", []), AccessMacSticky]

  lemma TrimmedHostname()
    ensures TrimLeft(" SW1") == "SW1"
  {
    assert " SW1"[1..] == "SW1";
    assert !IsSpace("SW1"[0]);
  }

  lemma HostnameWord()
    ensures LeadingWord("SW1") == "SW1"
  {
    assert "1"[1..] == [];
    assert LeadingWord("1") == "1";
    assert "W1"[1..] == "1";
    assert LeadingWord("W1") == "W1";
    assert "SW1"[1..] == "W1";
  }

  lemma HostnameLineArgument()
    ensures HostnameArgument("hostname SW1") == Some("SW1")
  {
    var line := "hostname SW1";
    assert "hostname" <= line;
    assert line[8..] == " SW1";
    TrimmedHostname();
    HostnameWord();
  }

  /** The host name comes from the `hostname` line rather than the default. */
  lemma HardenedSwitchHostname()
    ensures Hostname(HardenedSwitch) == "SW1"
  {
    HostnameLineArgument();
    var lines := AllLines(HardenedSwitch);
    assert lines[0] == "hostname SW1";
    assert FirstHostnameIndex(lines) == 0;
  }

  /** Only the access port is in the access-port scope; the hostname line is not. */
  lemma HardenedSwitchScope()
    ensures FindObjects(HardenedSwitch, AccessPorts) == [AccessMacSticky]
  {
    assert Selects(AccessPorts, AccessMacSticky) by {
      var c := AccessMacSticky.children[0];
      assert c in AccessMacSticky.children && Matches(AccessMode, c);
    }
    assert !Selects(AccessPorts, HardenedSwitch[0]);
    assert HardenedSwitch[1..] == [AccessMacSticky];
    assert FindObjects([AccessMacSticky], AccessPorts) == [AccessMacSticky] + FindObjects([], AccessPorts);
  }

  lemma StickyPortPasses()
    ensures Passes(PortSecurityRule, AccessMacSticky)
  {
    var c := AccessMacSticky.children[1];
    assert c in AccessMacSticky.children && Matches(Prefix(" switchport port-security"), c);
  }

  /** One access port with port-security and a sticky MAC: the port-security
      check gives its single aggregate PASS row and no per-interface row. */
  lemma HardenedAccessPortPasses()
    ensures ScopedRows(PortSecurityRule, HardenedSwitch)
            == [Row("switchport port-security (All access interfaces)", Pass)]
  {
    HardenedSwitchScope();
    StickyPortPasses();
    FailRowsSingle(PortSecurityRule, AccessMacSticky);
    assert PassCount(PortSecurityRule, [AccessMacSticky]) == 1;
  }

  const OpenAccessPort: Block := Block("interface GigabitEthernet0/2", [" switchport mode access"])

  /** The only child of the open port matches neither port-security pattern
      nor the shutdown marker. */
  lemma OpenAccessPortNotExempt()
    ensures !Passes(PortSecurityRule, OpenAccessPort)
  {
    var c := " switchport mode access";
    assert OpenAccessPort.children == [c];
    assert c[12] == 'm';
    assert !(" switchport port-security" <= c) by {
      assert " switchport port-security"[12] == 'p';
    }
    assert !(" switchport port-security mac-address " <= c) by {
      assert " switchport port-security mac-address "[12] == 'p';
    }
    assert c[|c| - 8..] == "e access";
  }

  lemma OpenAccessPortInScope()
    ensures FindObjects([OpenAccessPort], AccessPorts) == [OpenAccessPort]
  {
    var c := OpenAccessPort.children[0];
    assert c in OpenAccessPort.children && Matches(AccessMode, c);
    assert FindObjects([OpenAccessPort], AccessPorts) == [OpenAccessPort] + FindObjects([], AccessPorts);
  }

  /** One access port without any port-security line: exactly one FAIL row,
      naming that interface and the missing command, and no aggregate PASS row. */
  lemma OpenAccessPortFails()
    ensures ScopedRows(PortSecurityRule, [OpenAccessPort]) == [FailRow(PortSecurityRule, OpenAccessPort)]
    ensures FailRow(PortSecurityRule, OpenAccessPort)
            == Row(OpenAccessPort.text + " switchport port-security mac-address", Fail)
  {
    OpenAccessPortInScope();
    OpenAccessPortNotExempt();
    assert Failing(PortSecurityRule, [OpenAccessPort]) == [OpenAccessPort];
    assert PassCount(PortSecurityRule, [OpenAccessPort]) == 0;
    assert FailRows(PortSecurityRule, [OpenAccessPort]) == [FailRow(PortSecurityRule, OpenAccessPort)];
    assert AggregateRows(PortSecurityRule, [OpenAccessPort])
        == [FailRow(PortSecurityRule, OpenAccessPort)] + [];
  }

  const WeakCommunity: RunningConfig := [Block("snmp-server community public ro", [])]

  /** The public read-only community line makes the SNMP row, last in the
      global table, a WARN. */
  lemma WeakCommunityWarns()
    ensures var rows := GlobalAuditRows(WeakCommunity);
      rows[|rows| - 1] == Row("Weak SNMPv2c community string (Trivial authentication)", Warn)
  {
    assert Matches(SnmpCheck.pattern, AllLines(WeakCommunity)[0]);
    GlobalAuditLayout(WeakCommunity);
  }
}
