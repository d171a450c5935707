/** The interface-level audit as data: scoped aggregate rules over selected
    interface or line blocks, with the shutdown exemption, the tallies and the
    three-way decision after the loop, plus the Vlan1 and VTY line checks. */
module Scoped {
  import opened ConfParse
  import opened Report

  /** A condition on a block's direct children. */
  datatype Cond = Has(p: Pattern) | Lacks(p: Pattern) | AnyOf(left: Cond, right: Cond)

  predicate Holds(c: Cond, b: Block) {
    match c
    case Has(p) => HasChild(b, p)
    case Lacks(p) => !HasChild(b, p)
    case AnyOf(l, r) => Holds(l, b) || Holds(r, b)
  }

  /** One scoped aggregator (`check_mop`, `check_port_security`, ...):
      an optional global directive that passes the whole check, the blocks in
      scope, the control a block needs, the shutdown marker that exempts it,
      the label of a failing block's row (the block text, quoted or not, and a
      suffix), and the rows for "all pass" and for "nothing in scope". */
  datatype ScopedRule = ScopedRule(
    globalOverride: Option<Pattern>, overrideAudit: string,
    scope: Selector, control: Cond, shutdown: Pattern,
    quoted: bool, failSuffix: string,
    allAudit: string, noScopeAudit: string, noScopeStatus: Verdict)

  /** A block counts as passing when it has the control or is shut down. */
  predicate Passes(r: ScopedRule, b: Block) {
    Holds(r.control, b) || HasChild(b, r.shutdown)
  }

  function FailAudit(r: ScopedRule, b: Block): string {
    (if r.quoted then "'" + b.text + "'" else b.text) + r.failSuffix
  }

  function FailRow(r: ScopedRule, b: Block): Row {
    Row(FailAudit(r, b), Fail)
  }

  /** The blocks that fail the rule, in scope order. */
  function Failing(r: ScopedRule, s: seq<Block>): (f: seq<Block>)
    ensures |f| <= |s|
  {
    if s == [] then []
    else if Passes(r, s[0]) then Failing(r, s[1..])
    else [s[0]] + Failing(r, s[1..])
  }

  /** The passing tally (`*_pass`) over a scope. */
  function PassCount(r: ScopedRule, s: seq<Block>): (n: nat)
    ensures n <= |s|
  {
    if s == [] then 0 else (if Passes(r, s[0]) then 1 else 0) + PassCount(r, s[1..])
  }

  /** One FAIL row per failing block, in scope order. */
  function FailRows(r: ScopedRule, s: seq<Block>): seq<Row> {
    if s == [] then []
    else (if Passes(r, s[0]) then [] else [FailRow(r, s[0])]) + FailRows(r, s[1..])
  }

  /** A block fails exactly when it is in scope and neither has the control nor
      is shut down. */
  lemma {:induction false} FailingMembers(r: ScopedRule, s: seq<Block>)
    ensures forall b :: b in Failing(r, s) <==> b in s && !Passes(r, b)
  {
    if s != [] {
      FailingMembers(r, s[1..]);
      assert forall b | b in s && b != s[0] :: b in s[1..];
      assert forall b | b in s[1..] :: b in s;
    }
  }

  /** The FAIL rows are the failing blocks' rows, one each, in scope order. */
  lemma {:induction false} FailRowsOfFailing(r: ScopedRule, s: seq<Block>)
    ensures |FailRows(r, s)| == |Failing(r, s)|
    ensures forall k | 0 <= k < |FailRows(r, s)| :: FailRows(r, s)[k] == FailRow(r, Failing(r, s)[k])
  {
    if s != [] {
      FailRowsOfFailing(r, s[1..]);
    }
  }

  /** The decision after the loop, in integer form: `total == 0` (the source's
      ZeroDivisionError), `passing == total` (the source's ratio equal to 1),
      or neither. */
  datatype Outcome = NoScope | AllPass | SomeFail

  function Decide(total: nat, passing: nat): Outcome
    requires passing <= total
  {
    if total == 0 then NoScope else if passing == total then AllPass else SomeFail
  }

  function OutcomeRows(r: ScopedRule, o: Outcome): seq<Row> {
    match o
    case NoScope => [Row(r.noScopeAudit, r.noScopeStatus)]
    case AllPass => [Row(r.allAudit, Pass)]
    case SomeFail => []
  }

  /** The rows an aggregator appends for a scope once no global override applies. */
  function AggregateRows(r: ScopedRule, s: seq<Block>): seq<Row> {
    FailRows(r, s) + OutcomeRows(r, Decide(|s|, PassCount(r, s)))
  }

  predicate Overridden(r: ScopedRule, cfg: RunningConfig) {
    r.globalOverride.Some? && Present(cfg, r.globalOverride.value)
  }

  /** The rows an aggregator appends for a configuration. */
  function ScopedRows(r: ScopedRule, cfg: RunningConfig): seq<Row> {
    if Overridden(r, cfg) then [Row(r.overrideAudit, Pass)]
    else AggregateRows(r, FindObjects(cfg, r.scope))
  }

  lemma {:induction false} FailingAppend(r: ScopedRule, a: seq<Block>, b: seq<Block>)
    ensures Failing(r, a + b) == Failing(r, a) + Failing(r, b)
  {
    if a == [] {
      assert a + b == b;
    } else {
      assert (a + b)[1..] == a[1..] + b;
      FailingAppend(r, a[1..], b);
    }
  }

  lemma {:induction false} PassCountAppend(r: ScopedRule, a: seq<Block>, b: seq<Block>)
    ensures PassCount(r, a + b) == PassCount(r, a) + PassCount(r, b)
  {
    if a == [] {
      assert a + b == b;
    } else {
      assert (a + b)[1..] == a[1..] + b;
      PassCountAppend(r, a[1..], b);
    }
  }

  /** Each block of a scope is either tallied as passing or failing, never both. */
  lemma {:induction false} TallySplitsScope(r: ScopedRule, s: seq<Block>)
    ensures |Failing(r, s)| + PassCount(r, s) == |s|
  {
    if s != [] {
      TallySplitsScope(r, s[1..]);
    }
  }

  lemma {:induction false} AllPassIff(r: ScopedRule, s: seq<Block>)
    ensures PassCount(r, s) == |s| <==> forall b | b in s :: Passes(r, b)
  {
    if s != [] {
      AllPassIff(r, s[1..]);
      assert forall b | b in s[1..] :: b in s;
      assert forall b | b in s && b != s[0] :: b in s[1..];
    }
  }

  lemma {:induction false} FailRowsAppend(r: ScopedRule, a: seq<Block>, b: seq<Block>)
    ensures FailRows(r, a + b) == FailRows(r, a) + FailRows(r, b)
  {
    if a == [] {
      assert a + b == b;
    } else {
      assert (a + b)[1..] == a[1..] + b;
      FailRowsAppend(r, a[1..], b);
    }
  }

  lemma FailRowsSingle(r: ScopedRule, b: Block)
    ensures FailRows(r, [b]) == if Passes(r, b) then [] else [FailRow(r, b)]
  {
    assert [b][1..] == [];
  }

  /** Appending one more block to the loop's scope adds its FAIL row, if any,
      after the earlier ones: the FAIL rows come out exactly once each, in scope order. */
  lemma FailRowsSnoc(r: ScopedRule, s: seq<Block>, b: Block)
    ensures FailRows(r, s + [b]) == FailRows(r, s) + (if Passes(r, b) then [] else [FailRow(r, b)])
    ensures PassCount(r, s + [b]) == PassCount(r, s) + (if Passes(r, b) then 1 else 0)
  {
    FailRowsAppend(r, s, [b]);
    FailRowsSingle(r, b);
    PassCountAppend(r, s, [b]);
    assert [b][1..] == [];
  }

  /** A block in the middle of a scope contributes exactly its own FAIL row, in
      place, when it fails, and none when it passes. */
  lemma FailRowsInScopeOrder(r: ScopedRule, before: seq<Block>, b: Block, after: seq<Block>)
    ensures FailRows(r, before + [b] + after) ==
            FailRows(r, before) + (if Passes(r, b) then [] else [FailRow(r, b)]) + FailRows(r, after)
  {
    FailRowsAppend(r, before + [b], after);
    FailRowsAppend(r, before, [b]);
    FailRowsSingle(r, b);
  }

  /** The three outcomes after the loop: an empty scope gives exactly the
      no-scope row; a fully passing scope gives exactly one aggregate PASS row;
      otherwise only the `total - pass` FAIL rows. */
  lemma AggregateDecision(r: ScopedRule, s: seq<Block>)
    ensures PassCount(r, s) <= |s|
    ensures |s| == 0 ==> AggregateRows(r, s) == [Row(r.noScopeAudit, r.noScopeStatus)]
    ensures 0 < |s| && PassCount(r, s) == |s| ==> AggregateRows(r, s) == [Row(r.allAudit, Pass)]
    ensures PassCount(r, s) < |s| ==>
              AggregateRows(r, s) == FailRows(r, s) &&
              |AggregateRows(r, s)| == |s| - PassCount(r, s) &&
              forall k | 0 <= k < |AggregateRows(r, s)| :: AggregateRows(r, s)[k].status == Fail
  {
    TallySplitsScope(r, s);
    FailRowsOfFailing(r, s);
  }

  /** When the no-scope row is not a PASS, a PASS row appears exactly when the
      scope is non-empty and every block in it passes. */
  lemma AggregatePassIff(r: ScopedRule, s: seq<Block>)
    requires r.noScopeStatus != Pass
    ensures (exists k | 0 <= k < |AggregateRows(r, s)| :: AggregateRows(r, s)[k].status == Pass)
            <==> |s| > 0 && forall b | b in s :: Passes(r, b)
  {
    AggregateDecision(r, s);
    AllPassIff(r, s);
    if |s| > 0 && PassCount(r, s) == |s| {
      assert AggregateRows(r, s)[0].status == Pass;
    }
  }

  /** A block with a `shutdown` child always counts as passing and never fails,
      whenever the rule's shutdown pattern accepts the plain ` shutdown` line. */
  lemma ShutdownExempt(r: ScopedRule, s: seq<Block>, b: Block)
    requires Matches(r.shutdown, " shutdown")
    requires b in s && " shutdown" in b.children
    ensures Passes(r, b)
    ensures b !in Failing(r, s)
  {
    FailingMembers(r, s);
  }

  // The access-port and layer-3 scopes.
  const AccessMode: Pattern := Exact(" switchport mode access")
  const AccessPorts: Selector := TextWithChild(Prefix("interface "), AccessMode)
  const L3Interfaces: Selector := TextWithChild(Prefix("interface "), Prefix(" ip address "))
  const AnyShutdown: Pattern := Indented("shutdown")
  const Shutdown: Pattern := Exact(" shutdown")
  const CheckAccessPorts: string := "(Check access ports configuration)"
  const VerifyL3: string := "(Verify L3 interfaces configuration)"

  const MopRule: ScopedRule := ScopedRule(
    None, "", AccessPorts, Has(Exact(" no mop enabled")), AnyShutdown,
    false, " no mop enabled",
    "no mop enabled (All access interfaces)", "no mop enabled " + CheckAccessPorts, Warn)

  const PortSecurityRule: ScopedRule := ScopedRule(
    None, "", AccessPorts,
    AnyOf(Has(Or(Prefix(" switchport port-security"), Exact(" ip verify source port security"))),
          Has(Prefix(" switchport port-security mac-address "))),
    AnyShutdown,
    false, " switchport port-security mac-address",
    "switchport port-security (All access interfaces)", "switchport port-security " + CheckAccessPorts, Warn)

  const StpPortfastRule: ScopedRule := ScopedRule(
    Some(Exact("spanning-tree portfast default")), "spanning-tree portfast default (Global)",
    AccessPorts, Has(Prefix(" spanning-tree portfast ")), AnyShutdown,
    false, " spanning-tree portfast",
    "spanning-tree portfast (All access interfaces)", "spanning-tree portfast " + CheckAccessPorts, Warn)

  const StpBpduRule: ScopedRule := ScopedRule(
    Some(Exact("spanning-tree portfast bpduguard default")), "spanning-tree portfast bpduguard default (Global)",
    TextWithChild(Prefix("interf"), AccessMode), Has(Exact(" spanning-tree bpduguard enable")), AnyShutdown,
    false, " spanning-tree bpduguard enable",
    "spanning-tree bpduguard enable (All access interfaces)", "spanning-tree bpduguard " + CheckAccessPorts, Warn)

  const StpRootRule: ScopedRule := ScopedRule(
    None, "", AccessPorts,
    Has(Or(Exact(" spanning-tree guard root"), Exact(" spanning-tree rootguard"))), AnyShutdown,
    false, " spanning-tree guard root",
    "spanning-tree guard root (All access interfaces)", "spanning-tree guard root " + CheckAccessPorts, Warn)

  const CdpRule: ScopedRule := ScopedRule(
    Some(Exact("no cdp run")), "no cdp run (Global)",
    AccessPorts, Has(Exact(" no cdp enable")), Shutdown,
    false, " no cdp enable",
    "no cdp enable (All access interfaces)", "no cdp enable " + CheckAccessPorts, Warn)

  const LldpRule: ScopedRule := ScopedRule(
    Some(Exact("no lldp run")), "no lldp run (Global)",
    AccessPorts, AnyOf(Has(Exact(" no lldp transmit")), Has(Exact(" no lldp receive"))), Shutdown,
    true, " no lldp transmit/receive",
    "no lldp transmit/receive (All access interfaces)", "no lldp transmit/receive " + CheckAccessPorts, Warn)

  const IpSrcVerifyRule: ScopedRule := ScopedRule(
    None, "", AccessPorts, Has(Exact(" ip verify source")), Shutdown,
    true, " ip verify source",
    "ip verify source (All access interfaces)", "ip verify source " + CheckAccessPorts, Warn)

  /** As in the source: an interface fails only when it has the sticky MAC line
      but not the plain `switchport port-security` line. */
  const StickyMacRule: ScopedRule := ScopedRule(
    None, "", AccessPorts,
    AnyOf(Has(Exact(" switchport port-security")), Lacks(Exact(" switchport port-security mac-address sticky"))),
    Shutdown,
    true, " switchport port-security mac-address sticky",
    "switchport port-security (All access interfaces)",
    "switchport port-security mac-address sticky " + CheckAccessPorts, Warn)

  const ArpProxyRule: ScopedRule := ScopedRule(
    Some(Exact("ip arp proxy disable")), "ip arp proxy disable (Global)",
    L3Interfaces, Has(Exact(" no ip proxy-arp")), Shutdown,
    true, " no ip proxy-arp",
    "no ip proxy-arp (All interfaces)", "no ip proxy-arp " + VerifyL3, Fail)

  const IpRedirectsRule: ScopedRule := ScopedRule(
    None, "", L3Interfaces, Has(Exact(" no ip redirects")), Shutdown,
    true, " no ip redirects",
    "no ip redirects (All interfaces)", "no ip redirects " + VerifyL3, Fail)

  const RouteCacheRule: ScopedRule := ScopedRule(
    None, "", L3Interfaces, Has(Exact(" no ip route-cache")), Shutdown,
    true, " no ip route-cache",
    "no ip route-cache (All interfaces)", "no ip route-cache " + VerifyL3, Fail)

  const DirectedBroadcastRule: ScopedRule := ScopedRule(
    None, "", L3Interfaces, Has(Exact(" no ip directed-broadcast")), Shutdown,
    true, " no ip directed-broadcast",
    "ip directed-broadcast (All interfaces)", "ip directed-broadcast " + VerifyL3, Fail)

  /** As in the source: an interface fails only when `ip unreachables` is configured on it. */
  const IpUnreachablesRule: ScopedRule := ScopedRule(
    None, "", L3Interfaces, Lacks(Exact(" ip unreachables")), Shutdown,
    true, " no ip unreachables",
    "no ip unreachables (All L3 interfaces)", "no ip unreachables " + VerifyL3, Fail)

  /** The access-port aggregators in the order `interface_config` runs them. */
  const AccessRules: seq<ScopedRule> := [
    MopRule, PortSecurityRule, StpPortfastRule, StpBpduRule, StpRootRule,
    CdpRule, LldpRule, IpSrcVerifyRule, StickyMacRule
  ]

  /** The layer-3 aggregators in the order `interface_config` runs them. */
  const L3Rules: seq<ScopedRule> := [ArpProxyRule, IpRedirectsRule, IpUnreachablesRule, DirectedBroadcastRule]

  /** Every aggregator, the uncalled route-cache one last. */
  const AllRules: seq<ScopedRule> := AccessRules + L3Rules + [RouteCacheRule]

  lemma IndentedShutdownMatches()
    ensures Matches(AnyShutdown, " shutdown")
  {
    var line := " shutdown";
    assert line[|line| - 8..] == "shutdown";
    assert line[..|line| - 8] == " ";
  }

  predicate ShutdownLineExempts(r: ScopedRule) {
    Matches(r.shutdown, " shutdown")
  }

  lemma AccessShutdownMarkers()
    ensures forall i | 0 <= i < |AccessRules| :: AccessRules[i].shutdown == AnyShutdown || AccessRules[i].shutdown == Shutdown
  {
  }

  lemma L3ShutdownMarkers()
    ensures forall i | 0 <= i < |L3Rules| + 1 :: (L3Rules + [RouteCacheRule])[i].shutdown == Shutdown
  {
  }

  /** Every aggregator's shutdown pattern accepts a plain ` shutdown` child. */
  lemma ShutdownMarkersExempt()
    ensures forall r | r in AllRules :: ShutdownLineExempts(r)
  {
    IndentedShutdownMatches();
    assert Matches(Shutdown, " shutdown");
    AccessShutdownMarkers();
    L3ShutdownMarkers();
    var tail := L3Rules + [RouteCacheRule];
    forall r | r in AllRules ensures ShutdownLineExempts(r) {
      var i :| 0 <= i < |AllRules| && AllRules[i] == r;
      if i < |AccessRules| {
        assert r == AccessRules[i];
      } else {
        assert r == tail[i - |AccessRules|];
      }
    }
  }

  /** An empty scope warns for access ports but fails for layer-3 interfaces;
      it never passes. */
  lemma EmptyScopeStatuses()
    ensures forall r | r in AccessRules :: r.noScopeStatus == Warn
    ensures forall r | r in L3Rules + [RouteCacheRule] :: r.noScopeStatus == Fail
    ensures forall r | r in AllRules :: r.noScopeStatus != Pass
  {
    var tail := L3Rules + [RouteCacheRule];
    assert forall i | 0 <= i < |AccessRules| :: AccessRules[i].noScopeStatus == Warn;
    assert forall i | 0 <= i < |tail| :: tail[i].noScopeStatus == Fail;
    forall r | r in AllRules ensures r.noScopeStatus != Pass {
      var i :| 0 <= i < |AllRules| && AllRules[i] == r;
      if i < |AccessRules| {
        assert r == AccessRules[i];
      } else {
        assert r == tail[i - |AccessRules|];
      }
    }
  }

  /** In every aggregator, a scoped interface with a ` shutdown` child counts as
      passing and has no FAIL row. */
  lemma ShutdownNeverFails(r: ScopedRule, cfg: RunningConfig, b: Block)
    requires r in AllRules
    requires b in FindObjects(cfg, r.scope) && " shutdown" in b.children
    ensures Passes(r, b)
    ensures b !in Failing(r, FindObjects(cfg, r.scope))
  {
    ShutdownMarkersExempt();
    assert ShutdownLineExempts(r);
    ShutdownExempt(r, FindObjects(cfg, r.scope), b);
  }

  /** A present global directive replaces the whole check by one PASS row. */
  lemma OverridePasses(r: ScopedRule, cfg: RunningConfig)
    requires r.globalOverride.Some? && Present(cfg, r.globalOverride.value)
    ensures ScopedRows(r, cfg) == [Row(r.overrideAudit, Pass)]
  {
  }

  // check_vlan1

  const Vlan1Selector: Selector := Text(Or(Exact("interface Vlan1"), Exact("interface vlan1")))
  const Vlan1NotFound: Row := Row("'interface Vlan1'", NotFound)

  predicate Vlan1Hardened(b: Block) {
    HasChild(b, Suffix(" shutdown")) && HasChild(b, Suffix(" no ip address"))
  }

  function Vlan1Row(b: Block): Row {
    Row("'" + b.text + "' has no ip address and is shutdown", if Vlan1Hardened(b) then Pass else Fail)
  }

  function Vlan1Rows(cfg: RunningConfig): seq<Row> {
    var vlans := FindObjects(cfg, Vlan1Selector);
    if vlans == [] then [Vlan1NotFound]
    else seq(|vlans|, i requires 0 <= i < |vlans| => Vlan1Row(vlans[i]))
  }

  /** One NOT FOUND row when there is no `interface Vlan1`, otherwise one row per
      Vlan1 interface, PASS exactly when it is shut down and has no IP address. */
  lemma Vlan1Outcome(cfg: RunningConfig)
    ensures var vlans := FindObjects(cfg, Vlan1Selector);
      var rows := Vlan1Rows(cfg);
      (vlans == [] <==> rows == [Vlan1NotFound]) &&
      (vlans != [] ==> |rows| == |vlans| &&
                       forall k | 0 <= k < |rows| ::
                         rows[k] == Row("'" + vlans[k].text + "' has no ip address and is shutdown",
                                        if Vlan1Hardened(vlans[k]) then Pass else Fail) &&
                         rows[k].status != NotFound && (rows[k].status == Pass <==> Vlan1Hardened(vlans[k])))
  {
  }

  // check_lines

  const VtySelector: Selector := Text(Prefix("line vty "))
  const TransportSsh: Pattern := Exact(" transport input ssh")
  const ExecTimeout: Pattern := Exact(" exec-timeout 10 0")
  const LoggingSync: Pattern := Exact(" logging synchronous")
  const VtyNoScope: Row := Row("transport input ssh", Fail)
  const VtyAllPass: Row := Row("transport input ssh (All VTY lines)", Pass)

  function TransportRow(b: Block): Row {
    Row(b.text + " --> transport input ssh", if HasChild(b, TransportSsh) then Pass else Fail)
  }

  function ExecTimeoutRow(b: Block): Row {
    Row(b.text + " --> exec-timeout 10 0", Fail)
  }

  function LoggingRow(b: Block): Row {
    Row(b.text + " --> logging synchronous", Recommended)
  }

  /** The rows one `line vty` block produces in the loop: its transport row
      first, then an exec-timeout FAIL row and a logging RECOMMENDED row, each
      only when the block lacks that line. */
  function VtyRows(b: Block): seq<Row> {
    [TransportRow(b)]
    + (if HasChild(b, ExecTimeout) then [] else [ExecTimeoutRow(b)])
    + (if HasChild(b, LoggingSync) then [] else [LoggingRow(b)])
  }

  /** Each VTY block yields exactly one transport row, first and PASS exactly
      when it has `transport input ssh`; then one exec-timeout FAIL row exactly
      when that line is missing and one logging RECOMMENDED row exactly when
      that line is missing, in that order, and nothing else. */
  lemma VtyRowsShape(b: Block)
    ensures var rows := VtyRows(b);
      |rows| == 1 + (if HasChild(b, ExecTimeout) then 0 else 1) + (if HasChild(b, LoggingSync) then 0 else 1) &&
      rows[0] == TransportRow(b) &&
      (rows[0].status == Pass <==> HasChild(b, TransportSsh)) &&
      (forall k | 1 <= k < |rows| :: rows[k] == ExecTimeoutRow(b) || rows[k] == LoggingRow(b)) &&
      (forall k | 1 <= k < |rows| :: rows[k].status != Pass && rows[k] != rows[0]) &&
      (ExecTimeoutRow(b) in rows <==> !HasChild(b, ExecTimeout)) &&
      (LoggingRow(b) in rows <==> !HasChild(b, LoggingSync)) &&
      ((|rows| > 1 && rows[1] == ExecTimeoutRow(b)) <==> !HasChild(b, ExecTimeout)) &&
      ((|rows| > 1 && rows[|rows| - 1] == LoggingRow(b)) <==> !HasChild(b, LoggingSync))
  {
    assert ExecTimeoutRow(b).status != LoggingRow(b).status;
  }

  function VtyBody(s: seq<Block>): seq<Row> {
    if s == [] then [] else VtyRows(s[0]) + VtyBody(s[1..])
  }

  /** The tally of VTY blocks with `transport input ssh`. */
  function SshCount(s: seq<Block>): (n: nat)
    ensures n <= |s|
  {
    if s == [] then 0 else (if HasChild(s[0], TransportSsh) then 1 else 0) + SshCount(s[1..])
  }

  function LinesOutcomeRows(o: Outcome): seq<Row> {
    match o
    case NoScope => [VtyNoScope]
    case AllPass => [VtyAllPass]
    case SomeFail => []
  }

  /** The rows `check_lines` appends. */
  function LinesRows(cfg: RunningConfig): seq<Row> {
    var vtys := FindObjects(cfg, VtySelector);
    VtyBody(vtys) + LinesOutcomeRows(Decide(|vtys|, SshCount(vtys)))
  }

  lemma {:induction false} VtyBodyAppend(a: seq<Block>, b: seq<Block>)
    ensures VtyBody(a + b) == VtyBody(a) + VtyBody(b)
    ensures SshCount(a + b) == SshCount(a) + SshCount(b)
  {
    if a == [] {
      assert a + b == b;
    } else {
      assert (a + b)[1..] == a[1..] + b;
      VtyBodyAppend(a[1..], b);
    }
  }

  /** Between one and three rows per VTY block. */
  lemma {:induction false} VtyBodyBounds(s: seq<Block>)
    ensures |s| <= |VtyBody(s)| <= 3 * |s|
  {
    if s != [] {
      VtyBodyBounds(s[1..]);
    }
  }

  lemma {:induction false} SshAllIff(s: seq<Block>)
    ensures SshCount(s) == |s| <==> forall b | b in s :: HasChild(b, TransportSsh)
  {
    if s != [] {
      SshAllIff(s[1..]);
      assert forall b | b in s[1..] :: b in s;
      assert forall b | b in s && b != s[0] :: b in s[1..];
    }
  }

  /** One more VTY block adds its own rows after the earlier ones and counts
      once towards the SSH tally exactly when it has `transport input ssh`. */
  lemma VtyBodySnoc(s: seq<Block>, b: Block)
    ensures VtyBody(s + [b]) == VtyBody(s) + VtyRows(b)
    ensures SshCount(s + [b]) == SshCount(s) + (if HasChild(b, TransportSsh) then 1 else 0)
  {
    VtyBodyAppend(s, [b]);
    assert [b][1..] == [];
    assert VtyBody([b]) == VtyRows(b) + VtyBody([]);
    assert VtyRows(b) + [] == VtyRows(b);
  }

  /** After the per-line rows, `check_lines` adds one FAIL row when there is no
      VTY line, the aggregate PASS row exactly when there are VTY lines and all
      of them have `transport input ssh`, and nothing otherwise. */
  lemma LinesDecision(cfg: RunningConfig)
    ensures var vtys := FindObjects(cfg, VtySelector);
      var allSsh := forall b | b in vtys :: HasChild(b, TransportSsh);
      (vtys == [] ==> LinesRows(cfg) == [VtyNoScope]) &&
      (vtys != [] && allSsh ==> LinesRows(cfg) == VtyBody(vtys) + [VtyAllPass]) &&
      (!allSsh ==> LinesRows(cfg) == VtyBody(vtys)) &&
      |vtys| <= |VtyBody(vtys)| <= 3 * |vtys|
  {
    var vtys := FindObjects(cfg, VtySelector);
    SshAllIff(vtys);
    VtyBodyBounds(vtys);
  }

  /** The rows `interface_config` puts in the interface table, in call order. */
  function InterfaceAuditRows(cfg: RunningConfig): seq<Row> {
    Vlan1Rows(cfg)
    + ScopedRows(MopRule, cfg)
    + ScopedRows(PortSecurityRule, cfg)
    + ScopedRows(StpPortfastRule, cfg)
    + ScopedRows(StpBpduRule, cfg)
    + ScopedRows(StpRootRule, cfg)
    + ScopedRows(CdpRule, cfg)
    + ScopedRows(LldpRule, cfg)
    + ScopedRows(IpSrcVerifyRule, cfg)
    + ScopedRows(StickyMacRule, cfg)
    + ScopedRows(ArpProxyRule, cfg)
    + ScopedRows(IpRedirectsRule, cfg)
    + ScopedRows(IpUnreachablesRule, cfg)
    + ScopedRows(DirectedBroadcastRule, cfg)
    + LinesRows(cfg)
  }
}
