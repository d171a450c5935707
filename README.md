# ciscoconfaudit audit engine in Dafny

This project models the `CiscoConfAudit` engine of ciscoconfaudit. The engine audits a Cisco IOS
running configuration against a fixed set of hardening rules and fills two tables of
(audit, status) rows:

- a **global table**, filled by `global_config` through four verdict policies:
  - `check_service`: the line must be absent;
  - `check_config`: the line must be present;
  - `check_vuln_config`: the line must not be in use;
  - `check_optional_config`: the line is a recommendation;
- an **interface table**, filled by `interface_config` through `check_vlan1`, the scoped
  aggregators (`check_mop` … `check_directed_broadcast`) and `check_lines`.

The model is split into five modules, plus one of concrete scenarios:

- `ConfParse`: the view of a parsed configuration that the engine uses.
  - The configuration is a sequence of top-level blocks, each with its direct child lines.
  - A small pattern language gives `re.search` meaning to the regular expressions.
  - Also here: line search (`find_lines`), block selection (`find_objects`,
    `find_objects_w_child`) and the `hostname` capture with its default `Device`.
- `Report`: verdicts, rows and append-only tables.
- `Catalog`: the four policies as a verdict function and the ordered catalog of global checks.
  - The catalog and the AAA sub-checks exactly as the source calls them, which the audit
    class runs.
  - Beside them, corrected copies as evidently intended (see "## Findings"), with the
    properties the corrections restore.
  - The AAA branch gated on `no aaa new-model`, and the SNMP check that always comes last.
  - The rows `global_config` produces for a configuration.
- `Scoped`: each interface-level aggregator as a rule record.
  - A rule holds its global override, scope, control, shutdown exemption, row labels and
    no-scope status.
  - Also here: the tallies and the three-way decision after the loop, `check_vlan1`,
    `check_lines`, and the rows `interface_config` produces.
- `Audit`: the class `CiscoConfAudit` itself.
  - Its fields are the two tables and the parsed configuration.
  - Each check method appends to a table through `modifies`.
  - Each loop carries invariants that tie its counters and appended rows to the functions
    of `Catalog` and `Scoped`.
- `Scenarios`: concrete configurations (a hardened access port, an open access port, a weak
  SNMP community) and the rows they get.

## Model

| member | source | states |
|---|---|---|
| ConfParse.Matches | src/ciscoconfaudit/__init__.py:45-69 | definition, no contract: the `re.search` reading of the literal pattern that stands for each regular expression passed to `find_lines`, `re_search_children` and `has_child_with` |
| ConfParse.AllLinesCover | src/ciscoconfaudit/__init__.py:74-76 | every block line and every direct child line of the parsed configuration is among the searched lines |
| ConfParse.AllLinesFromBlocks | src/ciscoconfaudit/__init__.py:74-76 | every searched line is the text or a direct child of some block of the configuration, and nothing else is searched |
| ConfParse.Present | src/ciscoconfaudit/__init__.py:46 | definition, no contract: `find_lines` is non-empty exactly when some searched line (see `AllLinesCover` and `AllLinesFromBlocks`) matches the pattern |
| ConfParse.HasChild | src/ciscoconfaudit/__init__.py:323-326 | definition, no contract: `re_search_children` and `has_child_with` succeed exactly when some direct child line of the block matches |
| ConfParse.FindObjects | src/ciscoconfaudit/__init__.py:320-322 | never more blocks are selected than the configuration has |
| ConfParse.FindObjectsMembers | src/ciscoconfaudit/__init__.py:320-322 | a block is selected exactly when it is in the configuration and matches the parent pattern (and, for `find_objects_w_child`, has a matching child) |
| ConfParse.FindObjectsAppend | src/ciscoconfaudit/__init__.py:320-322 | selecting from two concatenated configurations is selecting from each in turn |
| ConfParse.TrimLeft | src/ciscoconfaudit/__init__.py:77-79 | `\s+` skips exactly a leading run of whitespace and leaves a non-space first character |
| ConfParse.LeadingWord | src/ciscoconfaudit/__init__.py:77-79 | `(\S+)` captures the longest whitespace-free prefix |
| ConfParse.HostnameArgument | src/ciscoconfaudit/__init__.py:77-79 | a line yields a host name only if it starts with `hostname` and a space, and then yields a non-empty whitespace-free word; every `hostname <word>` line yields one |
| ConfParse.TrimLeftSpaces | src/ciscoconfaudit/__init__.py:77-79 | `\s+` skips exactly a whitespace run that is followed by the end or a non-space character |
| ConfParse.LeadingWordOf | src/ciscoconfaudit/__init__.py:77-79 | `(\S+)` captures exactly a whitespace-free word that is followed by the end or whitespace |
| ConfParse.HostnameArgumentOf | src/ciscoconfaudit/__init__.py:77-79 | `hostname`, a non-empty whitespace run, a non-empty whitespace-free word and a rest that is empty or starts with whitespace: the capture is exactly that word |
| ConfParse.HostnameArgumentShape | src/ciscoconfaudit/__init__.py:77-79 | conversely, every capture is `hostname`, a non-empty whitespace run, then the captured word followed by the end of the line or whitespace |
| ConfParse.FirstHostnameIndex | src/ciscoconfaudit/__init__.py:77-79 | the index is that of the first line carrying a host name: no earlier line carries one, and the line there does unless no line does |
| ConfParse.Hostname | src/ciscoconfaudit/__init__.py:77-79 | the host name is non-empty and whitespace-free, and is `Device` when no line carries one |
| ConfParse.HostnameIsFirstCapture | src/ciscoconfaudit/__init__.py:77-79 | when some line carries a host name, the host name is the capture of the first such line |
| Report.Table.AddRow | src/ciscoconfaudit/__init__.py:46-49 | `add_row` keeps the title and every earlier row and puts the new row last |
| Report.Table.AddRows | src/ciscoconfaudit/__init__.py:46-49 | a run of `add_row` calls keeps the earlier rows and appends the new ones in order |
| Catalog.PolicyVerdict | src/ciscoconfaudit/__init__.py:45-69 | service and config give only PASS or FAIL, vuln gives only WARN or NOT IN USE (never PASS), optional gives only PASS or RECOMMENDED (never FAIL), and none gives NOT FOUND |
| Catalog.PolicyVerdictsDistinguishPresence | src/ciscoconfaudit/__init__.py:45-55 | every policy tells presence from absence; service fails exactly when the line is present, config passes exactly when it is present, so they judge one answer oppositely |
| Catalog.CheckRow | src/ciscoconfaudit/__init__.py:45-69 | definition, no contract: one policy call gives a row with its label and the policy's verdict on whether `find_lines` found the pattern; the verdict ranges are `PolicyVerdict`'s |
| Catalog.Corrected | src/ciscoconfaudit/__init__.py:88-90 | the corrected check keeps its pattern and label, is no longer a misapplied service check, and leaves every other check unchanged |
| Catalog.CorrectedChecks | src/ciscoconfaudit/__init__.py:82-220 | the corrected catalog has the same length and corrects each check in place |
| Catalog.ServicePolicyMisappliedAsWritten | src/ciscoconfaudit/__init__.py:88-110 | as written, exactly the calls at positions 2, 3, 4, 8, 11 and 14 of the base catalog (`no ip finger`, `no service finger`, `no ip bootp server`, `no service pad`, `no service config`, `service password-encryption`) pass their own recommended line to `check_service`, and `no ip finger` then gets FAIL on a configuration holding it |
| Catalog.CorrectedHonoursLabel | src/ciscoconfaudit/__init__.py:88-110 | a corrected check that is not a vulnerability check and whose pattern is its own label passes on a configuration holding that line |
| Catalog.CorrectedChecksHonourLabels | src/ciscoconfaudit/__init__.py:82-220 | after correction, every global check keeps its pattern and label, and each check that is not a vulnerability check and whose pattern is its own label passes on a configuration holding that line |
| Catalog.OwnLinePresent | src/ciscoconfaudit/__init__.py:45-55 | a configuration holding exactly a check's own line makes that check's pattern present |
| Catalog.AaaAccountingDuplicatedAsWritten | src/ciscoconfaudit/__init__.py:257-264 | as written, two AAA checks are identical, they give the same row on every configuration, and no check looks for `aaa accounting commands 1` |
| Catalog.AaaLabelsDistinct | src/ciscoconfaudit/__init__.py:226-268 | after correction, the AAA sub-checks have pairwise distinct labels, and the commands 1 accounting row passes when that line is present and fails on an empty configuration |
| Catalog.AaaRows | src/ciscoconfaudit/__init__.py:222-268 | definition, no contract: the AAA section over a list of sub-checks; the model runs it over the list as the source calls it |
| Catalog.GlobalRows | src/ciscoconfaudit/__init__.py:72-274 | definition, no contract: base rows, AAA section, SNMP row, over given base and AAA lists |
| Catalog.GlobalAuditRows | src/ciscoconfaudit/__init__.py:72-274 | definition, no contract: the global rows over the calls exactly as the source makes them, including the six service-policy calls and the repeated commands 0 accounting call |
| Catalog.IntendedGlobalAuditRows | src/ciscoconfaudit/__init__.py:88-110 | definition, no contract: the global rows over the corrected catalog and the corrected AAA list |
| Catalog.HeadedRows | src/ciscoconfaudit/__init__.py:222-268 | a heading row followed by a list's rows puts each check's row one place after its position in the list |
| Catalog.AaaRowsLayout | src/ciscoconfaudit/__init__.py:222-268 | for any AAA list: one `aaa new-model` row, FAIL exactly when `no aaa new-model` is present, followed by that list's rows in order only when it is absent |
| Catalog.GlobalRowsParts | src/ciscoconfaudit/__init__.py:72-274 | the global rows are the base rows in order, then the AAA section, then the SNMP row |
| Catalog.GlobalRowsLayout | src/ciscoconfaudit/__init__.py:72-274 | for any base list and AAA list: the base rows in list order, then the AAA section, then the SNMP row last and never PASS |
| Catalog.GlobalAuditLayout | src/ciscoconfaudit/__init__.py:222-274 | as the source fills the table: the base rows in call order; then one `aaa new-model` row, FAIL exactly when `no aaa new-model` is present; the ten AAA sub-check rows in call order only when it is absent, with the commands 0 accounting row twice in a row; the SNMP row always last and never PASS |
| Catalog.NothingPresentInEmpty | src/ciscoconfaudit/__init__.py:74-76 | no pattern is present in an empty configuration |
| Catalog.EmptyCatalogRows | src/ciscoconfaudit/__init__.py:45-69 | on an empty configuration every check gives its policy's verdict for an absent line |
| Catalog.EmptyAaaRows | src/ciscoconfaudit/__init__.py:222-268 | on an empty configuration `aaa new-model` passes and every AAA sub-check row, of any list, has its policy's verdict for an absent line |
| Catalog.EmptyConfigRows | src/ciscoconfaudit/__init__.py:72-274 | for any base list and any AAA list of enable-by-default checks on an empty configuration: each base row has its policy's absent verdict, `aaa new-model` passes, every AAA sub-check fails, and SNMP is NOT IN USE |
| Catalog.EmptyFingerRow | src/ciscoconfaudit/__init__.py:88 | as written, an empty configuration gets `no ip finger` PASS |
| Catalog.EmptyConfigGlobalAudit | src/ciscoconfaudit/__init__.py:72-274 | on an empty configuration, as the source audits it: service checks pass (`no ip finger` among them), config checks fail, optional ones are RECOMMENDED, `aaa new-model` passes with every sub-check failing, SNMP is NOT IN USE, and the host name is `Device` |
| Catalog.FingerRowAsWrittenAndIntended | src/ciscoconfaudit/__init__.py:88 | on a configuration holding `no ip finger`, the source's table has that row FAIL and the intended table has it PASS, in the same place |
| Scoped.Failing | src/ciscoconfaudit/__init__.py:323-330 | never more failing blocks than blocks in scope |
| Scoped.FailingMembers | src/ciscoconfaudit/__init__.py:323-330 | a block fails exactly when it is in scope and neither has the control nor is shut down |
| Scoped.FailRowsOfFailing | src/ciscoconfaudit/__init__.py:323-330 | the FAIL rows are one per failing block, in the same order, each naming that block |
| Scoped.FailRowsAppend | src/ciscoconfaudit/__init__.py:323-330 | the FAIL rows of a concatenated scope are those of each part in turn |
| Scoped.FailRowsSingle | src/ciscoconfaudit/__init__.py:323-330 | one block gives its FAIL row exactly when it does not pass, and no row otherwise |
| Scoped.PassCount | src/ciscoconfaudit/__init__.py:323-330 | the passing tally never exceeds the number of blocks in scope |
| Scoped.Decide | src/ciscoconfaudit/__init__.py:331-337 | definition, no contract: the three-way decision after a loop (no scope, all pass, some fail); `AggregateDecision` states what each gives |
| Scoped.AggregateRows | src/ciscoconfaudit/__init__.py:323-337 | definition, no contract: the FAIL rows in scope order followed by the decision row; `AggregateDecision` and `AggregatePassIff` state its shape |
| Scoped.ScopedRows | src/ciscoconfaudit/__init__.py:318-337 | definition, no contract: one PASS row under a present global override, otherwise the aggregate rows; `OverridePasses` and `AggregateDecision` state both cases |
| Scoped.FailingAppend | src/ciscoconfaudit/__init__.py:323-330 | the failing blocks of a concatenated scope are those of each part in turn |
| Scoped.PassCountAppend | src/ciscoconfaudit/__init__.py:323-330 | the passing tally of a concatenated scope is the sum of the parts' tallies |
| Scoped.TallySplitsScope | src/ciscoconfaudit/__init__.py:323-330 | failing blocks plus passing blocks is the total: each block is tallied once |
| Scoped.AllPassIff | src/ciscoconfaudit/__init__.py:331-334 | the tally equals the total exactly when every block in scope passes |
| Scoped.FailRowsSnoc | src/ciscoconfaudit/__init__.py:323-330 | one more loop iteration appends that block's FAIL row when it fails and counts it when it passes |
| Scoped.FailRowsInScopeOrder | src/ciscoconfaudit/__init__.py:344-359 | each failing block contributes exactly its own FAIL row, in scope order, and a passing block none |
| Scoped.AggregateDecision | src/ciscoconfaudit/__init__.py:331-337 | pass ≤ total; an empty scope gives exactly the no-scope row; a fully passing scope gives exactly one aggregate PASS row; otherwise exactly total − pass FAIL rows and no aggregate row |
| Scoped.AggregatePassIff | src/ciscoconfaudit/__init__.py:360-368 | when the no-scope row is not PASS, a PASS row appears exactly when the scope is non-empty and every block passes |
| Scoped.ShutdownExempt | src/ciscoconfaudit/__init__.py:323-330 | a block with a ` shutdown` child passes and has no FAIL row |
| Scoped.IndentedShutdownMatches | src/ciscoconfaudit/__init__.py:326 | `^\s+shutdown$` accepts the plain ` shutdown` child |
| Scoped.ShutdownMarkersExempt | src/ciscoconfaudit/__init__.py:318-684 | every aggregator's shutdown pattern accepts a ` shutdown` child |
| Scoped.EmptyScopeStatuses | src/ciscoconfaudit/__init__.py:318-684 | an empty scope gives WARN for every access-port aggregator, FAIL for every layer-3 one, and never PASS |
| Scoped.ShutdownNeverFails | src/ciscoconfaudit/__init__.py:344-359 | in every aggregator, a scoped interface with a ` shutdown` child counts as passing and produces no FAIL row |
| Scoped.OverridePasses | src/ciscoconfaudit/__init__.py:370-399 | a present global directive replaces the whole check by one PASS row |
| Scoped.Vlan1Rows | src/ciscoconfaudit/__init__.py:301-316 | definition, no contract: the rows of `check_vlan1`; `Vlan1Outcome` states them |
| Scoped.Vlan1Outcome | src/ciscoconfaudit/__init__.py:301-316 | one NOT FOUND row exactly when there is no Vlan1 interface; otherwise one row per Vlan1 interface, in order, labelled `'<interface>' has no ip address and is shutdown`, PASS exactly when it is shut down and has no IP address and FAIL otherwise |
| Scoped.VtyRows | src/ciscoconfaudit/__init__.py:690-703 | definition, no contract: the rows one VTY block gets in the loop; `VtyRowsShape` states them |
| Scoped.VtyRowsShape | src/ciscoconfaudit/__init__.py:690-703 | each VTY block gives one transport row first (PASS exactly with `transport input ssh`), then one exec-timeout FAIL row exactly when that line is missing and one logging RECOMMENDED row exactly when that line is missing, in that order; the row count is one plus the number of missing lines, and there is no other row |
| Scoped.SshCount | src/ciscoconfaudit/__init__.py:690-704 | the ssh tally never exceeds the number of VTY blocks |
| Scoped.VtyBodyAppend | src/ciscoconfaudit/__init__.py:690-704 | the rows and the ssh tally of concatenated VTY blocks are those of each part in turn |
| Scoped.VtyBodyBounds | src/ciscoconfaudit/__init__.py:690-703 | between one and three rows per VTY block |
| Scoped.VtyBodySnoc | src/ciscoconfaudit/__init__.py:690-704 | one more VTY block appends its own rows and counts towards the ssh tally exactly when it has `transport input ssh` |
| Scoped.SshAllIff | src/ciscoconfaudit/__init__.py:705-709 | the ssh tally equals the total exactly when every VTY block has `transport input ssh` |
| Scoped.LinesRows | src/ciscoconfaudit/__init__.py:686-711 | definition, no contract: the per-block rows of every VTY block in order, then the decision row; `LinesDecision` states it |
| Scoped.LinesDecision | src/ciscoconfaudit/__init__.py:705-711 | no VTY line gives exactly one FAIL row; the aggregate PASS row follows the per-line rows exactly when all VTY lines use ssh; otherwise only the per-line rows |
| Scoped.InterfaceAuditRows | src/ciscoconfaudit/__init__.py:285-299 | definition, no contract: the rows of every interface-level check in the order `interface_config` calls them; `InterfaceConfig` ties the table to it |
| Audit.CiscoConfAudit.constructor | src/ciscoconfaudit/__init__.py:24-28 | the tables and the parsed configuration are those passed in, each `None` when not given |
| Audit.CiscoConfAudit.CheckService | src/ciscoconfaudit/__init__.py:45-49 | appends exactly one row with the given label: FAIL when the pattern is present, PASS when absent |
| Audit.CiscoConfAudit.CheckConfig | src/ciscoconfaudit/__init__.py:51-55 | appends exactly one row with the given label: PASS when the pattern is present, FAIL when absent |
| Audit.CiscoConfAudit.CheckVulnConfig | src/ciscoconfaudit/__init__.py:57-63 | appends exactly one row: WARN when the pattern is present, NOT IN USE when absent, never PASS |
| Audit.CiscoConfAudit.CheckOptionalConfig | src/ciscoconfaudit/__init__.py:65-69 | appends exactly one row: PASS when the pattern is present, RECOMMENDED when absent, never FAIL |
| Audit.CiscoConfAudit.RunCheck | src/ciscoconfaudit/__init__.py:82-84 | one catalog entry appends the row its policy gives |
| Audit.CiscoConfAudit.RunChecks | src/ciscoconfaudit/__init__.py:82-220 | a fixed sequence of policy calls appends their rows in order after the existing ones |
| Audit.CiscoConfAudit.CheckAaa | src/ciscoconfaudit/__init__.py:222-268 | appends exactly the AAA section as the source runs it: FAIL for `aaa new-model` alone when `no aaa new-model` is present, otherwise PASS followed by the ten sub-check rows in call order, commands 0 accounting twice |
| Audit.CiscoConfAudit.GlobalConfig | src/ciscoconfaudit/__init__.py:72-274 | records the configuration and leaves the global table titled with the host name, holding exactly `GlobalAuditRows`: the rows of the source's calls in their order |
| Audit.CiscoConfAudit.CheckVlan1 | src/ciscoconfaudit/__init__.py:301-316 | appends exactly the Vlan1 rows |
| Audit.CiscoConfAudit.AuditScopedBlock | src/ciscoconfaudit/__init__.py:323-330 | reports whether one scoped block passes, and appends its FAIL row exactly when it does not |
| Audit.CiscoConfAudit.CheckScoped | src/ciscoconfaudit/__init__.py:318-337 | appends exactly the aggregator's rows; under a present global override, one PASS row only |
| Audit.CiscoConfAudit.CheckMop | src/ciscoconfaudit/__init__.py:318-337 | appends exactly the `no mop enabled` rows |
| Audit.CiscoConfAudit.CheckPortSecurity | src/ciscoconfaudit/__init__.py:339-368 | appends exactly the port-security rows |
| Audit.CiscoConfAudit.CheckStpPortfast | src/ciscoconfaudit/__init__.py:370-399 | appends exactly the portfast rows, or the global PASS row |
| Audit.CiscoConfAudit.CheckStpBpdu | src/ciscoconfaudit/__init__.py:401-432 | appends exactly the BPDU guard rows, or the global PASS row |
| Audit.CiscoConfAudit.CheckStpRoot | src/ciscoconfaudit/__init__.py:434-457 | appends exactly the root guard rows |
| Audit.CiscoConfAudit.CheckCdp | src/ciscoconfaudit/__init__.py:459-481 | appends exactly the CDP rows, or the global PASS row |
| Audit.CiscoConfAudit.CheckLldp | src/ciscoconfaudit/__init__.py:483-511 | appends exactly the LLDP rows, or the global PASS row |
| Audit.CiscoConfAudit.CheckIpSrcVerify | src/ciscoconfaudit/__init__.py:513-534 | appends exactly the `ip verify source` rows |
| Audit.CiscoConfAudit.CheckStickyMac | src/ciscoconfaudit/__init__.py:536-564 | appends exactly the sticky MAC rows |
| Audit.CiscoConfAudit.CheckArpProxy | src/ciscoconfaudit/__init__.py:567-593 | appends exactly the proxy-arp rows, or the global PASS row |
| Audit.CiscoConfAudit.CheckIpRedirects | src/ciscoconfaudit/__init__.py:595-614 | appends exactly the `no ip redirects` rows |
| Audit.CiscoConfAudit.CheckRouteCache | src/ciscoconfaudit/__init__.py:616-635 | appends exactly the `no ip route-cache` rows |
| Audit.CiscoConfAudit.CheckDirectedBroadcast | src/ciscoconfaudit/__init__.py:637-660 | appends exactly the directed-broadcast rows |
| Audit.CiscoConfAudit.CheckIpUnreachables | src/ciscoconfaudit/__init__.py:662-684 | appends exactly the `ip unreachables` rows |
| Audit.CiscoConfAudit.AuditVtyLine | src/ciscoconfaudit/__init__.py:691-703 | appends exactly one VTY block's rows and reports whether it counts towards the ssh tally |
| Audit.CiscoConfAudit.CheckLines | src/ciscoconfaudit/__init__.py:686-711 | appends exactly the VTY rows and the decision row |
| Audit.CiscoConfAudit.InterfaceConfig | src/ciscoconfaudit/__init__.py:277-299 | records the configuration and leaves the interface table titled with the host name, holding the rows of every interface-level check in call order |
| Scenarios.TrimmedHostname | src/ciscoconfaudit/__init__.py:77-79 | `\s+` skips the space before `SW1` |
| Scenarios.HostnameWord | src/ciscoconfaudit/__init__.py:77-79 | `(\S+)` captures all of `SW1` |
| Scenarios.HostnameLineArgument | src/ciscoconfaudit/__init__.py:77-79 | `hostname SW1` captures `SW1` |
| Scenarios.HardenedSwitchHostname | src/ciscoconfaudit/__init__.py:77-79 | a configuration starting with `hostname SW1` is titled `SW1` |
| Scenarios.HardenedSwitchScope | src/ciscoconfaudit/__init__.py:341-343 | of a configuration with a hostname line and one access port, only the access port is in the access-port scope |
| Scenarios.StickyPortPasses | src/ciscoconfaudit/__init__.py:344-355 | an access port with `switchport port-security` passes the port-security check |
| Scenarios.HardenedAccessPortPasses | src/ciscoconfaudit/__init__.py:339-368 | an access port with port-security and a sticky MAC gives the single aggregate PASS row and no per-interface row |
| Scenarios.OpenAccessPortNotExempt | src/ciscoconfaudit/__init__.py:344-355 | an access port without port-security lines and without shutdown does not pass |
| Scenarios.OpenAccessPortInScope | src/ciscoconfaudit/__init__.py:341-343 | an interface with `switchport mode access` is in the access-port scope |
| Scenarios.OpenAccessPortFails | src/ciscoconfaudit/__init__.py:344-359 | such a port gives exactly one FAIL row naming the interface and `switchport port-security mac-address`, and no aggregate row |
| Scenarios.WeakCommunityWarns | src/ciscoconfaudit/__init__.py:270-274 | `snmp-server community public ro` makes the last global row a WARN |

## Left out

- CiscoConfParse is not part of this model.
  - The configuration arrives already parsed as top-level blocks with their direct children.
    Deeper nesting, and the splitting of the configuration text into lines, are not modelled.
  - Regular expressions are approximated by the literal patterns of `ConfParse.Pattern`:
    - `\s` stands for a single space;
    - tails with character classes or counted repetition (`\w+`, `\d+`, `\d{1,7}`, `(?:,\d+)*`,
      `\W`) become a prefix match on the literal text before them;
    - small alternatives (`(2048|4096)`, `(transparent|off)`) become `Or`;
    - the `aes\d{3}-ctr` algorithm lists become a prefix match up to the first `aes`;
    - the `username` secret check becomes a `Both` of the `username ` prefix, ` privilege ` and
      ` secret 8 ` or ` secret 9 `.
  - `secure boot-config\W$` becomes a prefix match on `secure boot-config`.
    - The source demands exactly one more non-word character, so the bare line never matches
      it; the model accepts the bare line.
- The hostname capture of `re_match_iter_typed` is modelled only for `\s` as space or tab.
- Rich rendering is left out because it only affects output: `Console`, `create_table`,
  `get_report`, captions and column layout, and the colour markup inside labels and statuses.
  - Verdicts are an enumeration.
  - Labels keep their plain text, without markup such as `[cyan]Global[/cyan]`.
  - A table is a title and a sequence of rows.
- The `UNAVAILABLE` status is defined in the source but never used, so it has no verdict.
- Floating-point division and the `ZeroDivisionError` handler are replaced by the integer
  guards `total == 0` and `passing == total`. These decide the same cases.
- `Audit.CiscoConfAudit.GlobalConfig` runs the catalog through a loop over the list of checks.
  The source writes the same calls out one after another; the list holds them with the same
  same.
- `Audit.CiscoConfAudit.CheckScoped`: the fourteen nearly identical aggregators (thirteen called
  by `interface_config`, plus the uncalled `check_route_cache`) run through
  this one method, parameterised by a rule record. Each named method calls it with its own
  rule.
- The repository's two example scripts (online and offline) are left out because they are
  I/O only: an SSH session, file reading and printing.

## Findings

| source | as written | input that shows it | evidently intended | confidence | as-written member | corrected member |
|---|---|---|---|---|---|---|
| src/ciscoconfaudit/__init__.py:88-110 | `check_service` (FAIL when present) is applied to the recommended lines themselves: `no ip finger`, `no service finger`, `no ip bootp server`, `no service pad`, `no service config`, and `service password-encryption` | a configuration holding exactly `no ip finger` gets `no ip finger` FAIL | these lines are wanted, so their presence should pass, as with `check_config` | not executed | Catalog.ServicePolicyMisappliedAsWritten | Catalog.CorrectedChecksHonourLabels |
| src/ciscoconfaudit/__init__.py:257-264 | the `aaa accounting commands 0` check is called twice and `aaa accounting commands 1` is never checked | a configuration with every AAA line including `aaa accounting commands 1 default start-stop group tacacs`: no row reflects that line, and the commands 0 row is repeated | a commands 1 accounting check, mirroring the authorization checks for 0, 1 and 15 | not executed | Catalog.AaaAccountingDuplicatedAsWritten | Catalog.AaaLabelsDistinct |
