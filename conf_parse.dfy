/** The view of a parsed IOS running configuration that the audit engine relies on.
    The configuration is an ordered list of top-level blocks, each holding its own
    line and its direct child lines (with their leading indentation). Pattern
    matching is a small literal pattern language standing for the regular
    expressions the audit passes to the parser. */
module ConfParse {

  datatype Option<T> = None | Some(value: T)

  /** One top-level configuration object and its direct children. */
  datatype Block = Block(text: string, children: seq<string>)

  type RunningConfig = seq<Block>

  predicate IsSpace(c: char) {
    c == ' ' || c == '\t'
  }

  /** A search pattern, read with `re.search` semantics:
      Exact(s) is `^s$`, Prefix(s) is `^s`, Suffix(s) is `s$`, Infix(s) is `s`,
      Indented(s) is `^\s+s$`, Or is `|`, and Both asks for two patterns at once
      (used to approximate one regular expression with several literal parts). */
  datatype Pattern =
    | Exact(s: string)
    | Prefix(s: string)
    | Suffix(s: string)
    | Infix(s: string)
    | Indented(s: string)
    | Or(left: Pattern, right: Pattern)
    | Both(first: Pattern, second: Pattern)

  predicate OccursAt(s: string, line: string, i: nat) {
    i + |s| <= |line| && line[i..i + |s|] == s
  }

  predicate AllSpaces(s: string) {
    forall j | 0 <= j < |s| :: IsSpace(s[j])
  }

  predicate Matches(p: Pattern, line: string) {
    match p
    case Exact(s) => line == s
    case Prefix(s) => s <= line
    case Suffix(s) => |s| <= |line| && line[|line| - |s|..] == s
    case Infix(s) => exists i: nat | i <= |line| :: OccursAt(s, line, i)
    case Indented(s) =>
      |s| < |line| && line[|line| - |s|..] == s && AllSpaces(line[..|line| - |s|])
    case Or(l, r) => Matches(l, line) || Matches(r, line)
    case Both(a, b) => Matches(a, line) && Matches(b, line)
  }

  /** Every line of the configuration in file order: each block's own line
      followed by its children. */
  function AllLines(cfg: RunningConfig): seq<string> {
    if cfg == [] then []
    else [cfg[0].text] + cfg[0].children + AllLines(cfg[1..])
  }

  /** Every block line and every child line is searched. */
  lemma {:induction false} AllLinesCover(cfg: RunningConfig)
    ensures forall b | b in cfg :: b.text in AllLines(cfg)
    ensures forall b, c | b in cfg && c in b.children :: c in AllLines(cfg)
  {
    if cfg != [] {
      AllLinesCover(cfg[1..]);
      assert AllLines(cfg) == [cfg[0].text] + cfg[0].children + AllLines(cfg[1..]);
      forall b | b in cfg
        ensures b.text in AllLines(cfg)
        ensures forall c | c in b.children :: c in AllLines(cfg)
      {
        if b != cfg[0] {
          assert b in cfg[1..];
        }
      }
    }
  }

  /** Nothing but block lines and child lines is searched. */
  lemma {:induction false} AllLinesFromBlocks(cfg: RunningConfig)
    ensures forall l | l in AllLines(cfg) :: exists b | b in cfg :: l == b.text || l in b.children
  {
    if cfg != [] {
      AllLinesFromBlocks(cfg[1..]);
      assert AllLines(cfg) == [cfg[0].text] + cfg[0].children + AllLines(cfg[1..]);
      forall l | l in AllLines(cfg)
        ensures exists b | b in cfg :: l == b.text || l in b.children
      {
        if l == cfg[0].text || l in cfg[0].children {
          assert cfg[0] in cfg;
        } else {
          assert l in AllLines(cfg[1..]);
          var b :| b in cfg[1..] && (l == b.text || l in b.children);
          assert b in cfg;
        }
      }
    }
  }

  /** `find_lines(pattern)` is non-empty. */
  predicate Present(cfg: RunningConfig, p: Pattern) {
    exists l | l in AllLines(cfg) :: Matches(p, l)
  }

  /** `has_child_with(p)` / `re_search_children(p)`: some direct child matches. */
  predicate HasChild(b: Block, p: Pattern) {
    exists c | c in b.children :: Matches(p, c)
  }

  /** How blocks are chosen: `find_objects(linespec)` or
      `find_objects_w_child(parentspec, childspec)`. */
  datatype Selector =
    | Text(spec: Pattern)
    | TextWithChild(parentSpec: Pattern, childSpec: Pattern)

  predicate Selects(sel: Selector, b: Block) {
    match sel
    case Text(p) => Matches(p, b.text)
    case TextWithChild(p, c) => Matches(p, b.text) && HasChild(b, c)
  }

  /** The selected blocks, in configuration order. */
  function FindObjects(cfg: RunningConfig, sel: Selector): (found: seq<Block>)
    ensures |found| <= |cfg|
  {
    if cfg == [] then []
    else if Selects(sel, cfg[0]) then [cfg[0]] + FindObjects(cfg[1..], sel)
    else FindObjects(cfg[1..], sel)
  }

  /** A block is selected exactly when it is in the configuration and matches. */
  lemma {:induction false} FindObjectsMembers(cfg: RunningConfig, sel: Selector)
    ensures forall b :: b in FindObjects(cfg, sel) <==> b in cfg && Selects(sel, b)
  {
    if cfg != [] {
      FindObjectsMembers(cfg[1..], sel);
      assert forall b | b in cfg && b != cfg[0] :: b in cfg[1..];
      assert forall b | b in cfg[1..] :: b in cfg;
    }
  }

  lemma {:induction false} FindObjectsAppend(a: RunningConfig, b: RunningConfig, sel: Selector)
    ensures FindObjects(a + b, sel) == FindObjects(a, sel) + FindObjects(b, sel)
  {
    if a != [] {
      assert (a + b)[1..] == a[1..] + b;
      FindObjectsAppend(a[1..], b, sel);
    } else {
      assert a + b == b;
    }
  }

  ghost predicate NoSpace(s: string) {
    forall i | 0 <= i < |s| :: !IsSpace(s[i])
  }

  /** What `\s+` skips: the input without its leading whitespace. */
  function TrimLeft(s: string): (r: string)
    ensures |r| <= |s| && r == s[|s| - |r|..]
    ensures AllSpaces(s[..|s| - |r|])
    ensures r == [] || !IsSpace(r[0])
  {
    if s != [] && IsSpace(s[0]) then TrimLeft(s[1..]) else s
  }

  /** What `(\S+)` captures: the longest leading run of non-whitespace. */
  function LeadingWord(s: string): (w: string)
    ensures w <= s && NoSpace(w)
    ensures |w| < |s| ==> IsSpace(s[|w|])
  {
    if s == [] || IsSpace(s[0]) then [] else [s[0]] + LeadingWord(s[1..])
  }

  /** The group captured by `^hostname\s+(\S+)` on one line, if it matches. */
  function HostnameArgument(line: string): (name: Option<string>)
    ensures name.Some? ==> "hostname" <= line && name.value != [] && NoSpace(name.value)
    ensures "hostname " <= line && |line| > 9 && !IsSpace(line[9]) ==> name.Some?
  {
    if "hostname" <= line && |line| > 8 && IsSpace(line[8]) then
      var word := LeadingWord(TrimLeft(line[8..]));
      if word == [] then None else Some(word)
    else None
  }

  lemma {:induction false} TrimLeftSpaces(ws: string, t: string)
    requires AllSpaces(ws)
    requires t == [] || !IsSpace(t[0])
    ensures TrimLeft(ws + t) == t
  {
    if ws == [] {
      assert ws + t == t;
    } else {
      assert (ws + t)[1..] == ws[1..] + t;
      TrimLeftSpaces(ws[1..], t);
    }
  }

  lemma {:induction false} LeadingWordOf(w: string, rest: string)
    requires NoSpace(w)
    requires rest == [] || IsSpace(rest[0])
    ensures LeadingWord(w + rest) == w
  {
    if w == [] {
      assert w + rest == rest;
    } else {
      assert (w + rest)[1..] == w[1..] + rest;
      LeadingWordOf(w[1..], rest);
      assert [w[0]] + w[1..] == w;
    }
  }

  /** `^hostname\s+(\S+)` on `hostname`, a whitespace run, a word and a rest
      that is empty or starts with whitespace captures exactly that word. */
  lemma HostnameArgumentOf(ws: string, w: string, rest: string)
    requires ws != [] && AllSpaces(ws)
    requires w != [] && NoSpace(w)
    requires rest == [] || IsSpace(rest[0])
    ensures HostnameArgument("hostname" + ws + w + rest) == Some(w)
  {
    var line := "hostname" + ws + w + rest;
    assert line[..8] == "hostname";
    assert line[8..] == ws + (w + rest);
    assert line[8] == ws[0];
    assert (w + rest)[0] == w[0];
    TrimLeftSpaces(ws, w + rest);
    LeadingWordOf(w, rest);
  }

  /** Conversely, every capture comes from such a line: `hostname`, a non-empty
      whitespace run up to position `k`, the captured word, then the end of the
      line or whitespace. */
  lemma HostnameArgumentShape(line: string)
    requires HostnameArgument(line).Some?
    ensures var w := HostnameArgument(line).value;
      "hostname" <= line &&
      exists k: nat | 8 < k <= |line| ::
        AllSpaces(line[8..k]) && k + |w| <= |line| && line[k..k + |w|] == w &&
        (k + |w| == |line| || IsSpace(line[k + |w|]))
  {
    var w := HostnameArgument(line).value;
    var tail := line[8..];
    var t := TrimLeft(tail);
    var k := |line| - |t|;
    assert line[8..k] == tail[..|tail| - |t|];
    assert line[k..] == t;
    assert line[k..k + |w|] == t[..|w|];
  }

  /** Where the search for a host name stops: the first line that yields one,
      or the end of the lines when none does. */
  function FirstHostnameIndex(lines: seq<string>): (i: nat)
    ensures i <= |lines|
    ensures forall j | 0 <= j < i :: HostnameArgument(lines[j]).None?
    ensures i < |lines| ==> HostnameArgument(lines[i]).Some?
  {
    if lines == [] || HostnameArgument(lines[0]).Some? then 0
    else
      var rest := lines[1..];
      var i := FirstHostnameIndex(rest);
      assert forall j | 1 <= j < |lines| :: lines[j] == rest[j - 1];
      1 + i
  }

  const DefaultHostname: string := "Device"

  /** `re_match_iter_typed(r"^hostname\s+(\S+)", default="Device")`. */
  function Hostname(cfg: RunningConfig): (name: string)
    ensures name != [] && NoSpace(name)
    ensures (forall l | l in AllLines(cfg) :: HostnameArgument(l).None?) ==> name == DefaultHostname
  {
    var lines := AllLines(cfg);
    var i := FirstHostnameIndex(lines);
    if i < |lines| then HostnameArgument(lines[i]).value
    else
      assert forall k | 0 <= k < |DefaultHostname| :: DefaultHostname[k] in "Device";
      DefaultHostname
  }

  /** The host name is the capture of the first line that has one. */
  lemma HostnameIsFirstCapture(cfg: RunningConfig, i: nat)
    requires i < |AllLines(cfg)| && HostnameArgument(AllLines(cfg)[i]).Some?
    requires forall j | 0 <= j < i :: HostnameArgument(AllLines(cfg)[j]).None?
    ensures Hostname(cfg) == HostnameArgument(AllLines(cfg)[i]).value
  {
    var f := FirstHostnameIndex(AllLines(cfg));
    assert f == i;
  }
}
