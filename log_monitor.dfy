/**
 * The filtering, statistics, rotation and highlighting logic of the log
 * tailer (`LogMonitor`).  Compiled regular expressions are abstract: a filter
 * is a predicate "the pattern is found in this text", a log format is
 * matched by a given function yielding its three groups, and a highlight
 * substitution is a given function.  The clock is a parameter.
 */
module Logs {
  import opened Common
  import Sorting

  // ---------------------------------------------------------------------
  // ANSI colours (`Colors`)

  const Reset: string := "\U{1B}[0m"
  const Bold: string := "\U{1B}[1m"
  const Dim: string := "\U{1B}[2m"
  const Red: string := "\U{1B}[91m"
  const Green: string := "\U{1B}[92m"
  const Yellow: string := "\U{1B}[93m"
  const Blue: string := "\U{1B}[94m"
  const Magenta: string := "\U{1B}[95m"
  const Cyan: string := "\U{1B}[96m"
  const White: string := "\U{1B}[97m"
  const BgRed: string := "\U{1B}[41m"
  const BgGreen: string := "\U{1B}[42m"

  /** `Colors.LEVEL_COLORS`, in its declaration order. */
  const LevelColors: seq<(string, string)> := [
    ("ERROR", Red), ("WARN", Yellow), ("WARNING", Yellow), ("INFO", Green),
    ("DEBUG", Blue), ("TRACE", Dim), ("FATAL", BgRed + White + Bold), ("CRITICAL", BgRed + White + Bold)]

  /** The colour names a custom highlight rule may end with (`color_map`). */
  const ColorNames: seq<(string, string)> := [
    ("red", Red), ("green", Green), ("yellow", Yellow), ("blue", Blue),
    ("magenta", Magenta), ("cyan", Cyan), ("bg_red", BgRed), ("bg_green", BgGreen)]

  /** The value of the first pair with key `k`. */
  function Assoc(table: seq<(string, string)>, k: string): (r: Option<string>)
    ensures r.Some? <==> exists i :: 0 <= i < |table| && table[i].0 == k
  {
    if table == [] then None
    else if table[0].0 == k then Some(table[0].1)
    else
      var r := Assoc(table[1..], k);
      assert forall i :: 0 < i < |table| ==> table[i] == table[1..][i - 1];
      r
  }

  // ---------------------------------------------------------------------
  // Highlight rules (`_setup_highlighting`)

  /** A regular expression as compiled: its source text and whether case is ignored. */
  datatype Regex = Regex(source: string, ignoreCase: bool)

  datatype HighlightRule = HighlightRule(pattern: Regex, color: string, priority: int)

  /** The rule for one level: the level as a whole word, ignoring case, at priority 1. */
  function LevelRule(level: string, color: string): HighlightRule {
    HighlightRule(Regex("\\b" + level + "\\b", true), color, 1)
  }

  function LevelRulesOf(table: seq<(string, string)>): (r: seq<HighlightRule>)
    ensures |r| == |table|
    ensures forall i :: 0 <= i < |table| ==> r[i] == LevelRule(table[i].0, table[i].1)
  {
    if table == [] then [] else [LevelRule(table[0].0, table[0].1)] + LevelRulesOf(table[1..])
  }

  /** The default rules: one per entry of `LEVEL_COLORS`, in order. */
  function LevelRules(): (r: seq<HighlightRule>)
    ensures |r| == 8
    ensures forall i :: 0 <= i < 8 ==> r[i] == LevelRule(LevelColors[i].0, LevelColors[i].1) && r[i].priority == 1
  {
    LevelRulesOf(LevelColors)
  }

  /** The index of the last occurrence of `c` in `s` (`rsplit(c, 1)`'s split point). */
  function LastIndex(s: string, c: char): (r: nat)
    requires c in s
    ensures r < |s| && s[r] == c
    ensures forall j :: r < j < |s| ==> s[j] != c
  {
    if s[|s| - 1] == c then |s| - 1
    else
      assert c in s[..|s| - 1] by {
        var k :| 0 <= k < |s| && s[k] == c;
        assert s[..|s| - 1][k] == c;
      }
      LastIndex(s[..|s| - 1], c)
  }

  /**
   * A custom rule "pattern:colour": split at the last ':'; the rule is kept
   * (case-insensitive, priority 2) only when the part after it names a known
   * colour.
   */
  function CustomRule(spec: string): Option<HighlightRule> {
    if ':' !in spec then None
    else
      var i := LastIndex(spec, ':');
      match Assoc(ColorNames, spec[i + 1..])
      case Some(color) => Some(HighlightRule(Regex(spec[..i], true), color, 2))
      case None => None
  }

  /** The custom rules kept from `specs`, in order. */
  function CustomRules(specs: seq<string>): seq<HighlightRule> {
    if specs == [] then []
    else
      match CustomRule(specs[0])
      case Some(r) => [r] + CustomRules(specs[1..])
      case None => CustomRules(specs[1..])
  }

  /**
   * A specification "before:name" with no ':' in `name` is kept exactly when
   * `name` is a known colour, and then as the rule for `before`.
   */
  lemma CustomRuleSplitsAtLastColon(before: string, name: string)
    requires ':' !in name
    ensures CustomRule(before + ":" + name)
         == if Assoc(ColorNames, name).Some? then Some(HighlightRule(Regex(before, true), Assoc(ColorNames, name).value, 2)) else None
  {
    var spec := before + ":" + name;
    assert spec[|before|] == ':';
    var i := LastIndex(spec, ':');
    assert forall j :: |before| < j < |spec| ==> spec[j] == name[j - |before| - 1];
    assert i == |before|;
    assert spec[i + 1..] == name && spec[..i] == before;
  }

  /** A specification without ':' adds no rule. */
  lemma NoColonNoRule(spec: string)
    requires ':' !in spec
    ensures CustomRule(spec) == None
  {
  }

  /** Every kept custom rule comes from some specification and has priority 2; at most one rule per specification. */
  lemma {:induction false} CustomRulesShape(specs: seq<string>)
    ensures |CustomRules(specs)| <= |specs|
    ensures forall r :: r in CustomRules(specs) <==> exists k :: 0 <= k < |specs| && CustomRule(specs[k]) == Some(r)
    ensures forall r :: r in CustomRules(specs) ==> r.priority == 2
  {
    if specs != [] {
      CustomRulesShape(specs[1..]);
      assert forall k :: 0 < k < |specs| ==> specs[k] == specs[1..][k - 1];
      forall r | exists k :: 0 <= k < |specs| && CustomRule(specs[k]) == Some(r)
        ensures r in CustomRules(specs)
      {
        var k :| 0 <= k < |specs| && CustomRule(specs[k]) == Some(r);
        if k > 0 { assert CustomRule(specs[1..][k - 1]) == Some(r); }
      }
    }
  }

  /** Rules are applied in order of priority; Python's sort is stable, so equal priorities keep their order. */
  function ByPriority(): (HighlightRule, HighlightRule) -> bool {
    (a: HighlightRule, b: HighlightRule) => a.priority < b.priority
  }

  lemma ByPriorityOrder()
    ensures Sorting.StrictWeakOrder(ByPriority())
  {
  }

  /** The rules a monitor is set up with are already in priority order, so sorting them changes nothing. */
  lemma SetupRulesSorted(specs: seq<string>)
    ensures Sorting.SortBy(LevelRules() + CustomRules(specs), ByPriority()) == LevelRules() + CustomRules(specs)
  {
    var rs := LevelRules() + CustomRules(specs);
    CustomRulesShape(specs);
    forall i, j | 0 <= i < j < |rs| ensures !ByPriority()(rs[j], rs[i]) {
      if i >= 8 {
        assert rs[i] in CustomRules(specs) && rs[j] in CustomRules(specs);
      } else if j >= 8 {
        assert rs[j] in CustomRules(specs);
      }
    }
    Sorting.SortBySortedIsIdentity(rs, ByPriority());
  }

  // ---------------------------------------------------------------------
  // Parsing (`_parse_log_line`)

  datatype LogEntry = LogEntry(timestamp: string, level: string, message: string, raw: string, source: string, matched: bool)

  /** The entries of `LOG_PATTERNS`, tried in this order. */
  datatype LogFormat = Iso8601 | Syslog | Apache | Bracketed | Prefixed

  const LogFormats: seq<LogFormat> := [Iso8601, Syslog, Apache, Bracketed, Prefixed]

  /** The three groups of a match; a group that did not take part is "" (both are false in `or`). */
  datatype Groups = Groups(g1: string, g2: string, g3: string)

  /** `re.match` of a format's pattern against a line, as the groups of a match or nothing. */
  type FormatMatcher = (LogFormat, string) -> Option<Groups>

  predicate IsNewline(c: char) {
    c == '\n' || c == '\r'
  }

  /** `rstrip('\n\r')`: every trailing newline and carriage return is removed. */
  function RStripNewlines(s: string): (r: string)
    ensures IsPrefix(r, s)
    ensures r == [] || !IsNewline(r[|r| - 1])
    ensures forall i :: |r| <= i < |s| ==> IsNewline(s[i])
  {
    if s == [] || !IsNewline(s[|s| - 1]) then s
    else RStripNewlines(s[..|s| - 1])
  }

  /** The entry built from a matched format's groups. */
  function EntryFor(fmt: LogFormat, g: Groups, line: string, source: string, now: string): LogEntry {
    match fmt
    case Prefixed => LogEntry(now, if g.g1 != "" then g.g1 else g.g2, g.g3, line, source, true)
    case Apache => LogEntry(g.g2, "ACCESS", g.g1 + " " + g.g3, line, source, true)
    case _ => LogEntry(g.g1, Upper(g.g2), g.g3, line, source, true)
  }

  /** The entry of the first format that matches, or the whole line at level UNKNOWN. */
  function ParseWith(formats: seq<LogFormat>, line: string, source: string, now: string, m: FormatMatcher): LogEntry {
    if formats == [] then LogEntry(now, "UNKNOWN", line, line, source, true)
    else
      match m(formats[0], line)
      case Some(g) => EntryFor(formats[0], g, line, source, now)
      case None => ParseWith(formats[1..], line, source, now, m)
  }

  /** `_parse_log_line`: `now` is the time formatted as `%H:%M:%S`. */
  function ParseLogLine(line: string, source: string, now: string, m: FormatMatcher): LogEntry {
    ParseWith(LogFormats, RStripNewlines(line), source, now, m)
  }

  lemma {:induction false} ParseWithRaw(formats: seq<LogFormat>, line: string, source: string, now: string, m: FormatMatcher)
    ensures ParseWith(formats, line, source, now, m).raw == line
    ensures ParseWith(formats, line, source, now, m).source == source
  {
    if formats != [] && m(formats[0], line).None? {
      ParseWithRaw(formats[1..], line, source, now, m);
    }
  }

  /** The raw text of an entry is the line without its trailing line break, and the source is kept. */
  lemma ParseKeepsRaw(line: string, source: string, now: string, m: FormatMatcher)
    ensures ParseLogLine(line, source, now, m).raw == RStripNewlines(line)
    ensures ParseLogLine(line, source, now, m).source == source
  {
    ParseWithRaw(LogFormats, RStripNewlines(line), source, now, m);
  }

  /** When no format matches, the entry is the whole line at level UNKNOWN, stamped with the current time. */
  lemma ParseFallback(line: string, source: string, now: string, m: FormatMatcher)
    requires forall f :: f in LogFormats ==> m(f, RStripNewlines(line)).None?
    ensures var e := ParseLogLine(line, source, now, m);
      e.level == "UNKNOWN" && e.message == e.raw == RStripNewlines(line) && e.timestamp == now
  {
    ParseWithNoMatch(LogFormats, RStripNewlines(line), source, now, m);
  }

  lemma {:induction false} ParseWithNoMatch(formats: seq<LogFormat>, line: string, source: string, now: string, m: FormatMatcher)
    requires forall f :: f in formats ==> m(f, line).None?
    ensures ParseWith(formats, line, source, now, m) == LogEntry(now, "UNKNOWN", line, line, source, true)
  {
    if formats != [] {
      assert formats[0] in formats;
      assert forall f :: f in formats[1..] ==> f in formats;
      ParseWithNoMatch(formats[1..], line, source, now, m);
    }
  }

  /** The first format that matches decides the entry. */
  lemma {:induction false} ParseFirstMatch(formats: seq<LogFormat>, k: nat, line: string, source: string, now: string, m: FormatMatcher)
    requires k < |formats| && m(formats[k], line).Some?
    requires forall j :: 0 <= j < k ==> m(formats[j], line).None?
    ensures ParseWith(formats, line, source, now, m) == EntryFor(formats[k], m(formats[k], line).value, line, source, now)
  {
    if k > 0 {
      assert forall j :: 0 <= j < k - 1 ==> formats[1..][j] == formats[j + 1];
      ParseFirstMatch(formats[1..], k - 1, line, source, now, m);
    }
  }

  /** A line in the "LEVEL: message" form (and no earlier format matching) gets that level and message. */
  lemma PrefixedLine(line: string, source: string, now: string, m: FormatMatcher, level: string, message: string)
    requires forall f :: f in [Iso8601, Syslog, Apache, Bracketed] ==> m(f, RStripNewlines(line)).None?
    requires m(Prefixed, RStripNewlines(line)) == Some(Groups("", level, message))
    ensures var e := ParseLogLine(line, source, now, m);
      e.level == level && e.message == message && e.timestamp == now
  {
    ParseFirstMatch(LogFormats, 4, RStripNewlines(line), source, now, m);
  }

  // ---------------------------------------------------------------------
  // Filtering (`_should_display`)

  /** A compiled filter: whether its pattern is found somewhere in a text (`pattern.search`). */
  type Filter = string -> bool

  /** Some filter of `fs` is found in `text` (the loops of `_should_display`, stopping at the first hit). */
  function AnyFound(fs: seq<Filter>, text: string): bool {
    if fs == [] then false else fs[0](text) || AnyFound(fs[1..], text)
  }

  lemma {:induction false} AnyFoundMeaning(fs: seq<Filter>, text: string)
    ensures AnyFound(fs, text) <==> exists i :: 0 <= i < |fs| && fs[i](text)
  {
    if fs != [] {
      AnyFoundMeaning(fs[1..], text);
      assert forall i :: 0 < i < |fs| ==> fs[i] == fs[1..][i - 1];
    }
  }

  /** `_should_display`: excludes are checked first; with includes present one of them must be found. */
  function ShouldDisplay(excludes: seq<Filter>, includes: seq<Filter>, e: LogEntry): bool {
    if AnyFound(excludes, e.raw) then false
    else if includes != [] then AnyFound(includes, e.raw)
    else true
  }

  /**
   * An entry is shown exactly when no exclude filter is found in its raw
   * text and, if there are include filters, one of them is: an exclude wins
   * over an include, and with no filters everything is shown.
   */
  lemma ShouldDisplayMeaning(excludes: seq<Filter>, includes: seq<Filter>, e: LogEntry)
    ensures ShouldDisplay(excludes, includes, e)
        <==> (forall i :: 0 <= i < |excludes| ==> !excludes[i](e.raw))
             && (includes == [] || exists i :: 0 <= i < |includes| && includes[i](e.raw))
  {
    AnyFoundMeaning(excludes, e.raw);
    AnyFoundMeaning(includes, e.raw);
  }

  // ---------------------------------------------------------------------
  // Output (`_colorize`, `_format_output`)

  /** `rule.pattern.sub(...)`: every match of the rule's pattern in a text wrapped in its colour and a reset. */
  type Substitute = (HighlightRule, string) -> string

  /** The rules applied one after the other, each to the result of the previous one. */
  function ApplyRules(rules: seq<HighlightRule>, sub: Substitute, text: string): string
    decreases |rules|
  {
    if rules == [] then text else ApplyRules(rules[1..], sub, sub(rules[0], text))
  }

  /**
   * `_colorize`: the identity without colour; a known level wraps the text
   * in its colour; otherwise the rules are applied in order of priority.
   */
  function Colorize(noColor: bool, rules: seq<HighlightRule>, sub: Substitute, text: string, level: string): (r: string)
    ensures noColor ==> r == text
    ensures !noColor && Assoc(LevelColors, level).Some? ==> r == Assoc(LevelColors, level).value + text + Reset
  {
    if noColor then text
    else
      match Assoc(LevelColors, level)
      case Some(color) => color + text + Reset
      case None => ApplyRules(Sorting.SortBy(rules, ByPriority()), sub, text)
  }

  /** `s[-w:] if len(s) > w else s` for a width `w >= 0` (`s[-0:]` is the whole of `s`). */
  function SourceTail(s: string, w: nat): (r: string)
    ensures 0 < w < |s| ==> r == s[|s| - w..] && |r| == w
    ensures w == 0 || |s| <= w ==> r == s
  {
    if |s| > w && w > 0 then s[|s| - w..] else s
  }

  /** `' '.join(parts)`. */
  function JoinSpaces(parts: seq<string>): string {
    if parts == [] then ""
    else if |parts| == 1 then parts[0]
    else parts[0] + " " + JoinSpaces(parts[1..])
  }

  /** The level column: the level left-aligned in eight characters, between brackets. */
  function LevelColumn(level: string): string {
    "[" + PadRight(level, 8) + "]"
  }

  /** The source column: the tail of the source name right-aligned in `w` characters, between brackets. */
  function SourceColumn(source: string, w: nat): string {
    "[" + PadLeft(SourceTail(source, w), w) + "]"
  }

  /** A part followed by at least one more is joined with a space. */
  lemma JoinSpacesCons(x: string, rest: seq<string>)
    requires rest != []
    ensures JoinSpaces([x] + rest) == x + " " + JoinSpaces(rest)
  {
    assert ([x] + rest)[1..] == rest;
  }

  /**
   * The parts of a line: the source column only when several files are
   * monitored, the timestamp when asked for, the (coloured) level column and
   * the (highlighted) message.
   */
  function OutputParts(fileCount: nat, showTimestamp: bool, noColor: bool, rules: seq<HighlightRule>, sub: Substitute,
                       e: LogEntry, sourceWidth: nat): seq<string>
  {
    (if fileCount > 1 then [SourceColumn(e.source, sourceWidth)] else [])
    + (if showTimestamp then [e.timestamp] else [])
    + [Colorize(noColor, rules, sub, LevelColumn(e.level), e.level), Colorize(noColor, rules, sub, e.message, "")]
  }

  /** `_format_output`: the parts separated by single spaces. */
  function FormatOutput(fileCount: nat, showTimestamp: bool, noColor: bool, rules: seq<HighlightRule>, sub: Substitute,
                        e: LogEntry, sourceWidth: nat): string
  {
    JoinSpaces(OutputParts(fileCount, showTimestamp, noColor, rules, sub, e, sourceWidth))
  }

  /** Without colour, for one file and without timestamps, a line is the level column, a space and the message. */
  lemma PlainOutput(rules: seq<HighlightRule>, sub: Substitute, e: LogEntry, w: nat)
    ensures FormatOutput(1, false, true, rules, sub, e, w) == LevelColumn(e.level) + " " + e.message
  {
    assert OutputParts(1, false, true, rules, sub, e, w) == [LevelColumn(e.level)] + [e.message];
    JoinSpacesCons(LevelColumn(e.level), [e.message]);
  }

  /** A part followed by at least one more starts the joined line, followed by a space. */
  lemma JoinSpacesPrefix(x: string, rest: seq<string>)
    requires rest != []
    ensures IsPrefix(x + " ", JoinSpaces([x] + rest))
  {
    JoinSpacesCons(x, rest);
    var out := x + " " + JoinSpaces(rest);
    assert out[..|x + " "|] == x + " ";
  }

  /** With several files a line starts with the source column. */
  lemma OutputStartsWithSource(showTimestamp: bool, noColor: bool, rules: seq<HighlightRule>, sub: Substitute, e: LogEntry, w: nat, n: nat)
    requires n > 1
    ensures IsPrefix(SourceColumn(e.source, w) + " ", FormatOutput(n, showTimestamp, noColor, rules, sub, e, w))
  {
    var parts := OutputParts(n, showTimestamp, noColor, rules, sub, e, w);
    assert parts[0] == SourceColumn(e.source, w) && |parts| > 1;
    assert parts == [parts[0]] + parts[1..];
    JoinSpacesPrefix(parts[0], parts[1..]);
  }

  /** The source column holds the last `w` characters of a longer source name. */
  lemma SourceColumnCuts(source: string, w: nat)
    requires 0 < w < |source|
    ensures SourceColumn(source, w) == "[" + source[|source| - w..] + "]"
  {
  }

  // ---------------------------------------------------------------------
  // Statistics (`_update_stats`)

  /** The sum of the values of a map. */
  ghost function MapSum<K>(m: map<K, nat>): nat
    decreases |m|
  {
    if m == map[] then 0
    else
      var k :| k in m;
      m[k] + MapSum(m - {k})
  }

  /** The sum may be taken out at any key. */
  lemma {:induction false} MapSumRemove<K>(m: map<K, nat>, k: K)
    requires k in m
    ensures MapSum(m) == m[k] + MapSum(m - {k})
    decreases |m|
  {
    var j :| j in m && MapSum(m) == m[j] + MapSum(m - {j});
    if j != k {
      MapSumRemove(m - {j}, k);
      MapSumRemove(m - {k}, j);
      assert m - {j} - {k} == m - {k} - {j};
    }
  }

  /** Setting one key changes the sum by the difference at that key. */
  lemma MapSumUpdate<K>(m: map<K, nat>, k: K, v: nat)
    ensures MapSum(m[k := v]) == MapSum(m) - (if k in m then m[k] else 0) + v
  {
    MapSumRemove(m[k := v], k);
    assert m[k := v] - {k} == m - {k};
    if k in m {
      MapSumRemove(m, k);
    } else {
      assert m - {k} == m;
    }
  }

  /** Per-file counters of `stats['by_file']`. */
  datatype FileCount = FileCount(total: nat, matched: nat)

  ghost function Totals(m: map<string, FileCount>): map<string, nat> {
    map k | k in m :: m[k].total
  }

  ghost function MatchedCounts(m: map<string, FileCount>): map<string, nat> {
    map k | k in m :: m[k].matched
  }

  /** The `by_file` key of an entry: its source, or "unknown" for an empty one. */
  function SourceKey(source: string): (r: string)
    ensures source != "" ==> r == source
    ensures source == "" ==> r == "unknown"
  {
    if source == "" then "unknown" else source
  }

  /** The counters are consistent: each level and each file count is part of the totals. */
  ghost predicate CountsAgree(totalLines: nat, matchedLines: nat, byLevel: map<string, nat>, byFile: map<string, FileCount>) {
    && matchedLines <= totalLines
    && MapSum(byLevel) == totalLines
    && MapSum(Totals(byFile)) == totalLines
    && MapSum(MatchedCounts(byFile)) == matchedLines
    && (forall s :: s in byFile ==> byFile[s].matched <= byFile[s].total)
  }

  /** The counter at a key of a dictionary of counts, 0 when absent (`dict.get(k, 0)`). */
  function CountAt(m: map<string, nat>, k: string): nat {
    if k in m then m[k] else 0
  }

  /** A file's counters, zero when it has none yet. */
  function FileCountAt(m: map<string, FileCount>, k: string): FileCount {
    if k in m then m[k] else FileCount(0, 0)
  }

  /** One more line counted under `level`: the level counts still sum to the total. */
  lemma LevelCountOneMore(totalLines: nat, byLevel: map<string, nat>, level: string)
    requires MapSum(byLevel) == totalLines
    ensures MapSum(byLevel[level := CountAt(byLevel, level) + 1]) == totalLines + 1
  {
    MapSumUpdate(byLevel, level, CountAt(byLevel, level) + 1);
  }

  /** A file's counts replaced by `c'`: the totals change by the difference. */
  lemma FileCountReplaced(byFile: map<string, FileCount>, key: string, c': FileCount)
    ensures MapSum(Totals(byFile[key := c'])) == MapSum(Totals(byFile)) - FileCountAt(byFile, key).total + c'.total
    ensures MapSum(MatchedCounts(byFile[key := c'])) == MapSum(MatchedCounts(byFile)) - FileCountAt(byFile, key).matched + c'.matched
  {
    assert Totals(byFile[key := c']) == Totals(byFile)[key := c'.total];
    MapSumUpdate(Totals(byFile), key, c'.total);
    assert MatchedCounts(byFile[key := c']) == MatchedCounts(byFile)[key := c'.matched];
    MapSumUpdate(MatchedCounts(byFile), key, c'.matched);
  }

  /** The counters with one more line at and under `level` and `key`. */
  function CountedOneMore(totalLines: nat, matchedLines: nat, byLevel: map<string, nat>, byFile: map<string, FileCount>,
                          level: string, key: string, matched: bool): (nat, nat, map<string, nat>, map<string, FileCount>)
  {
    var c := FileCountAt(byFile, key);
    var one := if matched then 1 else 0;
    (totalLines + 1, matchedLines + one, byLevel[level := CountAt(byLevel, level) + 1],
     byFile[key := FileCount(c.total + 1, c.matched + one)])
  }

  /** Counting one more line keeps the counters consistent. */
  lemma CountOneMore(totalLines: nat, matchedLines: nat, byLevel: map<string, nat>, byFile: map<string, FileCount>,
                     level: string, key: string, matched: bool)
    requires CountsAgree(totalLines, matchedLines, byLevel, byFile)
    ensures var n := CountedOneMore(totalLines, matchedLines, byLevel, byFile, level, key, matched);
      CountsAgree(n.0, n.1, n.2, n.3)
  {
    var n := CountedOneMore(totalLines, matchedLines, byLevel, byFile, level, key, matched);
    LevelCountOneMore(totalLines, byLevel, level);
    var c := FileCountAt(byFile, key);
    FileCountReplaced(byFile, key, n.3[key]);
    if key in byFile {
      assert byFile[key].matched <= byFile[key].total;
    }
  }

  /** No counters at all are consistent. */
  lemma NoCountsAgree()
    ensures CountsAgree(0, 0, map[], map[])
  {
    assert Totals(map[]) == map[] && MatchedCounts(map[]) == map[];
  }

  /** `_check_rotation`'s test: the recorded inode is set (truthy) and differs from the current one. */
  predicate Rotated(previous: Option<int>, current: int) {
    previous.Some? && previous.value != 0 && previous.value != current
  }

  /** The find of a key in a dictionary (`dict.get`). */
  function Get(m: map<string, int>, k: string): Option<int> {
    if k in m then Some(m[k]) else None
  }

  // ---------------------------------------------------------------------
  // The monitor (`LogMonitor`)

  class LogMonitor {
    const files: seq<string>
    const showTimestamp: bool
    const noColor: bool
    const includeFilters: seq<Filter>
    const excludeFilters: seq<Filter>
    var highlightRules: seq<HighlightRule>
    var filePositions: map<string, int>
    var inodeMap: map<string, int>
    var totalLines: nat
    var matchedLines: nat
    var byLevel: map<string, nat>
    var byFile: map<string, FileCount>

    ghost predicate Valid()
      reads this`totalLines, this`matchedLines, this`byLevel, this`byFile
    {
      CountsAgree(totalLines, matchedLines, byLevel, byFile)
    }

    /**
     * `__init__`: colour is off when asked for or when standard output is not
     * a terminal; the filters are the compiled include and exclude patterns;
     * the statistics start at zero and the highlight rules are set up.
     */
    constructor(files: seq<string>, includeFilters: seq<Filter>, excludeFilters: seq<Filter>,
                noColorFlag: bool, stdoutIsTty: bool, showTimestamp: bool, highlightSpecs: seq<string>)
      ensures Valid()
      ensures this.files == files && this.includeFilters == includeFilters && this.excludeFilters == excludeFilters
      ensures noColor == (noColorFlag || !stdoutIsTty) && this.showTimestamp == showTimestamp
      ensures highlightRules == LevelRules() + CustomRules(highlightSpecs)
      ensures filePositions == map[] && inodeMap == map[]
      ensures totalLines == 0 && matchedLines == 0 && byLevel == map[] && byFile == map[]
    {
      this.files := files;
      this.includeFilters := includeFilters;
      this.excludeFilters := excludeFilters;
      noColor := noColorFlag || !stdoutIsTty;
      this.showTimestamp := showTimestamp;
      highlightRules := [];
      filePositions, inodeMap := map[], map[];
      totalLines, matchedLines := 0, 0;
      byLevel, byFile := map[], map[];
      new;
      NoCountsAgree();
      SetupHighlighting(highlightSpecs);
    }

    /** `_setup_highlighting`: the level rules, then the custom rules that are kept. */
    method SetupHighlighting(specs: seq<string>)
      modifies this`highlightRules
      ensures highlightRules == old(highlightRules) + LevelRules() + CustomRules(specs)
    {
      var i := 0;
      while i < |LevelColors|
        invariant 0 <= i <= |LevelColors|
        invariant highlightRules == old(highlightRules) + LevelRules()[..i]
      {
        assert LevelRules()[..i + 1] == LevelRules()[..i] + [LevelRules()[i]];
        highlightRules := highlightRules + [LevelRule(LevelColors[i].0, LevelColors[i].1)];
        i := i + 1;
      }
      assert LevelRules()[..i] == LevelRules();
      ghost var base := highlightRules;
      var j := 0;
      while j < |specs|
        invariant 0 <= j <= |specs|
        invariant highlightRules + CustomRules(specs[j..]) == base + CustomRules(specs)
      {
        var spec := specs[j];
        assert specs[j..][0] == spec && specs[j..][1..] == specs[j + 1..];
        if ':' in spec {
          var k := LastIndex(spec, ':');
          var pattern, colorName := spec[..k], spec[k + 1..];
          var color := Assoc(ColorNames, colorName);
          if color.Some? {
            var rule := HighlightRule(Regex(pattern, true), color.value, 2);
            assert highlightRules + ([rule] + CustomRules(specs[j + 1..])) == (highlightRules + [rule]) + CustomRules(specs[j + 1..]);
            highlightRules := highlightRules + [rule];
          }
        }
        j := j + 1;
      }
      assert specs[j..] == [];
    }

    /**
     * `_update_stats`: one more line in total, one more matched line when
     * `matched`, and one more under the entry's level and under its source
     * ("unknown" for none); the counters stay consistent.
     */
    method UpdateStats(e: LogEntry, matched: bool)
      requires Valid()
      modifies this`totalLines, this`matchedLines, this`byLevel, this`byFile
      ensures Valid()
      ensures (totalLines, matchedLines, byLevel, byFile)
        == CountedOneMore(old(totalLines), old(matchedLines), old(byLevel), old(byFile), e.level, SourceKey(e.source), matched)
    {
      CountOneMore(totalLines, matchedLines, byLevel, byFile, e.level, SourceKey(e.source), matched);
      var n := CountedOneMore(totalLines, matchedLines, byLevel, byFile, e.level, SourceKey(e.source), matched);
      totalLines, matchedLines, byLevel, byFile := n.0, n.1, n.2, n.3;
    }

    /**
     * `_check_rotation`: with the file's current inode (`None` when `stat`
     * fails, which changes nothing), the file counts as rotated when its
     * recorded inode is set and differs; its read position then goes back to
     * 0.  The current inode is recorded either way.
     */
    method CheckRotation(path: string, currentInode: Option<int>) returns (rotated: bool)
      modifies this`filePositions, this`inodeMap
      ensures currentInode.None? ==> !rotated && filePositions == old(filePositions) && inodeMap == old(inodeMap)
      ensures currentInode.Some? ==>
        && rotated == Rotated(Get(old(inodeMap), path), currentInode.value)
        && inodeMap == old(inodeMap)[path := currentInode.value]
        && filePositions == if rotated then old(filePositions)[path := 0] else old(filePositions)
    {
      if currentInode.None? {
        return false;
      }
      var current := currentInode.value;
      var previous := Get(inodeMap, path);
      if previous.Some? && previous.value != 0 && previous.value != current {
        filePositions := filePositions[path := 0];
        inodeMap := inodeMap[path := current];
        return true;
      }
      inodeMap := inodeMap[path := current];
      return false;
    }
  }
}
