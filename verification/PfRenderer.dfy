/**
 Rendering a rule set as PF configuration text: what the text is, word by word and line by line, and the appends that
 produce it.
 */
module PfRenderer {
  import opened Text
  import opened PfRules

  // ---------- words ----------

  function Unwords(words: seq<string>): string
    requires words != []
  {
    if |words| == 1 then words[0] else words[0] + [' '] + Unwords(words[1..])
  }

  lemma {:induction false} UnwordsOneMore(words: seq<string>, w: string)
    requires words != []
    ensures Unwords(words + [w]) == Unwords(words) + [' '] + w
    decreases |words|
  {
    assert (words + [w])[0] == words[0] && (words + [w])[1..] == words[1..] + [w];
    if |words| > 1 {
      UnwordsOneMore(words[1..], w);
    } else {
      assert words[1..] + [w] == [w];
    }
  }

  // ---------- a rule as words ----------

  function ActionWord(a: Action): string { match a case Block => "block" case Pass => "pass" }

  function DirectionWord(d: Direction): string {
    match d case AnyDirection => "" case Inbound => "in" case Outbound => "out"
  }

  function FamilyWord(f: Family): string { match f case AnyFamily => "" case Inet => "inet" case Inet6 => "inet6" }

  function ProtocolWord(p: Protocol): string {
    match p case AnyProtocol => "" case Tcp => "tcp" case Udp => "udp" case Icmp => "icmp" case Icmp6 => "icmp6"
  }

  function Unless(absent: bool, words: seq<string>): seq<string> { if absent then [] else words }

  function EndpointWords(keyword: string, e: Endpoint): seq<string> {
    [keyword, e.network] + match e.port case None => [] case Some(n) => ["port", Print(n)]
  }

  // The words of a rule from a given part on.
  function StateWords(r: Rule): seq<string> { Unless(r.action == Block, ["keep", "state"]) }
  function DestinationWords(r: Rule): seq<string> { EndpointWords("to", r.destination) + StateWords(r) }
  function SourceWords(r: Rule): seq<string> { EndpointWords("from", r.source) + DestinationWords(r) }
  function ProtocolWords(r: Rule): seq<string> {
    Unless(r.protocol == AnyProtocol, ["proto", ProtocolWord(r.protocol)]) + SourceWords(r)
  }
  function FamilyWords(r: Rule): seq<string> {
    Unless(r.family == AnyFamily, [FamilyWord(r.family)]) + ProtocolWords(r)
  }
  function InterfaceWords(r: Rule): seq<string> { Unless(r.interface == [], ["on", r.interface]) + FamilyWords(r) }
  function QuickWords(r: Rule): seq<string> { Unless(!r.quick, ["quick"]) + InterfaceWords(r) }
  function LogWords(r: Rule): seq<string> { Unless(!r.log, ["log"]) + QuickWords(r) }
  function DirectionWords(r: Rule): seq<string> {
    Unless(r.direction == AnyDirection, [DirectionWord(r.direction)]) + LogWords(r)
  }
  function RuleWords(r: Rule): seq<string> { [ActionWord(r.action)] + DirectionWords(r) }

  function Statement(r: Rule): string { Unwords(RuleWords(r)) }

  // ---------- lines ----------

  const GENERATED := "# Generated by SASD Gatehold. DO NOT EDIT."
  const REVISION_LABEL := "# Configuration revision: "
  const BLOCK_POLICY := "set block-policy drop"
  const SKIP_LOOPBACK := "set skip on lo"
  const BLOCK_ALL := "block log all"
  const RULE_LABEL := "# rule "
  const DISABLED_LABEL := "# disabled rule "

  function Preamble(revision: nat): seq<string> {
    [GENERATED, REVISION_LABEL + Print(revision), [], BLOCK_POLICY, SKIP_LOOPBACK, [], BLOCK_ALL]
  }

  function RuleComment(r: Rule): string {
    RULE_LABEL + r.id + if r.description == [] then [] else ": " + r.description
  }

  function RuleLines(r: Rule): seq<string> {
    if r.enabled then ["", RuleComment(r), Statement(r)] else ["", DISABLED_LABEL + r.id]
  }

  function AllRuleLines(rules: seq<Rule>): seq<string> {
    if rules == [] then [] else RuleLines(rules[0]) + AllRuleLines(rules[1..])
  }

  function RenderedLines(rs: RuleSet): seq<string> { Preamble(rs.revision) + AllRuleLines(rs.rules) }

  function Rendered(rs: RuleSet): string { Join(RenderedLines(rs)) }

  // ---------- the renderer's appends ----------

  // The words written so far of the statement that starts after `start`.
  ghost predicate Writing(output: string, start: string, words: seq<string>) {
    words != [] && output == start + Unwords(words)
  }

  method AppendWord(output: string, ghost start: string, ghost words: seq<string>, word: string) returns (r: string)
    requires Writing(output, start, words)
    ensures Writing(r, start, words + [word])
  {
    UnwordsOneMore(words, word);
    r := output + [' '] + word;
  }

  method AppendToken(output: string, ghost start: string, ghost words: seq<string>, word: string) returns (r: string)
    requires Writing(output, start, words)
    ensures Writing(r, start, words + Unless(word == [], [word]))
  {
    hide Writing;
    r := output;
    if word != [] {
      r := AppendWord(r, start, words, word);
    } else {
      assert words + [] == words;
    }
  }

  method AppendPair(output: string, ghost start: string, ghost words: seq<string>, absent: bool, keyword: string,
                    word: string) returns (r: string)
    requires Writing(output, start, words)
    ensures Writing(r, start, words + Unless(absent, [keyword, word]))
  {
    hide Writing;
    r := output;
    if !absent {
      r := AppendWord(r, start, words, keyword);
      r := AppendWord(r, start, words + [keyword], word);
      assert words + [keyword] + [word] == words + [keyword, word];
    } else {
      assert words + [] == words;
    }
  }

  method AppendEndpoint(output: string, ghost start: string, ghost words: seq<string>, keyword: string, e: Endpoint)
    returns (r: string)
    requires Writing(output, start, words)
    ensures Writing(r, start, words + EndpointWords(keyword, e))
  {
    hide Writing;
    r := AppendPair(output, start, words, false, keyword, e.network);
    r := AppendPair(r, start, words + [keyword, e.network], e.port.None?, "port",
                    if e.port.Some? then Print(e.port.value) else []);
    assert words + [keyword, e.network] + (match e.port case None => [] case Some(n) => ["port", Print(n)])
        == words + EndpointWords(keyword, e);
  }

  lemma Shift(w: seq<string>, part: seq<string>, rest: seq<string>, whole: seq<string>) returns (more: seq<string>)
    requires w + (part + rest) == whole
    ensures more == w + part && more + rest == whole
  {
    more := w + part;
    assert more + rest == w + (part + rest);
  }

  lemma StartWriting(start: string, r: Rule)
    ensures Writing(start + ActionWord(r.action), start, [ActionWord(r.action)])
    ensures [ActionWord(r.action)] + DirectionWords(r) == RuleWords(r)
  {}

  lemma EnumWords(r: Rule)
    ensures DirectionWord(r.direction) == [] <==> r.direction == AnyDirection
    ensures FamilyWord(r.family) == [] <==> r.family == AnyFamily
  {}

  lemma AllWritten(output: string, start: string, r: Rule)
    requires Writing(output, start, RuleWords(r))
    ensures output == start + Statement(r)
  {}

  // A rule's statement, appended word by word; what is written and what is to come make up the rule's words.
  method AppendStatement(output: string, r: Rule) returns (text: string)
    ensures text == output + Statement(r)
  {
    hide Writing, RuleWords;
    var direction, family := DirectionWord(r.direction), FamilyWord(r.family);
    EnumWords(r);
    text := output + ActionWord(r.action);
    ghost var w := [ActionWord(r.action)];
    StartWriting(output, r);
    text := AppendToken(text, output, w, direction);
    w := Shift(w, Unless(direction == [], [direction]), LogWords(r), RuleWords(r));
    text := AppendToken(text, output, w, if r.log then "log" else []);
    w := Shift(w, Unless(!r.log, ["log"]), QuickWords(r), RuleWords(r));
    text := AppendToken(text, output, w, if r.quick then "quick" else []);
    w := Shift(w, Unless(!r.quick, ["quick"]), InterfaceWords(r), RuleWords(r));
    text := AppendPair(text, output, w, r.interface == [], "on", r.interface);
    w := Shift(w, Unless(r.interface == [], ["on", r.interface]), FamilyWords(r), RuleWords(r));
    text := AppendToken(text, output, w, family);
    w := Shift(w, Unless(family == [], [family]), ProtocolWords(r), RuleWords(r));
    text := AppendPair(text, output, w, r.protocol == AnyProtocol, "proto", ProtocolWord(r.protocol));
    w := Shift(w, Unless(r.protocol == AnyProtocol, ["proto", ProtocolWord(r.protocol)]), SourceWords(r),
               RuleWords(r));
    text := AppendEndpoint(text, output, w, "from", r.source);
    w := Shift(w, EndpointWords("from", r.source), DestinationWords(r), RuleWords(r));
    text := AppendEndpoint(text, output, w, "to", r.destination);
    w := Shift(w, EndpointWords("to", r.destination), StateWords(r), RuleWords(r));
    text := AppendPair(text, output, w, r.action == Block, "keep", "state");
    AllWritten(text, output, r);
  }

  lemma JoinThree(a: string, b: string, c: string)
    ensures Join([a, b, c]) == a + ['\n'] + b + ['\n'] + c + ['\n']
    ensures Join([a, b]) == a + ['\n'] + b + ['\n']
  {
    hide Join;
    JoinOne(c);
    JoinOne(b);
    JoinCons(b, [c]);
    JoinCons(a, [b]);
    JoinCons(a, [b, c]);
    assert [a] + [b, c] == [a, b, c] && [b] + [c] == [b, c] && [a] + [b] == [a, b];
  }

  method AppendRule(output: string, r: Rule) returns (text: string)
    requires r.enabled
    ensures text == output + Join(RuleLines(r))
  {
    hide Statement;
    text := output + ['\n'] + RULE_LABEL + r.id;
    if r.description != [] {
      text := text + ": " + r.description;
    }
    assert text == output + ['\n'] + RuleComment(r);
    text := text + ['\n'];
    text := AppendStatement(text, r);
    text := text + ['\n'];
    JoinThree("", RuleComment(r), Statement(r));
  }

  lemma JoinGroup(a: string, b: string)
    ensures Join([a, b, []]) == a + ['\n'] + b + ['\n'] + ['\n']
  {
    hide Join;
    JoinThree(a, b, []);
  }

  lemma RegroupText(before: string, c: string, d: string)
    ensures before + c + ['\n'] + d + ['\n'] + ['\n'] == before + (c + ['\n'] + d + ['\n'] + ['\n'])
  {}

  // Two groups of two lines, each followed by an empty one, and a last line.
  method AppendGroups(a: string, b: string, c: string, d: string, e: string) returns (text: string)
    ensures text == Join([a, b, [], c, d, [], e])
  {
    hide Join;
    text := a + ['\n'] + b + ['\n'] + ['\n'];
    text := text + c + ['\n'] + d + ['\n'] + ['\n'];
    text := text + e + ['\n'];
    JoinGroup(a, b);
    JoinGroup(c, d);
    JoinOne(e);
    JoinAppend([a, b, []], [c, d, []]);
    JoinAppend([a, b, []] + [c, d, []], [e]);
    assert [a, b, []] + [c, d, []] + [e] == [a, b, [], c, d, [], e];
    RegroupText(a + ['\n'] + b + ['\n'] + ['\n'], c, d);
  }

  method AppendPreamble(revision: nat) returns (text: string)
    ensures text == Join(Preamble(revision))
  {
    hide Print, Join;
    text := AppendGroups(GENERATED, REVISION_LABEL + Print(revision), BLOCK_POLICY, SKIP_LOOPBACK, BLOCK_ALL);
  }

  lemma {:induction false} AllRuleLinesOneMore(rules: seq<Rule>, r: Rule)
    ensures AllRuleLines(rules + [r]) == AllRuleLines(rules) + RuleLines(r)
    decreases |rules|
  {
    hide RuleLines;
    if rules == [] {
      assert (rules + [r])[1..] == [];
    } else {
      AllRuleLinesOneMore(rules[1..], r);
      assert (rules + [r])[1..] == rules[1..] + [r];
    }
  }

  lemma NoRules()
    ensures forall lines :: Join(lines + AllRuleLines([])) == Join(lines)
  {
    assert forall lines: seq<string> :: lines + [] == lines;
  }

  lemma DisabledLines(r: Rule)
    requires !r.enabled
    ensures Join(RuleLines(r)) == "\n# disabled rule " + r.id + ['\n']
  {
    JoinThree("", DISABLED_LABEL + r.id, "");
  }

  /** Rendering refuses exactly the rule sets that are not valid, and otherwise writes the text. */
  method Render(p: AddressParser, rs: RuleSet) returns (report: seq<Issue>, ruleset: string)
    ensures report == [] <==> ValidRuleSet(p, rs)
    ensures ruleset == if report == [] then Rendered(rs) else []
  {
    hide Preamble, AllRuleLines, RuleLines, Join, ValidRuleSet;
    report := ValidateRuleSet(p, rs);
    if report != [] { return report, []; }
    ruleset := AppendPreamble(rs.revision);
    NoRules();
    for i := 0 to |rs.rules|
      invariant ruleset == Join(Preamble(rs.revision) + AllRuleLines(rs.rules[..i]))
    {
      var rule := rs.rules[i];
      if rule.enabled {
        ruleset := AppendRule(ruleset, rule);
      } else {
        DisabledLines(rule);
        ruleset := ruleset + ("\n# disabled rule " + rule.id + ['\n']);
      }
      assert rs.rules[..i + 1] == rs.rules[..i] + [rule];
      AllRuleLinesOneMore(rs.rules[..i], rule);
      JoinAppend(Preamble(rs.revision) + AllRuleLines(rs.rules[..i]), RuleLines(rule));
      assert Preamble(rs.revision) + AllRuleLines(rs.rules[..i]) + RuleLines(rule)
          == Preamble(rs.revision) + AllRuleLines(rs.rules[..i + 1]);
    }
    assert rs.rules[..|rs.rules|] == rs.rules;
  }
}
