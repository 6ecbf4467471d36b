/**
 A reader of rendered PF text, and what it shows: the text of a rule set determines the rule set.
 */
module PfReader {
  import opened Basics
  import opened Text
  import opened PfRules
  import opened PfRenderer

  // ---------- words ----------

  // The words between spaces.
  function Words(s: string): (r: seq<string>)
    ensures r != []
    decreases |s|
  {
    var k := Find(s, ' ');
    if k == |s| then [s] else [s[..k]] + Words(s[k + 1..])
  }

  predicate NoSpaces(words: seq<string>) { forall i :: 0 <= i < |words| ==> ' ' !in words[i] }

  lemma {:induction false} WordsOfUnwords(words: seq<string>)
    requires words != [] && NoSpaces(words)
    ensures Words(Unwords(words)) == words
    decreases |words|
  {
    var s := Unwords(words);
    if |words| == 1 {
      assert Find(s, ' ') == |s|;
    } else {
      var rest := Unwords(words[1..]);
      FindInPrefix(words[0], rest, ' ');
      assert s[..|words[0]|] == words[0] && s[|words[0]| + 1..] == rest;
      WordsOfUnwords(words[1..]);
    }
  }

  lemma {:induction false} WordsAreClean(s: string)
    requires '\n' !in s
    ensures forall i :: 0 <= i < |Words(s)| ==> Clean(Words(s)[i])
    decreases |s|
  {
    var k := Find(s, ' ');
    if k == |s| {
    } else {
      WordsAreClean(s[k + 1..]);
    }
  }

  // ---------- parsing a rule's words ----------

  predicate Next(words: seq<string>, w: string) { words != [] && words[0] == w }

  function TakeDirection(words: seq<string>): (Direction, seq<string>) {
    if Next(words, "in") then (Inbound, words[1..])
    else if Next(words, "out") then (Outbound, words[1..])
    else (AnyDirection, words)
  }

  function TakeFlag(words: seq<string>, w: string): (bool, seq<string>) {
    if Next(words, w) then (true, words[1..]) else (false, words)
  }

  function TakeInterface(words: seq<string>): (string, seq<string>) {
    if |words| >= 2 && words[0] == "on" then (words[1], words[2..]) else ([], words)
  }

  function TakeFamily(words: seq<string>): (Family, seq<string>) {
    if Next(words, "inet") then (Inet, words[1..])
    else if Next(words, "inet6") then (Inet6, words[1..])
    else (AnyFamily, words)
  }

  function TakeProtocol(words: seq<string>): Option<(Protocol, seq<string>)> {
    if !Next(words, "proto") then Some((AnyProtocol, words))
    else if |words| < 2 then None
    else if words[1] == "tcp" then Some((Tcp, words[2..]))
    else if words[1] == "udp" then Some((Udp, words[2..]))
    else if words[1] == "icmp" then Some((Icmp, words[2..]))
    else if words[1] == "icmp6" then Some((Icmp6, words[2..]))
    else None
  }

  function ParsePort(s: string): Option<Port> {
    match ParseUint64(s)
    case Some(n) => if n < 0x1_0000 then Some(n) else None
    case None => None
  }

  function TakeEndpoint(words: seq<string>, keyword: string): Option<(Endpoint, seq<string>)> {
    if |words| < 2 || words[0] != keyword then None
    else if |words| >= 4 && words[2] == "port" then
      match ParsePort(words[3])
      case Some(n) => Some((Endpoint(words[1], Some(n)), words[4..]))
      case None => None
    else Some((Endpoint(words[1], None), words[2..]))
  }

  // The part of a rule its statement shows.
  datatype Clause = Clause(action: Action, direction: Direction, log: bool, quick: bool, interface: string,
                           family: Family, protocol: Protocol, source: Endpoint, destination: Endpoint)

  function ClauseOf(r: Rule): Clause {
    Clause(r.action, r.direction, r.log, r.quick, r.interface, r.family, r.protocol, r.source, r.destination)
  }

  function ParseEndpoints(words: seq<string>): Option<(Endpoint, Endpoint, seq<string>)> {
    match TakeEndpoint(words, "from")
    case None => None
    case Some(source) =>
      match TakeEndpoint(source.1, "to")
      case None => None
      case Some(destination) => Some((source.0, destination.0, destination.1))
  }

  function ParseOptions(action: Action, words: seq<string>): Option<Clause> {
    var direction := TakeDirection(words);
    var log := TakeFlag(direction.1, "log");
    var quick := TakeFlag(log.1, "quick");
    var interface := TakeInterface(quick.1);
    var family := TakeFamily(interface.1);
    match TakeProtocol(family.1)
    case None => None
    case Some(protocol) =>
      match ParseEndpoints(protocol.1)
      case None => None
      case Some(ends) =>
        if ends.2 == if action == Pass then ["keep", "state"] else []
        then Some(Clause(action, direction.0, log.0, quick.0, interface.0, family.0, protocol.0, ends.0, ends.1))
        else None
  }

  function ParseStatement(words: seq<string>): Option<Clause> {
    if Next(words, "block") then ParseOptions(Block, words[1..])
    else if Next(words, "pass") then ParseOptions(Pass, words[1..])
    else None
  }

  // ---------- the words of a rule parse back ----------

  lemma TakeEndpointBack(keyword: string, e: Endpoint, rest: seq<string>)
    requires !Next(rest, "port")
    ensures TakeEndpoint(EndpointWords(keyword, e) + rest, keyword) == Some((e, rest))
  {
    var words := EndpointWords(keyword, e) + rest;
    match e.port
    case None =>
      assert words[2..] == rest;
      assert |words| >= 4 ==> words[2] == rest[0];
    case Some(n) =>
      ParsePrint(n);
      assert words[4..] == rest;
  }

  lemma EndpointsBack(r: Rule)
    ensures ParseEndpoints(SourceWords(r)) == Some((r.source, r.destination, StateWords(r)))
  {
    hide TakeEndpoint, Print, ParseUint64;
    assert "keep" != "port" && "to" != "port" by {
      assert "keep"[0] != "port"[0] && |"to"| != |"port"|;
    }
    TakeEndpointBack("from", r.source, DestinationWords(r));
    TakeEndpointBack("to", r.destination, StateWords(r));
  }

  // The first word decides which optional part comes next.
  lemma SourceStarts(r: Rule)
    ensures Next(SourceWords(r), "from")
  {}

  lemma DistinctProtocols()
    ensures "tcp" != "udp" && "tcp" != "icmp" && "udp" != "icmp" && "tcp" != "icmp6" && "udp" != "icmp6"
    ensures "icmp" != "icmp6"
  {
    assert "tcp"[0] == 't' && "udp"[0] == 'u' && "icmp"[0] == 'i' && "icmp6"[0] == 'i';
    assert |"icmp"| == 4 && |"icmp6"| == 5;
  }

  lemma ProtocolBack(r: Rule)
    ensures TakeProtocol(ProtocolWords(r)) == Some((r.protocol, SourceWords(r)))
    ensures ProtocolWords(r)[0] in ["proto", "from"]
  {
    hide SourceWords;
    SourceStarts(r);
    var words := ProtocolWords(r);
    if r.protocol == AnyProtocol {
      assert words == SourceWords(r);
      assert "from"[0] != "proto"[0];
    } else {
      assert words[2..] == SourceWords(r);
      DistinctProtocols();
    }
  }

  lemma FamilyBack(r: Rule)
    ensures TakeFamily(FamilyWords(r)) == (r.family, ProtocolWords(r))
    ensures FamilyWords(r)[0] in ["inet", "inet6", "proto", "from"]
  {
    hide ProtocolWords;
    ProtocolBack(r);
    assert "inet"[0] == 'i' && "inet6"[0] == 'i' && "proto"[0] == 'p' && "from"[0] == 'f';
    assert |"inet"| != |"inet6"|;
    if r.family == AnyFamily {
      assert FamilyWords(r) == ProtocolWords(r);
    } else {
      assert FamilyWords(r)[1..] == ProtocolWords(r);
    }
  }

  lemma InterfaceBack(r: Rule)
    ensures TakeInterface(InterfaceWords(r)) == (r.interface, FamilyWords(r))
    ensures InterfaceWords(r)[0] in ["on", "inet", "inet6", "proto", "from"]
  {
    hide FamilyWords;
    FamilyBack(r);
    if r.interface == [] {
      assert InterfaceWords(r) == FamilyWords(r);
      assert "on"[0] == 'o' && "inet"[0] == 'i' && "inet6"[0] == 'i' && "proto"[0] == 'p' && "from"[0] == 'f';
    } else {
      assert InterfaceWords(r)[2..] == FamilyWords(r);
    }
  }

  lemma FlagsBack(r: Rule)
    ensures TakeFlag(QuickWords(r), "quick") == (r.quick, InterfaceWords(r))
    ensures TakeFlag(LogWords(r), "log") == (r.log, QuickWords(r))
    ensures LogWords(r)[0] in ["log", "quick", "on", "inet", "inet6", "proto", "from"]
  {
    hide InterfaceWords;
    InterfaceBack(r);
    assert "on"[0] == 'o' && "inet"[0] == 'i' && "inet6"[0] == 'i' && "proto"[0] == 'p' && "from"[0] == 'f';
    assert "log"[0] == 'l' && "quick"[0] == 'q';
    if r.quick {
      assert QuickWords(r)[1..] == InterfaceWords(r);
    } else {
      assert QuickWords(r) == InterfaceWords(r);
    }
    if r.log {
      assert LogWords(r)[1..] == QuickWords(r);
    } else {
      assert LogWords(r) == QuickWords(r);
    }
  }

  lemma DirectionBack(r: Rule)
    ensures TakeDirection(DirectionWords(r)) == (r.direction, LogWords(r))
  {
    hide LogWords;
    FlagsBack(r);
    assert "log"[0] == 'l' && "quick"[0] == 'q' && "proto"[0] == 'p' && "from"[0] == 'f';
    assert |"on"| == 2 && |"inet"| == 4 && |"inet6"| == 5 && |"in"| == 2 && |"out"| == 3;
    assert "on"[0] == 'o' && "in"[0] == 'i' && "out"[0] == 'o';
    if r.direction == AnyDirection {
      assert DirectionWords(r) == LogWords(r);
    } else {
      assert DirectionWords(r)[1..] == LogWords(r);
    }
  }

  /** The statement of a rule says exactly what the rule says. */
  lemma StatementBack(r: Rule)
    ensures ParseStatement(RuleWords(r)) == Some(ClauseOf(r))
  {
    hide TakeDirection, TakeFlag, TakeInterface, TakeFamily, TakeProtocol, ParseEndpoints;
    hide DirectionWords, LogWords, QuickWords, InterfaceWords, FamilyWords, ProtocolWords, SourceWords;
    DirectionBack(r);
    FlagsBack(r);
    InterfaceBack(r);
    FamilyBack(r);
    ProtocolBack(r);
    EndpointsBack(r);
    assert "block"[0] != "pass"[0];
    assert RuleWords(r)[1..] == DirectionWords(r);
  }

  // What the text shows of a rule: of a disabled one only its id.
  datatype Item = Shown(id: string, description: string, clause: Clause) | Disabled(id: string)

  datatype Parsed = Parsed(revision: nat, items: seq<Item>)

  function ItemOf(r: Rule): Item { if r.enabled then Shown(r.id, r.description, ClauseOf(r)) else Disabled(r.id) }

  function Items(rules: seq<Rule>): seq<Item> {
    seq(|rules|, i requires 0 <= i < |rules| => ItemOf(rules[i]))
  }

  // ---------- parsing the lines ----------

  function ParseComment(comment: string): Option<(string, string)> {
    var k := Find(comment, ':');
    if k == |comment| then Some((comment, []))
    else if |comment| >= k + 2 && comment[k + 1] == ' ' then Some((comment[..k], comment[k + 2..]))
    else None
  }

  function ParseShown(lines: seq<string>): (r: Option<Item>)
    requires |lines| >= 2
    ensures r.Some? ==> |lines| >= 3
  {
    var comment := Text.After(lines[1], RULE_LABEL);
    if comment.None? || |lines| < 3 then None
    else
      var head := ParseComment(comment.value);
      var clause := ParseStatement(Words(lines[2]));
      if head.None? || clause.None? then None else Some(Shown(head.value.0, head.value.1, clause.value))
  }

  function ParseItems(lines: seq<string>): Option<seq<Item>>
    decreases |lines|
  {
    if lines == [] then Some([])
    else if |lines| < 2 || lines[0] != "" then None
    else
      var disabled := Text.After(lines[1], DISABLED_LABEL);
      if disabled.Some? then
        var rest := ParseItems(lines[2..]);
        if rest.None? then None else Some([Disabled(disabled.value)] + rest.value)
      else
        var item := ParseShown(lines);
        if item.None? then None
        else
          var rest := ParseItems(lines[3..]);
          if rest.None? then None else Some([item.value] + rest.value)
  }

  function ParseLines(lines: seq<string>): Option<Parsed> {
    if |lines| < 7 then None
    else
      var number := Text.After(lines[1], REVISION_LABEL);
      if number.None? then None
      else
        var revision := ParseUint64(number.value);
        if revision.None? || lines[..7] != Preamble(revision.value) then None
        else
          var items := ParseItems(lines[7..]);
          if items.None? then None else Some(Parsed(revision.value, items.value))
  }

  function Parse(text: string): Option<Parsed> {
    match Lines(text)
    case Some(lines) => ParseLines(lines)
    case None => None
  }

  // ---------- the lines of a rule set parse back ----------

  // Networks of enabled rules are words.
  predicate CleanRule(r: Rule) { r.enabled ==> Clean(r.source.network) && Clean(r.destination.network) }

  predicate CleanRules(rules: seq<Rule>) { forall i :: 0 <= i < |rules| ==> CleanRule(rules[i]) }

  lemma DigitsAreClean(n: nat)
    ensures Clean(Print(n))
  {
    PrintIsDecimal(n);
    DigitsAreOneLine(Print(n));
  }

  lemma EndpointWordsAreClean(keyword: string, e: Endpoint)
    requires Clean(keyword) && Clean(e.network)
    ensures forall i :: 0 <= i < |EndpointWords(keyword, e)| ==> Clean(EndpointWords(keyword, e)[i])
  {
    if e.port.Some? { DigitsAreClean(e.port.value); }
  }

  predicate CleanWords(words: seq<string>) { forall i :: 0 <= i < |words| ==> Clean(words[i]) }

  lemma JoinClean(a: seq<string>, b: seq<string>)
    requires CleanWords(a) && CleanWords(b)
    ensures CleanWords(a + b)
  {}

  lemma NameIsClean(s: string)
    requires ValidInterface(s) || ValidRuleId(s)
    ensures Clean(s)
  {}

  lemma EndpointsAreClean(r: Rule)
    requires Clean(r.source.network) && Clean(r.destination.network)
    ensures CleanWords(SourceWords(r))
  {
    hide EndpointWords;
    assert Clean("from") && Clean("to") && Clean("keep") && Clean("state");
    EndpointWordsAreClean("from", r.source);
    EndpointWordsAreClean("to", r.destination);
    JoinClean(EndpointWords("to", r.destination), StateWords(r));
    JoinClean(EndpointWords("from", r.source), DestinationWords(r));
  }

  lemma WordsOfEnums(r: Rule)
    ensures Clean(ActionWord(r.action)) && Clean(DirectionWord(r.direction)) && Clean(FamilyWord(r.family))
    ensures Clean(ProtocolWord(r.protocol))
    ensures Clean("proto") && Clean("on") && Clean("quick") && Clean("log")
  {}

  lemma RuleWordsAreClean(r: Rule)
    requires Clean(r.source.network) && Clean(r.destination.network) && ValidInterface(r.interface)
    ensures CleanWords(RuleWords(r))
  {
    hide ValidInterface, SourceWords, Clean, ActionWord, DirectionWord, FamilyWord, ProtocolWord;
    EndpointsAreClean(r);
    WordsOfEnums(r);
    NameIsClean(r.interface);
    assert CleanWords(ProtocolWords(r));
    assert CleanWords(FamilyWords(r));
    assert CleanWords(InterfaceWords(r));
    assert CleanWords(QuickWords(r));
    assert CleanWords(LogWords(r));
    assert CleanWords(DirectionWords(r));
  }

  lemma {:induction false} UnwordsIsOneLine(words: seq<string>)
    requires words != [] && CleanWords(words)
    ensures '\n' !in Unwords(words)
    decreases |words|
  {
    if |words| <= 1 {
    } else {
      UnwordsIsOneLine(words[1..]);
    }
  }

  lemma RuleHasWords(r: Rule)
    ensures RuleWords(r) != []
  {}

  lemma StatementReads(r: Rule)
    requires Clean(r.source.network) && Clean(r.destination.network) && ValidInterface(r.interface)
    ensures '\n' !in Statement(r) && ParseStatement(Words(Statement(r))) == Some(ClauseOf(r))
  {
    hide ValidInterface, RuleWords, ParseStatement, Words, Unwords;
    RuleWordsAreClean(r);
    RuleHasWords(r);
    UnwordsIsOneLine(RuleWords(r));
    WordsOfUnwords(RuleWords(r));
    StatementBack(r);
  }

  function CommentTail(id: string, description: string): string {
    id + if description == [] then [] else [':', ' '] + description
  }

  lemma RuleCommentIs(r: Rule)
    ensures RuleComment(r) == RULE_LABEL + CommentTail(r.id, r.description)
  {}

  lemma ParseCommentBack(id: string, description: string)
    requires ':' !in id
    ensures ParseComment(CommentTail(id, description)) == Some((id, description))
  {
    var tail := CommentTail(id, description);
    if description == [] {
      assert tail == id;
    } else {
      FindInPrefix(id, [' '] + description, ':');
      assert tail == id + [':'] + ([' '] + description);
      assert tail[..|id|] == id && tail[|id| + 2..] == description;
    }
  }

  lemma CommentReads(r: Rule)
    requires ValidRuleId(r.id)
    ensures Text.After(RuleComment(r), RULE_LABEL).Some?
    ensures ParseComment(Text.After(RuleComment(r), RULE_LABEL).value) == Some((r.id, r.description))
  {
    hide ParseComment, Text.After;
    var tail := CommentTail(r.id, r.description);
    AfterPrefix(RULE_LABEL, tail);
    RuleCommentIs(r);
    assert ':' !in r.id;
    ParseCommentBack(r.id, r.description);
  }

  // A comment on an enabled rule is not taken for one on a disabled rule.
  lemma CommentsDiffer(r: Rule)
    ensures Text.After(RuleComment(r), DISABLED_LABEL).None?
  {
    assert RuleComment(r)[2] == 'r' && DISABLED_LABEL[2] == 'd';
    assert |RuleComment(r)| >= |DISABLED_LABEL| ==> RuleComment(r)[..|DISABLED_LABEL|][2] == 'r';
  }

  lemma ItemReads(r: Rule, rest: seq<string>)
    requires ValidRuleId(r.id) && ValidInterface(r.interface) && CleanRule(r) && ParseItems(rest).Some?
    ensures ParseItems(RuleLines(r) + rest) == Some([ItemOf(r)] + ParseItems(rest).value)
  {
    hide Statement, RuleComment, ParseComment, ValidInterface, ValidRuleId, Words, ParseStatement;
    var lines := RuleLines(r) + rest;
    if r.enabled {
      CommentReads(r);
      CommentsDiffer(r);
      StatementReads(r);
      assert lines[3..] == rest && lines[0] == "" && lines[1] == RuleComment(r) && lines[2] == Statement(r);
    } else {
      AfterPrefix(DISABLED_LABEL, r.id);
      assert lines[2..] == rest && lines[0] == "" && lines[1] == DISABLED_LABEL + r.id;
    }
  }

  predicate ValidNames(r: Rule) { ValidRuleId(r.id) && ValidInterface(r.interface) && ValidDescription(r.description) }

  lemma {:induction false} ItemsRead(rules: seq<Rule>)
    requires CleanRules(rules) && forall i :: 0 <= i < |rules| ==> ValidNames(rules[i])
    ensures ParseItems(AllRuleLines(rules)) == Some(Items(rules))
    decreases |rules|
  {
    hide RuleLines, ValidRuleId, ValidInterface, ValidDescription, CleanRule, ItemOf;
    if rules == [] {
    } else {
      assert ValidNames(rules[0]);
      ItemsRead(rules[1..]);
      ItemReads(rules[0], AllRuleLines(rules[1..]));
      assert Items(rules) == [ItemOf(rules[0])] + Items(rules[1..]);
    }
  }

  lemma RuleLinesAreSingle(r: Rule)
    requires CleanRule(r) && ValidNames(r)
    ensures SingleLines(RuleLines(r))
  {
    hide Statement, ValidInterface;
    if r.enabled { StatementReads(r); }
    assert '\n' !in RULE_LABEL && '\n' !in DISABLED_LABEL;
    assert '\n' !in r.id && '\n' !in r.description;
  }

  lemma {:induction false} AllRuleLinesAreSingle(rules: seq<Rule>)
    requires CleanRules(rules) && forall i :: 0 <= i < |rules| ==> ValidNames(rules[i])
    ensures SingleLines(AllRuleLines(rules))
    decreases |rules|
  {
    hide RuleLines, ValidNames, CleanRule;
    if rules == [] {
    } else {
      RuleLinesAreSingle(rules[0]);
      AllRuleLinesAreSingle(rules[1..]);
    }
  }

  lemma PreambleIsSingle(revision: nat)
    ensures SingleLines(Preamble(revision))
  {
    hide Print;
    PrintIsDecimal(revision);
    DigitsAreOneLine(Print(revision));
    assert '\n' !in REVISION_LABEL;
    StaysOneLine(REVISION_LABEL, Print(revision));
    assert '\n' !in GENERATED;
  }

  lemma LinesRead(rs: RuleSet)
    requires CleanRules(rs.rules) && forall i :: 0 <= i < |rs.rules| ==> ValidNames(rs.rules[i])
    ensures ParseLines(RenderedLines(rs)) == Some(Parsed(rs.revision, Items(rs.rules)))
    ensures SingleLines(RenderedLines(rs))
  {
    hide ParseItems, AllRuleLines, ValidNames, CleanRule, ParseUint64;
    var lines := RenderedLines(rs);
    ItemsRead(rs.rules);
    AllRuleLinesAreSingle(rs.rules);
    PreambleIsSingle(rs.revision);
    ParsePrint(rs.revision);
    AfterPrefix(REVISION_LABEL, Print(rs.revision));
    assert lines[7..] == AllRuleLines(rs.rules) && lines[..7] == Preamble(rs.revision);
    assert lines[1] == Preamble(rs.revision)[1];
  }

  // ---------- what the parser returns is clean ----------

  lemma CleanSuffix(words: seq<string>, k: nat)
    requires CleanWords(words) && k <= |words|
    ensures CleanWords(words[k..])
  {}

  lemma OptionsStayClean(words: seq<string>)
    requires CleanWords(words)
    ensures CleanWords(TakeDirection(words).1) && CleanWords(TakeFlag(words, "log").1)
    ensures CleanWords(TakeFlag(words, "quick").1) && CleanWords(TakeInterface(words).1)
    ensures CleanWords(TakeFamily(words).1)
    ensures TakeProtocol(words).Some? ==> CleanWords(TakeProtocol(words).value.1)
  {
    hide CleanWords;
    if |words| >= 1 { CleanSuffix(words, 1); }
    if |words| >= 2 { CleanSuffix(words, 2); }
  }

  lemma EndpointStaysClean(words: seq<string>, keyword: string)
    requires CleanWords(words) && TakeEndpoint(words, keyword).Some?
    ensures Clean(TakeEndpoint(words, keyword).value.0.network) && CleanWords(TakeEndpoint(words, keyword).value.1)
  {}

  lemma ClauseIsClean(action: Action, words: seq<string>)
    requires CleanWords(words) && ParseOptions(action, words).Some?
    ensures var c := ParseOptions(action, words).value; Clean(c.source.network) && Clean(c.destination.network)
  {
    hide CleanWords, Clean, TakeDirection, TakeFlag, TakeInterface, TakeFamily, TakeProtocol, TakeEndpoint;
    var a := TakeDirection(words).1;
    var b := TakeFlag(a, "log").1;
    var c := TakeFlag(b, "quick").1;
    var d := TakeInterface(c).1;
    var e := TakeFamily(d).1;
    OptionsStayClean(words);
    OptionsStayClean(a);
    OptionsStayClean(b);
    OptionsStayClean(c);
    OptionsStayClean(d);
    OptionsStayClean(e);
    var f := TakeProtocol(e).value.1;
    EndpointStaysClean(f, "from");
    EndpointStaysClean(TakeEndpoint(f, "from").value.1, "to");
  }

  predicate CleanItem(x: Item) { x.Shown? ==> Clean(x.clause.source.network) && Clean(x.clause.destination.network) }

  lemma ShownIsClean(lines: seq<string>)
    requires |lines| >= 2 && SingleLines(lines) && ParseShown(lines).Some?
    ensures CleanItem(ParseShown(lines).value)
  {
    hide Clean, ParseOptions, Words, ParseComment;
    var words := Words(lines[2]);
    WordsAreClean(lines[2]);
    assert CleanWords(words);
    CleanSuffix(words, 1);
    ClauseIsClean(if words[0] == "block" then Block else Pass, words[1..]);
  }

  lemma DisabledIsClean(id: string)
    ensures CleanItem(Disabled(id))
  {}

  lemma {:induction false} ItemsAreClean(lines: seq<string>)
    requires SingleLines(lines) && ParseItems(lines).Some?
    ensures forall i :: 0 <= i < |ParseItems(lines).value| ==> CleanItem(ParseItems(lines).value[i])
    decreases |lines|
  {
    hide CleanItem, ParseShown, Text.After;
    if lines == [] {
    } else {
      if Text.After(lines[1], DISABLED_LABEL).Some? {
        ItemsAreClean(lines[2..]);
        DisabledIsClean(Text.After(lines[1], DISABLED_LABEL).value);
      } else {
        ShownIsClean(lines);
        ItemsAreClean(lines[3..]);
      }
    }
  }

  // ---------- text and rule set ----------

  lemma ValidHasNames(p: AddressParser, rs: RuleSet)
    requires ValidRuleSet(p, rs)
    ensures forall i :: 0 <= i < |rs.rules| ==> ValidNames(rs.rules[i])
  {}

  lemma ParsedItems(lines: seq<string>)
    requires SingleLines(lines) && ParseLines(lines).Some?
    ensures forall i :: 0 <= i < |ParseLines(lines).value.items| ==> CleanItem(ParseLines(lines).value.items[i])
  {
    hide CleanItem, ParseItems, Preamble;
    assert SingleLines(lines[7..]);
    ItemsAreClean(lines[7..]);
  }

  /** Parsing the text of a valid rule set recovers its revision, its rules in order and every field of the enabled ones
      if and only if no network of an enabled rule contains a space or a newline. */
  lemma RenderingIsInvertible(p: AddressParser, rs: RuleSet)
    requires ValidRuleSet(p, rs)
    ensures Parse(Rendered(rs)) == Some(Parsed(rs.revision, Items(rs.rules))) <==> CleanRules(rs.rules)
  {
    hide ValidRuleSet, Lines, ValidNames, ParseLines, Join, RenderedLines, Clean;
    ValidHasNames(p, rs);
    if CleanRules(rs.rules) {
      LinesRead(rs);
      LinesOfJoin(RenderedLines(rs));
    }
    if Parse(Rendered(rs)) == Some(Parsed(rs.revision, Items(rs.rules))) {
      JoinOfLines(Rendered(rs));
      var lines := Lines(Rendered(rs)).value;
      ParsedItems(lines);
      forall i | 0 <= i < |rs.rules| ensures CleanRule(rs.rules[i]) {
        assert CleanItem(Items(rs.rules)[i]);
      }
    }
  }

  predicate NoNuls(rs: RuleSet) {
    forall i :: 0 <= i < |rs.rules| ==>
      '\0' !in rs.rules[i].source.network && '\0' !in rs.rules[i].destination.network
  }

  /** Without NUL bytes in its networks a valid rule set is recovered from its text. */
  lemma NoNulIsEnough(p: AddressParser, rs: RuleSet)
    requires Numeric(p) && ValidRuleSet(p, rs) && NoNuls(rs)
    ensures Parse(Rendered(rs)) == Some(Parsed(rs.revision, Items(rs.rules)))
  {
    hide ParseNetwork, Clean, Parse, Rendered, Items;
    forall i | 0 <= i < |rs.rules| ensures CleanRule(rs.rules[i]) {
      var r := rs.rules[i];
      assert ValidRule(p, r);
      NetworkIsClean(p, r.source.network);
      NetworkIsClean(p, r.destination.network);
    }
    RenderingIsInvertible(p, rs);
  }

  // ---------- NUL bytes ----------

  lemma {:induction false} UnwordsMerge(before: seq<string>, x: string, y: string, rest: seq<string>)
    ensures Unwords(before + [x, y] + rest) == Unwords(before + [x + [' '] + y] + rest)
    decreases |before|
  {
    var two := before + [x, y] + rest;
    var one := before + [x + [' '] + y] + rest;
    if before == [] {
      assert two[1..] == [y] + rest && two[1..][1..] == rest && one[1..] == rest;
      assert two[1..][0] == y;
    } else {
      UnwordsMerge(before[1..], x, y, rest);
      assert two[1..] == before[1..] + [x, y] + rest && one[1..] == before[1..] + [x + [' '] + y] + rest;
    }
  }

  function NulRule(network: string, port: Option<Port>): Rule {
    Rule("a", "", Block, AnyDirection, AnyFamily, "", Tcp, Endpoint(network, port), Endpoint("any", None),
         false, false, true)
  }

  lemma NulNetwork(p: AddressParser, address: string, rest: string)
    requires p.accepts4(address) && address != [] && '\0' !in address && '/' !in address && '/' !in rest
    ensures ParseNetwork(p, address + ['\0'] + rest) == Some(Inet)
  {
    var network := address + ['\0'] + rest;
    assert '/' !in network;
    FindInPrefix(address, rest, '\0');
    assert network[..Find(network, '\0')] == address;
    assert network[..|network|] == network;
    assert network != "any" by {
      assert network[|address|] == '\0';
    }
  }

  lemma NulRuleIsValid(p: AddressParser, network: string, port: Option<Port>)
    requires ParseNetwork(p, network) == Some(Inet)
    ensures ValidRuleSet(p, RuleSet(1, [NulRule(network, port)]))
  {
    var r := NulRule(network, port);
    assert ParseNetwork(p, "any") == Some(AnyFamily);
    assert Fits(Inet, r.family);
    assert ValidRule(p, r);
  }

  lemma LongNetwork(address: string)
    ensures address + ['\0'] + [] + [' '] + "port" + [' '] + "5" == address + ['\0'] + " port 5"
  {}

  lemma NulRuleWords(network: string, port: Option<Port>)
    ensures RuleWords(NulRule(network, port))
         == ["block", "proto", "tcp"] + EndpointWords("from", Endpoint(network, port)) + ["to", "any"]
  {
    hide Print;
  }

  lemma NulWords(network: string)
    ensures RuleWords(NulRule(network, Some(5)))
         == ["block", "proto", "tcp", "from"] + [network, "port"] + ["5", "to", "any"]
    ensures RuleWords(NulRule(network, None)) == ["block", "proto", "tcp", "from"] + [network] + ["to", "any"]
  {
    hide RuleWords;
    NulRuleWords(network, Some(5));
    NulRuleWords(network, None);
    assert Print(5) == "5";
  }

  lemma SameStatement(network: string)
    ensures Statement(NulRule(network, Some(5))) == Statement(NulRule(network + [' '] + "port" + [' '] + "5", None))
  {
    hide RuleWords, Unwords;
    var before := ["block", "proto", "tcp", "from"];
    var merged := network + [' '] + "port";
    NulWords(network);
    NulWords(merged + [' '] + "5");
    UnwordsMerge(before, network, "port", ["5", "to", "any"]);
    assert before + [merged] + ["5", "to", "any"] == before + [merged, "5"] + ["to", "any"];
    UnwordsMerge(before, merged, "5", ["to", "any"]);
  }

  lemma SameLines(x: Rule, y: Rule)
    requires x.enabled && y.enabled && x.id == y.id && x.description == y.description && Statement(x) == Statement(y)
    ensures Rendered(RuleSet(1, [x])) == Rendered(RuleSet(1, [y]))
  {
    hide Statement;
    assert RuleLines(x) == RuleLines(y);
    assert [x][1..] == [] && [y][1..] == [];
  }

  /** With a NUL in a network, which the address check does not look past, two different valid rule sets can have the
      same text. */
  lemma NulIsAmbiguous(p: AddressParser, address: string) returns (a: RuleSet, b: RuleSet)
    requires p.accepts4(address) && address != [] && '\0' !in address && '/' !in address
    ensures ValidRuleSet(p, a) && ValidRuleSet(p, b) && Items(a.rules) != Items(b.rules) && Rendered(a) == Rendered(b)
  {
    hide ParseNetwork, Statement, ValidRuleSet, Rendered, CString;
    var short := address + ['\0'] + [];
    var tail := " port 5";
    var long := address + ['\0'] + tail;
    a, b := RuleSet(1, [NulRule(short, Some(5))]), RuleSet(1, [NulRule(long, None)]);
    NulNetwork(p, address, []);
    NulNetwork(p, address, tail);
    NulRuleIsValid(p, short, Some(5));
    NulRuleIsValid(p, long, None);
    SameStatement(short);
    LongNetwork(address);
    assert Items(a.rules)[0].clause.source.port != Items(b.rules)[0].clause.source.port;
    SameLines(a.rules[0], b.rules[0]);
  }

  // ---------- active lines ----------

  predicate Active(line: string) { line != [] && line[0] != '#' }

  function ActiveLines(lines: seq<string>): seq<string> {
    if lines == [] then []
    else (if Active(lines[0]) then [lines[0]] else []) + ActiveLines(lines[1..])
  }

  function EnabledStatements(rules: seq<Rule>): seq<string> {
    if rules == [] then []
    else (if rules[0].enabled then [Statement(rules[0])] else []) + EnabledStatements(rules[1..])
  }

  lemma {:induction false} ActiveAppend(a: seq<string>, b: seq<string>)
    ensures ActiveLines(a + b) == ActiveLines(a) + ActiveLines(b)
    decreases |a|
  {
    hide Active;
    if a == [] {
      assert a + b == b;
    } else {
      ActiveAppend(a[1..], b);
      assert (a + b)[1..] == a[1..] + b;
    }
  }

  lemma StatementIsActive(r: Rule)
    ensures Active(Statement(r))
  {
    var w := ActionWord(r.action);
    assert RuleWords(r)[0] == w && |w| > 0 && w[0] != '#';
    var s := Statement(r);
    assert s == w || s == w + [' '] + Unwords(RuleWords(r)[1..]);
  }

  lemma ActiveOfRule(r: Rule)
    ensures ActiveLines(RuleLines(r)) == if r.enabled then [Statement(r)] else []
  {
    hide Statement;
    StatementIsActive(r);
    var l := RuleLines(r);
    assert RuleComment(r)[0] == '#' && (DISABLED_LABEL + r.id)[0] == '#';
    assert ActiveLines([]) == [];
    if r.enabled {
      assert l[1..] == [RuleComment(r), Statement(r)] && l[1..][1..] == [Statement(r)] && l[1..][1..][1..] == [];
      assert ActiveLines(l[1..][1..]) == [Statement(r)];
      assert ActiveLines(l[1..]) == [Statement(r)];
    } else {
      assert l[1..] == [DISABLED_LABEL + r.id] && l[1..][1..] == [];
      assert ActiveLines(l[1..]) == [];
    }
  }

  lemma {:induction false} ActiveOfRules(rules: seq<Rule>)
    ensures ActiveLines(AllRuleLines(rules)) == EnabledStatements(rules)
    decreases |rules|
  {
    hide Statement, RuleLines;
    if rules == [] {
    } else {
      ActiveOfRules(rules[1..]);
      ActiveOfRule(rules[0]);
      ActiveAppend(RuleLines(rules[0]), AllRuleLines(rules[1..]));
    }
  }

  lemma ActiveOfPreamble(revision: nat)
    ensures ActiveLines(Preamble(revision)) == ["set block-policy drop", "set skip on lo", "block log all"]
  {
    hide Print;
    var l := Preamble(revision);
    assert ActiveLines(l[7..]) == [];
    assert l[6..][1..] == l[7..] && l[5..][1..] == l[6..] && l[4..][1..] == l[5..] && l[3..][1..] == l[4..];
    assert l[2..][1..] == l[3..] && l[1..][1..] == l[2..];
    assert ActiveLines(l[6..]) == l[6..7];
    assert ActiveLines(l[5..]) == l[6..7];
    assert ActiveLines(l[4..]) == [l[4]] + l[6..7];
    assert ActiveLines(l[3..]) == [l[3], l[4]] + l[6..7];
    assert ActiveLines(l[2..]) == [l[3], l[4]] + l[6..7];
    assert l[1][0] == '#';
    assert ActiveLines(l[1..]) == [l[3], l[4]] + l[6..7];
  }

  /** What PF is told: three fixed statements and then exactly one statement per enabled rule, in order.  Ids,
      descriptions and disabled rules add nothing. */
  lemma NothingElseIsActive(p: AddressParser, rs: RuleSet)
    requires ValidRuleSet(p, rs) && CleanRules(rs.rules)
    ensures Lines(Rendered(rs)).Some?
    ensures ActiveLines(Lines(Rendered(rs)).value)
            == ["set block-policy drop", "set skip on lo", "block log all"] + EnabledStatements(rs.rules)
  {
    hide ValidRuleSet, Lines, ValidNames, ParseLines, Join, CleanRules, Preamble, AllRuleLines, ActiveLines,
         EnabledStatements;
    ValidHasNames(p, rs);
    LinesRead(rs);
    LinesOfJoin(RenderedLines(rs));
    ActiveOfPreamble(rs.revision);
    ActiveOfRules(rs.rules);
    ActiveAppend(Preamble(rs.revision), AllRuleLines(rs.rules));
  }
}
