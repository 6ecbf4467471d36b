/**
 What rendered PF text means: an evaluator of configuration lines for one packet, in PF's terms, and the decision it
 takes for the text of a rule set.

 The evaluator knows nothing of the renderer.  It reads a statement word by word; the last statement that matches a
 packet decides, one with `quick` at once, and without any the packet passes.  Packets of established states, which PF
 does not look up in the rules, are not part of this model.
 */
module PfMeaning {
  import opened Basics
  import opened Text
  import opened PfRules
  import opened PfRenderer
  import opened PfReader

  // A packet without a state; protocols by their assigned numbers.
  datatype Packet = Packet(inbound: bool, interface: string, inet6: bool, protocol: nat, source: string,
                           destination: string, sourcePort: Option<Port>, destinationPort: Option<Port>)

  // What the system knows: the addresses of a network and the interfaces of a group.
  datatype System = System(covers: (string, string) -> bool, member: (string, string) -> bool)

  datatype Decision = Passed | Dropped | Returned

  predicate Within(sys: System, address: string, network: string) { network == "any" || sys.covers(network, address) }

  predicate OnInterface(sys: System, interface: string, name: string) {
    interface == name || sys.member(name, interface)
  }

  // ---------- the evaluator ----------

  datatype Keyword =
    | In | Out | Log | Quick | On | Inet4Only | Inet6Only | Proto | From | To | PortOf | Keep | All | Unknown

  function KeywordOf(w: string): Keyword {
    if w == "in" then In
    else if w == "out" then Out
    else if w == "log" then Log
    else if w == "quick" then Quick
    else if w == "on" then On
    else if w == "inet" then Inet4Only
    else if w == "inet6" then Inet6Only
    else if w == "proto" then Proto
    else if w == "from" then From
    else if w == "to" then To
    else if w == "port" then PortOf
    else if w == "keep" then Keep
    else if w == "all" then All
    else Unknown
  }

  predicate HasProtocol(p: Packet, name: string) {
    || (name == "icmp" && p.protocol == 1)
    || (name == "tcp" && p.protocol == 6)
    || (name == "udp" && p.protocol == 17)
    || (name == "icmp6" && p.protocol == 58)
  }

  predicate HasPort(port: Option<Port>, numeral: string) { port.Some? && ParseUint64(numeral) == Some(port.value) }

  // Whether a keyword with its value holds of a packet; a port belongs to the end named before it.
  predicate Holds(k: Keyword, value: string, atSource: bool, p: Packet, sys: System) {
    match k
    case In => p.inbound
    case Out => !p.inbound
    case On => OnInterface(sys, value, p.interface)
    case Inet4Only => !p.inet6
    case Inet6Only => p.inet6
    case Proto => HasProtocol(p, value)
    case From => Within(sys, p.source, value)
    case To => Within(sys, p.destination, value)
    case PortOf => HasPort(if atSource then p.sourcePort else p.destinationPort, value)
    case Log => true
    case Quick => true
    case Keep => true
    case All => true
    case Unknown => false
  }

  predicate TakesValue(k: Keyword) { k in {On, Proto, From, To, PortOf, Keep} }

  // What a statement says after its action.
  datatype Reading = Reading(matches: bool, quick: bool)

  function Read(words: seq<string>, atSource: bool, p: Packet, sys: System): Reading
    decreases |words|
  {
    if words == [] then Reading(true, false)
    else
      var k := KeywordOf(words[0]);
      if TakesValue(k) && |words| == 1 then Reading(false, false)
      else
        var n := if TakesValue(k) then 2 else 1;
        var rest := Read(words[n..], if k in {From, To} then k == From else atSource, p, sys);
        Reading(Holds(k, words[n - 1], atSource, p, sys) && rest.matches, k == Quick || rest.quick)
  }

  // Whether a line leaves the packet's interface unfiltered.
  predicate Skips(line: string, p: Packet, sys: System) {
    var w := Words(line);
    |w| == 4 && w[0] == "set" && w[1] == "skip" && w[2] == "on" && OnInterface(sys, w[3], p.interface)
  }

  function Blocked(lines: seq<string>): Decision { if "set block-policy return" in lines then Returned else Dropped }

  // The search through the lines, with what has been decided so far.
  function Search(lines: seq<string>, p: Packet, sys: System, blocked: Decision, current: Decision): Decision {
    if lines == [] then current
    else
      var w := Words(lines[0]);
      var reading := Read(w[1..], true, p, sys);
      if w[0] !in {"block", "pass"} || !reading.matches then Search(lines[1..], p, sys, blocked, current)
      else
        var decision := if w[0] == "pass" then Passed else blocked;
        if reading.quick then decision else Search(lines[1..], p, sys, blocked, decision)
  }

  ghost function Evaluate(lines: seq<string>, p: Packet, sys: System): Decision {
    if exists i :: 0 <= i < |lines| && Skips(lines[i], p, sys) then Passed
    else Search(lines, p, sys, Blocked(lines), Passed)
  }

  // ---------- rules ----------

  predicate PortIs(port: Option<Port>, required: Option<Port>) { required.Some? ==> port == required }

  function ProtocolNumber(p: Protocol): nat {
    match p case Icmp => 1 case Tcp => 6 case Udp => 17 case Icmp6 => 58 case AnyProtocol => 0
  }

  // Whether a packet is one the rule is about.
  predicate Applies(r: Rule, p: Packet, sys: System) {
    && (r.direction == Inbound ==> p.inbound) && (r.direction == Outbound ==> !p.inbound)
    && (r.interface != [] ==> OnInterface(sys, r.interface, p.interface))
    && (r.family == Inet ==> !p.inet6) && (r.family == Inet6 ==> p.inet6)
    && (r.protocol != AnyProtocol ==> p.protocol == ProtocolNumber(r.protocol))
    && Within(sys, p.source, r.source.network) && PortIs(p.sourcePort, r.source.port)
    && Within(sys, p.destination, r.destination.network) && PortIs(p.destinationPort, r.destination.port)
  }

  predicate Counts(r: Rule, p: Packet, sys: System) { r.enabled && Applies(r, p, sys) }

  // The enabled rule that decides about a packet: the first quick one that applies, or the last that applies.
  ghost predicate Decides(rules: seq<Rule>, i: nat, p: Packet, sys: System)
    requires i < |rules|
  {
    && Counts(rules[i], p, sys)
    && (forall j :: 0 <= j < i && Counts(rules[j], p, sys) ==> !rules[j].quick)
    && (rules[i].quick || forall j :: i < j < |rules| ==> !Counts(rules[j], p, sys))
  }

  function RuleDecision(r: Rule): Decision { if r.action == Pass then Passed else Dropped }

  // ---------- a statement means its rule ----------

  lemma FlagKeywords()
    ensures KeywordOf("in") == In && KeywordOf("out") == Out && KeywordOf("log") == Log && KeywordOf("quick") == Quick
    ensures KeywordOf("inet") == Inet4Only && KeywordOf("inet6") == Inet6Only && KeywordOf("all") == All
  {
    assert |"in"| == 2 && |"out"| == 3 && |"log"| == 3 && |"quick"| == 5 && |"on"| == 2 && |"inet"| == 4;
    assert |"inet6"| == 5 && |"proto"| == 5 && |"from"| == 4 && |"to"| == 2 && |"port"| == 4 && |"keep"| == 4;
    assert "out"[0] == 'o' && "log"[0] == 'l' && "quick"[0] == 'q' && "inet"[0] == 'i' && "inet6"[0] == 'i';
    assert |"all"| == 3 && "all"[0] == 'a';
  }

  lemma ValueKeywords()
    ensures KeywordOf("on") == On && KeywordOf("proto") == Proto && KeywordOf("from") == From
    ensures KeywordOf("to") == To && KeywordOf("port") == PortOf && KeywordOf("keep") == Keep
  {
    assert |"in"| == 2 && |"out"| == 3 && |"log"| == 3 && |"quick"| == 5 && |"on"| == 2 && |"inet"| == 4;
    assert |"inet6"| == 5 && |"proto"| == 5 && |"from"| == 4 && |"to"| == 2 && |"port"| == 4 && |"keep"| == 4;
    assert "in"[0] == 'i' && "quick"[0] == 'q' && "on"[0] == 'o' && "inet"[0] == 'i' && "inet6"[0] == 'i';
    assert "proto"[0] == 'p' && "from"[0] == 'f' && "to"[0] == 't' && "port"[0] == 'p' && "keep"[0] == 'k';
  }

  lemma Keywords()
    ensures KeywordOf("in") == In && KeywordOf("out") == Out && KeywordOf("log") == Log && KeywordOf("quick") == Quick
    ensures KeywordOf("on") == On && KeywordOf("inet") == Inet4Only && KeywordOf("inet6") == Inet6Only
    ensures KeywordOf("proto") == Proto && KeywordOf("from") == From && KeywordOf("to") == To
    ensures KeywordOf("port") == PortOf && KeywordOf("keep") == Keep && KeywordOf("all") == All
  {
    hide KeywordOf;
    FlagKeywords();
    ValueKeywords();
  }

  lemma ReadFlag(w: string, rest: seq<string>, atSource: bool, p: Packet, sys: System)
    requires !TakesValue(KeywordOf(w))
    ensures var k, more := KeywordOf(w), Read(rest, atSource, p, sys);
            Read([w] + rest, atSource, p, sys)
            == Reading(Holds(k, w, atSource, p, sys) && more.matches, k == Quick || more.quick)
  {
    assert ([w] + rest)[1..] == rest;
  }

  lemma ReadPair(w: string, value: string, rest: seq<string>, atSource: bool, p: Packet, sys: System)
    requires TakesValue(KeywordOf(w))
    ensures var k := KeywordOf(w);
            var more := Read(rest, if k in {From, To} then k == From else atSource, p, sys);
            Read([w, value] + rest, atSource, p, sys)
            == Reading(Holds(k, value, atSource, p, sys) && more.matches, more.quick)
  {
    assert ([w, value] + rest)[2..] == rest;
  }

  lemma ReadEndpoint(keyword: string, e: Endpoint, rest: seq<string>, atSource: bool, p: Packet, sys: System)
    requires KeywordOf(keyword) in {From, To}
    ensures var here := KeywordOf(keyword) == From;
            var more := Read(rest, here, p, sys);
            Read(EndpointWords(keyword, e) + rest, atSource, p, sys)
            == Reading(Within(sys, if here then p.source else p.destination, e.network)
                       && PortIs(if here then p.sourcePort else p.destinationPort, e.port) && more.matches, more.quick)
  {
    hide KeywordOf, Within, ParseUint64, Print;
    Keywords();
    var here := KeywordOf(keyword) == From;
    match e.port
    case None =>
      assert EndpointWords(keyword, e) + rest == [keyword, e.network] + rest;
      ReadPair(keyword, e.network, rest, atSource, p, sys);
    case Some(n) =>
      ParsePrint(n);
      assert EndpointWords(keyword, e) + rest == [keyword, e.network] + (["port", Print(n)] + rest);
      ReadPair(keyword, e.network, ["port", Print(n)] + rest, atSource, p, sys);
      ReadPair("port", Print(n), rest, here, p, sys);
  }

  predicate EndsApply(r: Rule, p: Packet, sys: System) {
    && Within(sys, p.source, r.source.network) && PortIs(p.sourcePort, r.source.port)
    && Within(sys, p.destination, r.destination.network) && PortIs(p.destinationPort, r.destination.port)
  }

  lemma ReadEnds(r: Rule, p: Packet, sys: System)
    ensures Read(SourceWords(r), true, p, sys) == Reading(EndsApply(r, p, sys), false)
  {
    hide KeywordOf, Within, EndpointWords, PortIs;
    Keywords();
    ReadEndpoint("from", r.source, DestinationWords(r), true, p, sys);
    ReadEndpoint("to", r.destination, StateWords(r), true, p, sys);
    if r.action == Pass {
      assert ["keep", "state"] + [] == ["keep", "state"];
      ReadPair("keep", "state", [], false, p, sys);
    }
  }

  lemma ProtocolsAgree(p: Packet, protocol: Protocol)
    requires protocol != AnyProtocol
    ensures HasProtocol(p, ProtocolWord(protocol)) <==> p.protocol == ProtocolNumber(protocol)
  {
    DistinctProtocols();
  }

  lemma ReadProtocol(r: Rule, p: Packet, sys: System)
    ensures Read(ProtocolWords(r), true, p, sys)
            == Reading((r.protocol != AnyProtocol ==> p.protocol == ProtocolNumber(r.protocol)) && EndsApply(r, p, sys),
                       false)
  {
    hide KeywordOf, SourceWords, EndsApply, HasProtocol, ProtocolWord, ProtocolNumber, Read;
    Keywords();
    ReadEnds(r, p, sys);
    if r.protocol == AnyProtocol {
      assert ProtocolWords(r) == SourceWords(r);
    } else {
      ProtocolsAgree(p, r.protocol);
      ReadPair("proto", ProtocolWord(r.protocol), SourceWords(r), true, p, sys);
    }
  }

  predicate FamilyApplies(r: Rule, p: Packet, sys: System) {
    && (r.family == Inet ==> !p.inet6) && (r.family == Inet6 ==> p.inet6)
    && (r.protocol != AnyProtocol ==> p.protocol == ProtocolNumber(r.protocol)) && EndsApply(r, p, sys)
  }

  lemma ReadFamily(r: Rule, p: Packet, sys: System)
    ensures Read(FamilyWords(r), true, p, sys) == Reading(FamilyApplies(r, p, sys), false)
  {
    hide KeywordOf, ProtocolWords, EndsApply, ProtocolNumber, Read;
    Keywords();
    ReadProtocol(r, p, sys);
    if r.family == AnyFamily {
      assert FamilyWords(r) == ProtocolWords(r);
    } else {
      ReadFlag(FamilyWord(r.family), ProtocolWords(r), true, p, sys);
    }
  }

  predicate InterfaceApplies(r: Rule, p: Packet, sys: System) {
    (r.interface != [] ==> OnInterface(sys, r.interface, p.interface)) && FamilyApplies(r, p, sys)
  }

  lemma ReadInterface(r: Rule, p: Packet, sys: System)
    ensures Read(InterfaceWords(r), true, p, sys) == Reading(InterfaceApplies(r, p, sys), false)
  {
    hide KeywordOf, FamilyWords, FamilyApplies, OnInterface, Read;
    Keywords();
    ReadFamily(r, p, sys);
    if r.interface == [] {
      assert InterfaceWords(r) == FamilyWords(r);
    } else {
      ReadPair("on", r.interface, FamilyWords(r), true, p, sys);
    }
  }

  lemma ReadOptions(r: Rule, p: Packet, sys: System)
    ensures Read(LogWords(r), true, p, sys) == Reading(InterfaceApplies(r, p, sys), r.quick)
  {
    hide KeywordOf, InterfaceWords, InterfaceApplies, Read;
    Keywords();
    ReadInterface(r, p, sys);
    if r.quick {
      ReadFlag("quick", InterfaceWords(r), true, p, sys);
    } else {
      assert QuickWords(r) == InterfaceWords(r);
    }
    if r.log {
      ReadFlag("log", QuickWords(r), true, p, sys);
    } else {
      assert LogWords(r) == QuickWords(r);
    }
  }

  /** A rule's statement matches the packets the rule is about, and is `quick` when the rule is. */
  lemma StatementMeans(r: Rule, p: Packet, sys: System)
    ensures Read(DirectionWords(r), true, p, sys) == Reading(Applies(r, p, sys), r.quick)
  {
    hide KeywordOf, LogWords, Within, PortIs, OnInterface, ProtocolNumber, Read;
    Keywords();
    ReadOptions(r, p, sys);
    if r.direction == AnyDirection {
      assert DirectionWords(r) == LogWords(r);
    } else {
      ReadFlag(DirectionWord(r.direction), LogWords(r), true, p, sys);
    }
  }

  // ---------- the search through the rules ----------

  lemma StatementWords(r: Rule)
    requires Clean(r.source.network) && Clean(r.destination.network) && ValidInterface(r.interface)
    ensures Words(Statement(r)) == [if r.action == Pass then "pass" else "block"] + DirectionWords(r)
  {
    hide DirectionWords, Unwords, Words, ValidInterface;
    RuleWordsAreClean(r);
    RuleHasWords(r);
    WordsOfUnwords(RuleWords(r));
  }

  predicate Plain(rules: seq<Rule>) { forall i :: 0 <= i < |rules| ==> ValidNames(rules[i]) }

  // The decision the rules take, from the one taken so far.
  function RulesDecide(rules: seq<Rule>, p: Packet, sys: System, current: Decision): Decision {
    if rules == [] then current
    else if !Counts(rules[0], p, sys) then RulesDecide(rules[1..], p, sys, current)
    else if rules[0].quick then RuleDecision(rules[0])
    else RulesDecide(rules[1..], p, sys, RuleDecision(rules[0]))
  }

  lemma SearchStep(r: Rule, rest: seq<string>, p: Packet, sys: System, current: Decision)
    requires CleanRule(r) && ValidNames(r) && r.enabled
    ensures Search([Statement(r)] + rest, p, sys, Dropped, current)
            == if !Applies(r, p, sys) then Search(rest, p, sys, Dropped, current)
               else if r.quick then RuleDecision(r) else Search(rest, p, sys, Dropped, RuleDecision(r))
  {
    hide Statement, DirectionWords, Applies, Words, Read, Clean, ValidInterface, ValidRuleId, ValidDescription;
    StatementWords(r);
    StatementMeans(r, p, sys);
    assert Words(Statement(r))[1..] == DirectionWords(r);
    assert "pass"[0] != "block"[0];
    assert ([Statement(r)] + rest)[1..] == rest;
  }

  lemma SearchEnds(p: Packet, sys: System, current: Decision)
    ensures Search([], p, sys, Dropped, current) == current
  {}

  lemma {:induction false} SearchRules(rules: seq<Rule>, p: Packet, sys: System, current: Decision)
    requires CleanRules(rules) && Plain(rules)
    ensures Search(EnabledStatements(rules), p, sys, Dropped, current) == RulesDecide(rules, p, sys, current)
    decreases |rules|
  {
    hide Statement, Applies, Search, CleanRule, ValidNames;
    if rules == [] {
      SearchEnds(p, sys, current);
    } else {
      var r := rules[0];
      var rest := EnabledStatements(rules[1..]);
      if r.enabled { SearchStep(r, rest, p, sys, current); }
      SearchRules(rules[1..], p, sys, current);
      SearchRules(rules[1..], p, sys, RuleDecision(r));
      assert EnabledStatements(rules) == if r.enabled then [Statement(r)] + rest else rest;
    }
  }

  lemma {:induction false} Undecided(rules: seq<Rule>, p: Packet, sys: System, current: Decision)
    requires forall i :: 0 <= i < |rules| ==> !Counts(rules[i], p, sys)
    ensures RulesDecide(rules, p, sys, current) == current
    decreases |rules|
  {
    hide Counts;
    if rules == [] {
    } else {
      Undecided(rules[1..], p, sys, current);
    }
  }

  lemma {:induction false} DecidedBy(rules: seq<Rule>, i: nat, p: Packet, sys: System, current: Decision)
    requires i < |rules| && Decides(rules, i, p, sys)
    ensures RulesDecide(rules, p, sys, current) == RuleDecision(rules[i])
    decreases |rules|
  {
    hide Applies;
    var rest := rules[1..];
    assert forall j :: 0 <= j < |rest| ==> rest[j] == rules[j + 1];
    if i > 0 {
      assert Decides(rest, i - 1, p, sys);
      DecidedBy(rest, i - 1, p, sys, current);
      DecidedBy(rest, i - 1, p, sys, RuleDecision(rules[0]));
    } else if !rules[0].quick {
      Undecided(rest, p, sys, RuleDecision(rules[0]));
    }
  }

  // A rule decides whenever one counts.
  lemma {:induction false} SomeRuleDecides(rules: seq<Rule>, k: nat, p: Packet, sys: System) returns (i: nat)
    requires k < |rules| && Counts(rules[k], p, sys)
    ensures i < |rules| && Decides(rules, i, p, sys)
    decreases |rules|
  {
    hide Applies;
    var rest := rules[1..];
    assert forall j :: 0 <= j < |rest| ==> rest[j] == rules[j + 1];
    if Counts(rules[0], p, sys) && rules[0].quick {
      i := 0;
    } else if j: nat :| j < |rest| && Counts(rest[j], p, sys) {
      i := SomeRuleDecides(rest, j, p, sys);
      i := i + 1;
    } else {
      i := 0;
    }
  }

  lemma FirstWord(a: string, rest: string)
    requires ' ' !in a
    ensures Words(a + [' '] + rest) == [a] + Words(rest)
  {
    FindInPrefix(a, rest, ' ');
    assert (a + [' '] + rest)[..|a|] == a && (a + [' '] + rest)[|a| + 1..] == rest;
  }

  lemma OneWord(a: string)
    requires ' ' !in a
    ensures Words(a) == [a]
  {
    assert Find(a, ' ') == |a|;
  }

  lemma PolicyWords()
    ensures Words("set block-policy drop") == ["set", "block-policy", "drop"]
  {
    hide Words, Find;
    FirstWord("set", "block-policy drop");
    FirstWord("block-policy", "drop");
    OneWord("drop");
    assert "set" + [' '] + "block-policy drop" == "set block-policy drop";
    assert "block-policy" + [' '] + "drop" == "block-policy drop";
  }

  lemma SkipWords()
    ensures Words("set skip on lo") == ["set", "skip", "on", "lo"]
  {
    hide Words, Find;
    FirstWord("set", "skip on lo");
    FirstWord("skip", "on lo");
    FirstWord("on", "lo");
    OneWord("lo");
    assert "set" + [' '] + "skip on lo" == "set skip on lo";
    assert "skip" + [' '] + "on lo" == "skip on lo";
    assert "on" + [' '] + "lo" == "on lo";
  }

  lemma BlockWords()
    ensures Words("block log all") == ["block", "log", "all"]
  {
    hide Words, Find;
    FirstWord("block", "log all");
    FirstWord("log", "all");
    OneWord("all");
    assert "block" + [' '] + "log all" == "block log all";
    assert "log" + [' '] + "all" == "log all";
  }

  lemma DistinctActions()
    ensures "set" != "block" && "set" != "pass" && "block" != "pass"
  {
    assert "set"[0] == 's' && "block"[0] == 'b' && "pass"[0] == 'p';
  }

  lemma BlockReads(p: Packet, sys: System)
    ensures Read(["log", "all"], true, p, sys) == Reading(true, false)
  {
    hide KeywordOf;
    Keywords();
    ReadFlag("log", ["all"], true, p, sys);
    ReadFlag("all", [], true, p, sys);
    assert ["log"] + ["all"] == ["log", "all"] && ["all"] + [] == ["all"];
  }

  // Past the options, the statement that blocks everything leaves the decision to the rules.
  lemma SearchPreamble(rest: seq<string>, p: Packet, sys: System)
    ensures Search(["set block-policy drop", "set skip on lo", "block log all"] + rest, p, sys, Dropped, Passed)
            == Search(rest, p, sys, Dropped, Dropped)
  {
    hide Words, KeywordOf, Read;
    PolicyWords();
    SkipWords();
    BlockWords();
    DistinctActions();
    BlockReads(p, sys);
    var all := ["set block-policy drop", "set skip on lo", "block log all"] + rest;
    assert all[1..] == ["set skip on lo", "block log all"] + rest;
    assert all[1..][1..] == ["block log all"] + rest && all[1..][1..][1..] == rest;
    assert ["block", "log", "all"][1..] == ["log", "all"];
    assert Search(all, p, sys, Dropped, Passed) == Search(all[1..], p, sys, Dropped, Passed);
    assert Search(all[1..], p, sys, Dropped, Passed) == Search(all[1..][1..], p, sys, Dropped, Passed);
  }

  lemma SkipMeans(p: Packet, sys: System)
    ensures Skips("set skip on lo", p, sys) <==> OnInterface(sys, "lo", p.interface)
    ensures !Skips("set block-policy drop", p, sys) && !Skips("block log all", p, sys)
  {
    hide Words;
    PolicyWords();
    SkipWords();
    BlockWords();
  }

  lemma ReturnWords()
    ensures Words("set block-policy return")[0] == "set"
  {
    hide Words, Find;
    FirstWord("set", "block-policy return");
    assert "set" + [' '] + "block-policy return" == "set block-policy return";
  }

  lemma {:induction false} StatementsSkipNothing(rules: seq<Rule>, p: Packet, sys: System)
    requires CleanRules(rules) && Plain(rules)
    ensures forall i :: 0 <= i < |EnabledStatements(rules)| ==> !Skips(EnabledStatements(rules)[i], p, sys)
    ensures "set block-policy return" !in EnabledStatements(rules)
    decreases |rules|
  {
    hide Statement, DirectionWords, Words, ValidInterface, ValidRuleId, ValidDescription, Clean;
    if rules == [] {
    } else {
      StatementsSkipNothing(rules[1..], p, sys);
      if rules[0].enabled {
        StatementWords(rules[0]);
        DistinctActions();
        ReturnWords();
      }
    }
  }

  lemma NoReturn()
    ensures "set block-policy return" !in ["set block-policy drop", "set skip on lo", "block log all"]
  {
    assert |"set block-policy return"| == 23 && |"set block-policy drop"| == 21;
    assert |"set skip on lo"| == 14 && |"block log all"| == 13;
  }

  lemma ActiveDecide(rules: seq<Rule>, p: Packet, sys: System)
    requires CleanRules(rules) && Plain(rules)
    ensures Evaluate(["set block-policy drop", "set skip on lo", "block log all"] + EnabledStatements(rules), p, sys)
            == if OnInterface(sys, "lo", p.interface) then Passed else RulesDecide(rules, p, sys, Dropped)
  {
    hide Search, Skips, OnInterface, EnabledStatements, RulesDecide, CleanRules;
    var statements := EnabledStatements(rules);
    var lines := ["set block-policy drop", "set skip on lo", "block log all"] + statements;
    SkipMeans(p, sys);
    StatementsSkipNothing(rules, p, sys);
    NoReturn();
    SearchPreamble(statements, p, sys);
    SearchRules(rules, p, sys, Dropped);
    assert Skips(lines[1], p, sys) <==> OnInterface(sys, "lo", p.interface);
  }

  /**
   The text of a valid rule set, read by PF: nothing on loopback interfaces is filtered; of any other packet the first
   quick enabled rule that applies or the last that applies decides, and a packet to which none applies is dropped.
   */
  lemma RenderedTextDecides(parser: AddressParser, rs: RuleSet, p: Packet, sys: System)
    requires ValidRuleSet(parser, rs) && CleanRules(rs.rules)
    ensures Lines(Rendered(rs)).Some?
    ensures var decision := Evaluate(ActiveLines(Lines(Rendered(rs)).value), p, sys);
            if OnInterface(sys, "lo", p.interface) then decision == Passed
            else
              && (forall i: nat :: i < |rs.rules| && Decides(rs.rules, i, p, sys) ==>
                     decision == RuleDecision(rs.rules[i]))
              && ((forall r :: r in rs.rules ==> !Counts(r, p, sys)) ==> decision == Dropped)
  {
    hide ValidRuleSet, Lines, Rendered, ActiveLines, EnabledStatements, Evaluate, ValidNames, CleanRules, OnInterface,
         Counts, Decides;
    ValidHasNames(parser, rs);
    NothingElseIsActive(parser, rs);
    ActiveDecide(rs.rules, p, sys);
    forall i: nat | i < |rs.rules| && Decides(rs.rules, i, p, sys)
      ensures RulesDecide(rs.rules, p, sys, Dropped) == RuleDecision(rs.rules[i])
    {
      DecidedBy(rs.rules, i, p, sys, Dropped);
    }
    if forall r :: r in rs.rules ==> !Counts(r, p, sys) {
      Undecided(rs.rules, p, sys, Dropped);
    }
  }

  /** Outside loopback a packet passes exactly if the rule that decides about it is a pass rule. */
  lemma PassesExactly(parser: AddressParser, rs: RuleSet, p: Packet, sys: System)
    requires ValidRuleSet(parser, rs) && CleanRules(rs.rules) && !OnInterface(sys, "lo", p.interface)
    ensures Lines(Rendered(rs)).Some?
    ensures Evaluate(ActiveLines(Lines(Rendered(rs)).value), p, sys)
            == if exists i: nat :: i < |rs.rules| && Decides(rs.rules, i, p, sys) && rs.rules[i].action == Pass
               then Passed else Dropped
  {
    hide ValidRuleSet, Lines, Rendered, ActiveLines, Evaluate, CleanRules, OnInterface, Counts;
    RenderedTextDecides(parser, rs, p, sys);
    if k: nat :| k < |rs.rules| && Counts(rs.rules[k], p, sys) {
      var i := SomeRuleDecides(rs.rules, k, p, sys);
    }
  }
}
