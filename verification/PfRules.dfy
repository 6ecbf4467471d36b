/**
 The firewall rule model and its validation.  The system's address parser is a parameter.
 */
module PfRules {
  import opened Basics
  import opened Text

  datatype Action = Block | Pass
  datatype Direction = AnyDirection | Inbound | Outbound
  datatype Family = AnyFamily | Inet | Inet6
  datatype Protocol = AnyProtocol | Tcp | Udp | Icmp | Icmp6

  type Port = n: nat | n < 0x1_0000
  type Uint64 = n: nat | n < UINT64_LIMIT

  datatype Endpoint = Endpoint(network: string, port: Option<Port>)

  datatype Rule = Rule(id: string, description: string, action: Action, direction: Direction, family: Family,
                       interface: string, protocol: Protocol, source: Endpoint, destination: Endpoint,
                       log: bool, quick: bool, enabled: bool)

  datatype RuleSet = RuleSet(revision: Uint64, rules: seq<Rule>)

  // inet_pton for the two address families.
  datatype AddressParser = AddressParser(accepts4: string -> bool, accepts6: string -> bool)

  predicate Letter(c: char) { 'A' <= c <= 'Z' || 'a' <= c <= 'z' }
  predicate NameChar(c: char) { Letter(c) || IsDigit(c) || c == '.' || c == '_' || c == '-' }

  predicate ValidRuleId(s: string) {
    0 < |s| <= 64 && (Letter(s[0]) || IsDigit(s[0])) && forall i :: 0 <= i < |s| ==> NameChar(s[i])
  }

  predicate ValidInterface(s: string) {
    s == [] || (|s| <= 15 && Letter(s[0]) && forall i :: 0 <= i < |s| ==> NameChar(s[i]))
  }

  predicate ValidDescription(s: string) {
    |s| <= 160 && forall i :: 0 <= i < |s| ==> s[i] as int >= 0x20 && s[i] as int != 0x7F
  }

  // The address goes through a C string: what follows a NUL is not looked at.
  function CString(s: string): string { s[..Find(s, '\0')] }

  predicate ParsePrefix(s: string, maximum: nat) {
    s != [] && AllDigits(s) && Value(s) < 0x1_0000_0000 && Value(s) <= maximum
  }

  function ParseNetwork(p: AddressParser, network: string): Option<Family> {
    if network == "any" then Some(AnyFamily)
    else
      var slash := Find(network, '/');
      if slash < |network| && '/' in network[slash + 1..] then None
      else
        var address := network[..slash];
        if address == [] then None
        else
          var text := CString(address);
          if p.accepts4(text) then
            if slash == |network| || ParsePrefix(network[slash + 1..], 32) then Some(Inet) else None
          else if p.accepts6(text) then
            if slash == |network| || ParsePrefix(network[slash + 1..], 128) then Some(Inet6) else None
          else None
  }

  // ---------- valid rules ----------

  predicate ValidEndpoint(p: AddressParser, e: Endpoint, expected: Family) {
    match ParseNetwork(p, e.network)
    case None => false
    case Some(family) => expected == AnyFamily || family == AnyFamily || family == expected
  }

  predicate Fits(family: Family, f: Family) { f == AnyFamily || f == family }

  // No two address families in one rule, the rule's own included.
  predicate OneFamily(p: AddressParser, r: Rule) {
    var s, d := ParseNetwork(p, r.source.network), ParseNetwork(p, r.destination.network);
    s.Some? && d.Some? &&
    exists family :: family != AnyFamily && Fits(family, r.family) && Fits(family, s.value) && Fits(family, d.value)
  }

  predicate ValidRule(p: AddressParser, r: Rule) {
    && ValidRuleId(r.id) && ValidDescription(r.description) && ValidInterface(r.interface)
    && OneFamily(p, r)
    && (r.source.port.Some? || r.destination.port.Some? ==> r.protocol == Tcp || r.protocol == Udp)
    && !(r.protocol == Icmp && r.family == Inet6)
    && !(r.protocol == Icmp6 && r.family == Inet)
  }

  predicate ValidRuleSet(p: AddressParser, rs: RuleSet) {
    && rs.revision != 0
    && (forall i :: 0 <= i < |rs.rules| ==> ValidRule(p, rs.rules[i]))
    && (forall i, k :: 0 <= i < k < |rs.rules| ==> rs.rules[i].id != rs.rules[k].id)
  }

  predicate PortsWithoutProtocol(r: Rule) {
    (r.source.port.Some? || r.destination.port.Some?) && r.protocol != Tcp && r.protocol != Udp
  }

  // A network that does not parse counts as any family.
  function FamilyOf(parsed: Option<Family>): Family { if parsed.Some? then parsed.value else AnyFamily }

  // The ends have different families and the rule leaves its own open.
  predicate MixedFamilies(p: AddressParser, r: Rule) {
    var s, d := FamilyOf(ParseNetwork(p, r.source.network)), FamilyOf(ParseNetwork(p, r.destination.network));
    r.family == AnyFamily && s != AnyFamily && d != AnyFamily && s != d
  }

  // ---------- validation, as the report is built ----------

  datatype Code = C1001 | C1002 | C1003 | C1004 | C1005 | C1006 | C1007 | C1008 | C1009 | C1010 | C1011

  datatype Field =
    | TheRevision | TheId | TheDescription | TheInterface | TheSource | TheDestination | TheFamily | TheProtocol

  // In the report on a rule set an issue names its rule.
  datatype Issue = Issue(code: Code, field: Field, rule: Option<nat>)

  // What each code says about a field of a rule.
  ghost predicate Defect(p: AddressParser, r: Rule, code: Code, field: Field) {
    match code
    case C1001 => field == TheId && !ValidRuleId(r.id)
    case C1002 => field == TheDescription && !ValidDescription(r.description)
    case C1003 => field == TheInterface && !ValidInterface(r.interface)
    case C1004 =>
      || (field == TheSource && ParseNetwork(p, r.source.network).None?)
      || (field == TheDestination && ParseNetwork(p, r.destination.network).None?)
    case C1005 =>
      || (field == TheSource && ParseNetwork(p, r.source.network).Some? && !ValidEndpoint(p, r.source, r.family))
      || (field == TheDestination && ParseNetwork(p, r.destination.network).Some?
          && !ValidEndpoint(p, r.destination, r.family))
    case C1006 => field == TheFamily && MixedFamilies(p, r)
    case C1007 => field == TheProtocol && PortsWithoutProtocol(r)
    case C1008 => field == TheProtocol && r.protocol == Icmp && r.family == Inet6
    case C1009 => field == TheProtocol && r.protocol == Icmp6 && r.family == Inet
    case C1010 | C1011 => false
  }

  // The issues of the given codes, and no others.
  ghost predicate Lists(report: seq<Issue>, codes: set<Code>, p: AddressParser, r: Rule) {
    forall i :: i in report <==> i.rule.None? && i.code in codes && Defect(p, r, i.code, i.field)
  }

  // Adds an issue if there is one.
  method Check(report: seq<Issue>, defect: bool, issue: Issue) returns (r: seq<Issue>)
    ensures forall i :: i in r <==> i in report || (defect && i == issue)
    ensures r == [] <==> report == [] && !defect
  {
    r := if defect then report + [issue] else report;
  }

  method ValidateNames(p: AddressParser, r: Rule) returns (report: seq<Issue>)
    ensures Lists(report, {C1001, C1002, C1003}, p, r)
  {
    hide ParseNetwork, ValidRuleId, ValidDescription, ValidInterface, ValidEndpoint, MixedFamilies,
         PortsWithoutProtocol;
    report := Check([], !ValidRuleId(r.id), Issue(C1001, TheId, None));
    report := Check(report, !ValidDescription(r.description), Issue(C1002, TheDescription, None));
    report := Check(report, !ValidInterface(r.interface), Issue(C1003, TheInterface, None));
  }

  method ValidateEndpoint(p: AddressParser, report: seq<Issue>, e: Endpoint, field: Field, expected: Family)
    returns (r: seq<Issue>)
    ensures forall i :: i in r <==>
                          || i in report
                          || (i == Issue(C1004, field, None) && ParseNetwork(p, e.network).None?)
                          || (i == Issue(C1005, field, None) && ParseNetwork(p, e.network).Some?
                              && !ValidEndpoint(p, e, expected))
  {
    hide ParseNetwork;
    var parsed := ParseNetwork(p, e.network);
    r := Check(report, parsed.None?, Issue(C1004, field, None));
    if parsed.Some? {
      r := Check(r, expected != AnyFamily && parsed.value != AnyFamily && parsed.value != expected,
                 Issue(C1005, field, None));
    }
  }

  method ValidateEndpoints(p: AddressParser, report: seq<Issue>, r: Rule) returns (more: seq<Issue>)
    requires Lists(report, {C1001, C1002, C1003}, p, r)
    ensures Lists(more, {C1001, C1002, C1003, C1004, C1005}, p, r)
  {
    hide ParseNetwork, ValidRuleId, ValidDescription, ValidInterface, ValidEndpoint, MixedFamilies,
         PortsWithoutProtocol;
    more := ValidateEndpoint(p, report, r.source, TheSource, r.family);
    more := ValidateEndpoint(p, more, r.destination, TheDestination, r.family);
  }

  method ValidateProtocol(p: AddressParser, report: seq<Issue>, r: Rule) returns (more: seq<Issue>)
    requires Lists(report, {C1001, C1002, C1003, C1004, C1005}, p, r)
    ensures forall i :: i in more <==> i.rule.None? && Defect(p, r, i.code, i.field)
  {
    hide ParseNetwork, ValidRuleId, ValidDescription, ValidInterface, ValidEndpoint;
    var source := FamilyOf(ParseNetwork(p, r.source.network));
    var destination := FamilyOf(ParseNetwork(p, r.destination.network));
    more := Check(report, r.family == AnyFamily && source != AnyFamily && destination != AnyFamily
                          && source != destination, Issue(C1006, TheFamily, None));
    more := Check(more, (r.source.port.Some? || r.destination.port.Some?) && r.protocol != Tcp && r.protocol != Udp,
                  Issue(C1007, TheProtocol, None));
    more := Check(more, r.protocol == Icmp && r.family == Inet6, Issue(C1008, TheProtocol, None));
    more := Check(more, r.protocol == Icmp6 && r.family == Inet, Issue(C1009, TheProtocol, None));
  }

  lemma FamiliesAgree(p: AddressParser, r: Rule)
    ensures var s, d := ParseNetwork(p, r.source.network), ParseNetwork(p, r.destination.network);
            OneFamily(p, r) <==>
              && ValidEndpoint(p, r.source, r.family) && ValidEndpoint(p, r.destination, r.family)
              && !(r.family == AnyFamily && s.value != AnyFamily && d.value != AnyFamily && s.value != d.value)
  {
    hide ParseNetwork;
    var s, d := ParseNetwork(p, r.source.network), ParseNetwork(p, r.destination.network);
    if s.Some? && d.Some? {
      var family := if r.family != AnyFamily then r.family
                    else if s.value != AnyFamily then s.value
                    else if d.value != AnyFamily then d.value else Inet;
      assert Fits(family, r.family);
    }
  }

  lemma NoDefects(p: AddressParser, r: Rule)
    ensures ValidRule(p, r) <==> forall code, field :: !Defect(p, r, code, field)
  {
    hide ParseNetwork, ValidRuleId, ValidDescription, ValidInterface;
    FamiliesAgree(p, r);
    if forall code, field :: !Defect(p, r, code, field) {
      assert !Defect(p, r, C1001, TheId) && !Defect(p, r, C1002, TheDescription) && !Defect(p, r, C1003, TheInterface);
      assert !Defect(p, r, C1004, TheSource) && !Defect(p, r, C1005, TheSource);
      assert !Defect(p, r, C1004, TheDestination) && !Defect(p, r, C1005, TheDestination);
      assert !Defect(p, r, C1006, TheFamily) && !Defect(p, r, C1007, TheProtocol);
      assert !Defect(p, r, C1008, TheProtocol) && !Defect(p, r, C1009, TheProtocol);
    }
  }

  lemma NothingListed(report: seq<Issue>)
    ensures report == [] <==> forall i :: i !in report
  {
    if report != [] { assert report[0] in report; }
  }

  /** The report on a rule names exactly its defects, each under its field, and is empty exactly for a valid rule. */
  method ValidateRule(p: AddressParser, r: Rule) returns (report: seq<Issue>)
    ensures forall i :: i in report <==> i.rule.None? && Defect(p, r, i.code, i.field)
    ensures report == [] <==> ValidRule(p, r)
  {
    hide ValidRule, Defect, Lists;
    report := ValidateNames(p, r);
    report := ValidateEndpoints(p, report, r);
    report := ValidateProtocol(p, report, r);
    NothingListed(report);
    NoDefects(p, r);
    assert forall code, field :: Defect(p, r, code, field) ==> Issue(code, field, None) in report;
  }

  // Two rules share an id that is not empty.
  ghost predicate Duplicates(rules: seq<Rule>) {
    exists i, k :: 0 <= i < k < |rules| && rules[i].id == rules[k].id && rules[i].id != []
  }

  lemma NoDuplicates(rules: seq<Rule>)
    ensures !Duplicates(rules[..0])
  {}

  lemma OneMoreId(rules: seq<Rule>, n: nat)
    requires n < |rules|
    ensures Duplicates(rules[..n + 1]) <==>
              || Duplicates(rules[..n])
              || (rules[n].id != [] && exists i :: 0 <= i < n && rules[i].id == rules[n].id)
  {
    var more := rules[..n + 1];
    assert more[..n] == rules[..n] && more[n] == rules[n];
    if Duplicates(rules[..n]) {
      var i, k :| 0 <= i < k < n && rules[..n][i].id == rules[..n][k].id && rules[..n][i].id != [];
      assert more[i].id == more[k].id;
    }
    if rules[n].id != [] && exists i :: 0 <= i < n && rules[i].id == rules[n].id {
      var i :| 0 <= i < n && rules[i].id == rules[n].id;
      assert more[i].id == more[n].id;
    }
  }

  lemma ValidIdIsNotEmpty(p: AddressParser, r: Rule)
    ensures ValidRule(p, r) ==> r.id != []
  {}

  lemma AllDifferent(p: AddressParser, rules: seq<Rule>)
    requires forall i :: 0 <= i < |rules| ==> ValidRule(p, rules[i])
    ensures !Duplicates(rules) <==> forall i, k :: 0 <= i < k < |rules| ==> rules[i].id != rules[k].id
  {
    hide ValidRule;
    forall i | 0 <= i < |rules| ensures rules[i].id != [] { ValidIdIsNotEmpty(p, rules[i]); }
  }

  // What a report says about the n-th rule of a rule set: its defects, and an id that an earlier rule has.
  ghost predicate DefectOf(p: AddressParser, rules: seq<Rule>, n: nat, code: Code, field: Field)
    requires n < |rules|
  {
    || Defect(p, rules[n], code, field)
    || (code == C1010 && field == TheId && rules[n].id != [] && exists k :: 0 <= k < n && rules[k].id == rules[n].id)
  }

  // The report on the first n rules.
  ghost predicate Reports(p: AddressParser, rs: RuleSet, n: nat, report: seq<Issue>)
    requires n <= |rs.rules|
  {
    forall i :: i in report <==>
                  if i.rule.None? then i == Issue(C1011, TheRevision, None) && rs.revision == 0
                  else i.rule.value < n && DefectOf(p, rs.rules, i.rule.value, i.code, i.field)
  }

  function InRule(issues: seq<Issue>, n: nat): seq<Issue> {
    seq(|issues|, k requires 0 <= k < |issues| => issues[k].(rule := Some(n)))
  }

  lemma MembersInRule(issues: seq<Issue>, n: nat)
    requires forall i :: i in issues ==> i.rule.None?
    ensures forall i :: i in InRule(issues, n) <==> i.rule == Some(n) && i.(rule := None) in issues
  {
    forall i ensures i in InRule(issues, n) <==> i.rule == Some(n) && i.(rule := None) in issues {
      if i.rule == Some(n) && i.(rule := None) in issues {
        var k :| 0 <= k < |issues| && issues[k] == i.(rule := None);
        assert InRule(issues, n)[k] == i;
      }
    }
  }

  lemma InRuleLength(issues: seq<Issue>, n: nat)
    ensures InRule(issues, n) == [] <==> issues == []
  {
    assert |InRule(issues, n)| == |issues|;
  }

  lemma RevisionReport(p: AddressParser, rs: RuleSet, report: seq<Issue>)
    requires forall i :: i in report <==> rs.revision == 0 && i == Issue(C1011, TheRevision, None)
    ensures Reports(p, rs, 0, report)
  {}

  lemma ReportsOneMore(p: AddressParser, rs: RuleSet, n: nat, before: seq<Issue>, issues: seq<Issue>,
                       after: seq<Issue>)
    requires n < |rs.rules| && Reports(p, rs, n, before)
    requires forall i :: i in issues <==> i.rule.None? && Defect(p, rs.rules[n], i.code, i.field)
    requires var shared := rs.rules[n].id != [] && exists k :: 0 <= k < n && rs.rules[k].id == rs.rules[n].id;
             forall i :: i in after <==>
                           i in before || i in InRule(issues, n) || (shared && i == Issue(C1010, TheId, Some(n)))
    ensures Reports(p, rs, n + 1, after)
  {
    hide Defect, InRule;
    MembersInRule(issues, n);
  }

  /** The report on a rule set names exactly the defects of each rule, every id an earlier rule has, and a missing
      revision; it is empty exactly for a valid rule set. */
  method ValidateRuleSet(p: AddressParser, rs: RuleSet) returns (report: seq<Issue>)
    ensures report == [] <==> ValidRuleSet(p, rs)
    ensures Reports(p, rs, |rs.rules|, report)
  {
    hide ValidRule, Duplicates, Defect, Reports, InRule;
    report := [];
    NoDuplicates(rs.rules);
    var identifiers: set<string> := {};
    report := Check(report, rs.revision == 0, Issue(C1011, TheRevision, None));
    assert Reports(p, rs, 0, report) by { RevisionReport(p, rs, report); }
    for index := 0 to |rs.rules|
      invariant report == [] <==>
                  && rs.revision != 0
                  && (forall i :: 0 <= i < index ==> ValidRule(p, rs.rules[i]))
                  && !Duplicates(rs.rules[..index])
      invariant Reports(p, rs, index, report)
      invariant identifiers == set i | 0 <= i < index && rs.rules[i].id != [] :: rs.rules[i].id
    {
      ghost var before := report;
      var rule := rs.rules[index];
      var issues := ValidateRule(p, rule);
      report := report + InRule(issues, index);
      InRuleLength(issues, index);
      OneMoreId(rs.rules, index);
      if rule.id != [] {
        report := Check(report, rule.id in identifiers, Issue(C1010, TheId, Some(index)));
        identifiers := identifiers + {rule.id};
      }
      ReportsOneMore(p, rs, index, before, issues, report);
    }
    assert rs.rules[..|rs.rules|] == rs.rules;
    if forall i :: 0 <= i < |rs.rules| ==> ValidRule(p, rs.rules[i]) { AllDifferent(p, rs.rules); }
  }

  // ---------- what a valid network looks like ----------

  predicate AddressChar(c: char) {
    IsDigit(c) || 'a' <= c <= 'f' || 'A' <= c <= 'F' || c == '.' || c == ':'
  }

  // Addresses are made of hexadecimal digits, dots and colons.
  ghost predicate Numeric(p: AddressParser) {
    && (forall s: string, i: nat :: i < |s| && p.accepts4(s) ==> AddressChar(s[i]))
    && (forall s: string, i: nat :: i < |s| && p.accepts6(s) ==> AddressChar(s[i]))
  }

  // One word on one line.
  predicate Clean(s: string) { ' ' !in s && '\n' !in s }

  lemma NoNul(s: string)
    requires '\0' !in s
    ensures CString(s) == s
  {}

  /** A valid network without a NUL is one word: no space and no newline can reach the rendered text. */
  lemma NetworkIsClean(p: AddressParser, network: string)
    requires Numeric(p) && ParseNetwork(p, network).Some? && '\0' !in network
    ensures network != [] && Clean(network)
  {
    if network != "any" {
      var slash := Find(network, '/');
      var address := network[..slash];
      NoNul(address);
      assert p.accepts4(address) || p.accepts6(address);
      forall i: nat | i < |network| ensures network[i] != ' ' && network[i] != '\n' {
        if i < slash {
          assert network[i] == address[i];
        } else if i > slash {
          assert network[i] == network[slash + 1..][i - slash - 1];
        }
      }
    }
  }

  // A network written as an address and perhaps a prefix length after a slash.
  predicate Notation(network: string, address: string, prefix: Option<string>) {
    && address != [] && '/' !in address
    && match prefix
       case None => network == address
       case Some(length) => '/' !in length && network == address + ['/'] + length
  }

  predicate PrefixUpTo(prefix: Option<string>, maximum: nat) {
    prefix.Some? ==> prefix.value != [] && AllDigits(prefix.value) && Value(prefix.value) <= maximum
  }

  // An address of the family, with a prefix length it can have.
  predicate IsNetwork(p: AddressParser, address: string, prefix: Option<string>, family: Family) {
    match family
    case AnyFamily => false
    case Inet => p.accepts4(CString(address)) && PrefixUpTo(prefix, 32)
    case Inet6 => !p.accepts4(CString(address)) && p.accepts6(CString(address)) && PrefixUpTo(prefix, 128)
  }

  lemma NotationIsUnique(network: string, address: string, prefix: Option<string>)
    requires Notation(network, address, prefix)
    ensures address == network[..Find(network, '/')]
    ensures prefix.None? <==> Find(network, '/') == |network|
    ensures prefix.Some? ==> prefix.value == network[Find(network, '/') + 1..]
  {
    if prefix.Some? {
      FindInPrefix(address, prefix.value, '/');
    }
  }

  /** The networks that are accepted: "any", or an address with no prefix length or one of at most 32 or 128. */
  lemma NetworkExactly(p: AddressParser, network: string, family: Family)
    ensures ParseNetwork(p, network) == Some(family) <==>
              if network == "any" then family == AnyFamily
              else exists address, prefix :: Notation(network, address, prefix)
                                             && IsNetwork(p, address, prefix, family)
  {
    hide CString, AllDigits, Value;
    if network != "any" {
      var slash := Find(network, '/');
      if ParseNetwork(p, network) == Some(family) {
        var prefix := if slash == |network| then None else Some(network[slash + 1..]);
        assert slash < |network| ==> network == network[..slash] + ['/'] + network[slash + 1..];
        assert Notation(network, network[..slash], prefix);
        assert IsNetwork(p, network[..slash], prefix, family);
      }
      if address, prefix :| Notation(network, address, prefix) && IsNetwork(p, address, prefix, family) {
        NotationIsUnique(network, address, prefix);
      }
    }
  }
}
