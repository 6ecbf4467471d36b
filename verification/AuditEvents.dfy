/**
 Audit events and their one-line JSON form.
 */
module AuditEvents {
  import opened Basics
  import Json

  datatype Severity = Debug | Info | Warning | Error | Critical

  // Attributes stand in the order in which the map is walked.
  datatype Event = Event(timestamp: string, severity: Severity, eventId: string, component: string,
                         operationId: string, action: string, outcome: string, message: string,
                         attributes: seq<(string, string)>)

  const SCHEMA := "gatehold.event.v1"
  const REDACTED := "[REDACTED]"

  function SeverityName(s: Severity): string {
    match s
    case Debug => "debug"
    case Info => "info"
    case Warning => "warning"
    case Error => "error"
    case Critical => "critical"
  }

  function LowerChar(c: char): char { if 'A' <= c <= 'Z' then (c as int + 32) as char else c }

  function Lowercase(s: string): (r: string)
    ensures |r| == |s| && forall i :: 0 <= i < |s| ==> r[i] == LowerChar(s[i])
  {
    seq(|s|, i requires 0 <= i < |s| => LowerChar(s[i]))
  }

  const FRAGMENTS: seq<string> :=
    ["password", "passwd", "secret", "token", "api_key", "api-key", "apikey", "private_key", "cookie",
     "authorization", "credential", "session", "bearer"]

  predicate OccursAt(fragment: string, s: string, i: nat) { i + |fragment| <= |s| && s[i..i + |fragment|] == fragment }

  predicate Occurs(fragment: string, s: string) { exists i: nat :: i <= |s| && OccursAt(fragment, s, i) }

  predicate Sensitive(key: string) {
    exists k :: 0 <= k < |FRAGMENTS| && Occurs(FRAGMENTS[k], Lowercase(key))
  }

  // ---------- the document ----------

  function Shown(attribute: (string, string)): string {
    if Sensitive(attribute.0) then REDACTED else attribute.1
  }

  function TextMember(key: string, value: string): Json.Member { Json.Member(key, Json.Text(value)) }

  function Attributes(attributes: seq<(string, string)>): seq<Json.Member> {
    seq(|attributes|, i requires 0 <= i < |attributes| => TextMember(attributes[i].0, Shown(attributes[i])))
  }

  function Header(e: Event): seq<Json.Member> {
    [TextMember("schema", SCHEMA),
     TextMember("timestamp", e.timestamp),
     TextMember("severity", SeverityName(e.severity)),
     TextMember("event_id", e.eventId),
     TextMember("component", e.component),
     TextMember("operation_id", e.operationId),
     TextMember("action", e.action),
     TextMember("outcome", e.outcome),
     TextMember("message", e.message)]
  }

  function AttributesMember(e: Event): Json.Member { Json.Member("attributes", Json.Object(Attributes(e.attributes))) }

  function Document(e: Event): Json.Value { Json.Object(Header(e) + [AttributesMember(e)]) }

  // ---------- the formatter's loops ----------

  lemma EscapeStep(value: string, i: nat)
    requires i < |value|
    ensures Json.Escape(value[i..]) == Json.EscapeChar(value[i]) + Json.Escape(value[i + 1..])
  {
    assert value[i..][1..] == value[i + 1..];
  }

  lemma NothingToEscape(value: string)
    ensures value[|value|..] == [] && Json.Escape([]) == []
  {}

  lemma Associate(a: string, b: string, c: string)
    ensures a + b + c == a + (b + c) && a + [] == a
  {}

  method AppendEscaped(output: string, value: string) returns (r: string)
    ensures r == output + Json.Quote(value)
  {
    hide Json.Escape, Json.EscapeChar;
    r := output + ['"'];
    assert value[0..] == value;
    for i := 0 to |value|
      invariant r + Json.Escape(value[i..]) == output + ['"'] + Json.Escape(value)
    {
      ghost var before := r;
      r := r + Json.EscapeChar(value[i]);
      EscapeStep(value, i);
      Associate(before, Json.EscapeChar(value[i]), Json.Escape(value[i + 1..]));
    }
    NothingToEscape(value);
    Associate(r, [], ['"']);
    r := r + ['"'];
    Associate(output + ['"'], Json.Escape(value), ['"']);
    Associate(output, ['"'], Json.Escape(value) + ['"']);
    Associate(['"'], Json.Escape(value), ['"']);
  }

  method AppendField(output: string, key: string, value: string, first: bool) returns (r: string)
    ensures r == output + (if first then [] else [',']) + Json.PrintMember(TextMember(key, value))
  {
    hide Json.Quote;
    r := if first then output else output + [','];
    r := AppendEscaped(r, key);
    r := r + [':'];
    r := AppendEscaped(r, value);
  }

  // The members printed so far, and one more.
  lemma {:induction false} PrintOneMore(members: seq<Json.Member>, m: Json.Member)
    ensures Json.PrintMembers(members + [m])
         == Json.PrintMembers(members) + (if members == [] then [] else [',']) + Json.PrintMember(m)
    decreases |members|
  {
    hide Json.PrintMember;
    if members == [] {
      assert members + [m] == [m];
    } else if |members| == 1 {
      assert (members + [m])[1..] == [m] && (members + [m])[0] == members[0];
    } else {
      PrintOneMore(members[1..], m);
      assert (members + [m])[1..] == members[1..] + [m] && (members + [m])[0] == members[0];
    }
  }

  // A comma-separated list in the making: what has been written is an opening text and the members so far.
  ghost predicate Listing(output: string, opening: string, members: seq<Json.Member>) {
    output == opening + Json.PrintMembers(members)
  }

  method AddField(output: string, ghost opening: string, ghost members: seq<Json.Member>, key: string, value: string,
                  first: bool) returns (r: string)
    requires Listing(output, opening, members) && (first <==> members == [])
    ensures Listing(r, opening, members + [TextMember(key, value)])
  {
    hide Json.PrintMembers, Json.PrintMember;
    PrintOneMore(members, TextMember(key, value));
    r := AppendField(output, key, value, first);
  }

  lemma StartListing(opening: string)
    ensures Listing(opening, opening, [])
  {}

  method FormatHeader(e: Event) returns (output: string)
    ensures Listing(output, ['{'], Header(e))
  {
    hide Listing, TextMember;
    ghost var h := Header(e);
    output := ['{'];
    StartListing(['{']);
    output := AddField(output, ['{'], [], "schema", SCHEMA, true);
    assert [] + [h[0]] == h[..1];
    output := AddField(output, ['{'], h[..1], "timestamp", e.timestamp, false);
    assert h[..1] + [h[1]] == h[..2];
    output := AddField(output, ['{'], h[..2], "severity", SeverityName(e.severity), false);
    assert h[..2] + [h[2]] == h[..3];
    output := AddField(output, ['{'], h[..3], "event_id", e.eventId, false);
    assert h[..3] + [h[3]] == h[..4];
    output := AddField(output, ['{'], h[..4], "component", e.component, false);
    assert h[..4] + [h[4]] == h[..5];
    output := AddField(output, ['{'], h[..5], "operation_id", e.operationId, false);
    assert h[..5] + [h[5]] == h[..6];
    output := AddField(output, ['{'], h[..6], "action", e.action, false);
    assert h[..6] + [h[6]] == h[..7];
    output := AddField(output, ['{'], h[..7], "outcome", e.outcome, false);
    assert h[..7] + [h[7]] == h[..8];
    output := AddField(output, ['{'], h[..8], "message", e.message, false);
    assert h[..8] + [h[8]] == h;
  }

  lemma AttributesStep(attributes: seq<(string, string)>, i: nat)
    requires i < |attributes|
    ensures Attributes(attributes[..i + 1])
         == Attributes(attributes[..i]) + [TextMember(attributes[i].0, Shown(attributes[i]))]
    ensures Attributes(attributes[..i]) == [] <==> i == 0
  {}

  lemma HeaderIsNotEmpty(e: Event)
    ensures Header(e) != []
  {}

  lemma CloseDocument(e: Event, header: string, opening: string, output: string)
    requires Listing(header, ['{'], Header(e))
    requires opening == header + [','] + Json.Quote("attributes") + [':', '{']
    requires Listing(output, opening, Attributes(e.attributes))
    ensures output + ['}', '}'] == Json.Print(Document(e))
  {
    hide Header, Attributes, Json.Quote, Json.PrintMembers;
    var last := AttributesMember(e);
    PrintOneMore(Header(e), last);
    assert Header(e) != [] by { HeaderIsNotEmpty(e); }
    var members := Json.PrintMembers(Attributes(e.attributes));
    assert Json.PrintMember(last) == Json.Quote("attributes") + [':'] + (['{'] + members + ['}']);
    assert output + ['}', '}'] == ['{'] + (Json.PrintMembers(Header(e)) + [','] + Json.PrintMember(last)) + ['}'];
  }

  /** The formatted event is the printed document. */
  method Format(e: Event) returns (output: string)
    ensures output == Json.Print(Document(e))
  {
    hide Header, Json.Print, Json.Quote, Listing, AttributesMember;
    output := FormatHeader(e);
    ghost var header := output;
    output := output + [','];
    output := AppendEscaped(output, "attributes");
    output := output + [':', '{'];
    var first := true;
    ghost var opening := output;
    StartListing(opening);
    assert Attributes(e.attributes[..0]) == [];
    for i := 0 to |e.attributes|
      invariant Listing(output, opening, Attributes(e.attributes[..i]))
      invariant first <==> i == 0
    {
      AttributesStep(e.attributes, i);
      output := AddField(output, opening, Attributes(e.attributes[..i]), e.attributes[i].0, Shown(e.attributes[i]),
                         first);
      first := false;
    }
    assert e.attributes[..|e.attributes|] == e.attributes;
    CloseDocument(e, header, opening, output);
    output := output + ['}', '}'];
  }

  // ---------- what the line says ----------

  // Everything but the values of sensitive attributes.
  ghost predicate SameButSecrets(e: Event, f: Event) {
    && e.(attributes := []) == f.(attributes := [])
    && |e.attributes| == |f.attributes|
    && forall i :: 0 <= i < |e.attributes| ==>
         && e.attributes[i].0 == f.attributes[i].0
         && Shown(e.attributes[i]) == Shown(f.attributes[i])
  }

  lemma SeverityNamesDiffer(a: Severity, b: Severity)
    requires SeverityName(a) == SeverityName(b)
    ensures a == b
  {
    assert SeverityName(a)[0] == SeverityName(b)[0];
  }

  lemma SameHeader(e: Event, f: Event)
    ensures Header(e) == Header(f) <==> e.(attributes := []) == f.(attributes := [])
  {
    if Header(e) == Header(f) {
      assert forall i :: 0 <= i < 9 ==> Header(e)[i].value.text == Header(f)[i].value.text;
      assert Header(e)[1].value.text == e.timestamp && Header(e)[2].value.text == SeverityName(e.severity);
      SeverityNamesDiffer(e.severity, f.severity);
    }
  }

  lemma SameAttributes(a: seq<(string, string)>, b: seq<(string, string)>)
    ensures Attributes(a) == Attributes(b) <==>
              && |a| == |b|
              && forall i :: 0 <= i < |a| ==> a[i].0 == b[i].0 && Shown(a[i]) == Shown(b[i])
  {
    if Attributes(a) == Attributes(b) {
      forall i | 0 <= i < |a| ensures a[i].0 == b[i].0 && Shown(a[i]) == Shown(b[i]) {
        assert Attributes(a)[i] == Attributes(b)[i];
      }
    }
  }

  /** Two events have the same line exactly when they differ in nothing but the values of sensitive attributes: the line
      tells everything else and nothing of those. */
  lemma LineDetermines(e: Event, f: Event)
    ensures Json.Print(Document(e)) == Json.Print(Document(f)) <==> SameButSecrets(e, f)
  {
    hide Json.Print, Header, Attributes, Shown;
    if Json.Print(Document(e)) == Json.Print(Document(f)) {
      Json.PrintIsInjective(Document(e), Document(f));
      var d, g := Header(e) + [AttributesMember(e)], Header(f) + [AttributesMember(f)];
      assert d == g;
      assert d[|d| - 1] == AttributesMember(e) && g[|g| - 1] == AttributesMember(f);
      assert Header(e) == d[..|d| - 1] && Header(f) == g[..|g| - 1];
    }
    SameHeader(e, f);
    SameAttributes(e.attributes, f.attributes);
  }

  /** A line read back is the event with its secrets blanked. */
  lemma LineReadsBack(e: Event)
    ensures Json.ReadValue(Json.Print(Document(e))) == Some((Document(e), []))
    ensures '\n' !in Json.Print(Document(e)) && Json.Print(Document(e)) != []
  {
    Json.ReadPrinted(Document(e), []);
    Json.PrintIsVisible(Document(e));
    assert Json.Print(Document(e)) + [] == Json.Print(Document(e));
  }

  lemma OccursInside(fragment: string, before: string, s: string, after: string)
    requires Occurs(fragment, s)
    ensures Occurs(fragment, before + s + after)
  {
    var i: nat :| i <= |s| && OccursAt(fragment, s, i);
    var whole := before + s + after;
    var n := |fragment|;
    assert whole[|before| + i..|before| + i + n] == s[i..i + n];
    assert OccursAt(fragment, whole, |before| + i);
  }

  /** A key stays sensitive whatever surrounds it and however it is capitalised. */
  lemma SensitiveInside(key: string, before: string, after: string, spelled: string)
    requires Sensitive(key) && Lowercase(spelled) == Lowercase(before + key + after)
    ensures Sensitive(spelled)
  {
    var k :| 0 <= k < |FRAGMENTS| && Occurs(FRAGMENTS[k], Lowercase(key));
    OccursInside(FRAGMENTS[k], Lowercase(before), Lowercase(key), Lowercase(after));
    assert Lowercase(spelled) == Lowercase(before) + Lowercase(key) + Lowercase(after);
  }

  // The same letter, whether capital or small, or the same other character.
  predicate SameLetter(c: char, d: char) {
    || c == d
    || ('A' <= c <= 'Z' && d as int == c as int + 32)
    || ('A' <= d <= 'Z' && c as int == d as int + 32)
  }

  predicate SpelledAt(fragment: string, key: string, i: nat) {
    i + |fragment| <= |key| && forall j :: 0 <= j < |fragment| ==> SameLetter(fragment[j], key[i + j])
  }

  predicate Small(s: string) { forall j :: 0 <= j < |s| ==> !('A' <= s[j] <= 'Z') }

  lemma SpelledIsLower(fragment: string, key: string, i: nat)
    requires Small(fragment)
    ensures SpelledAt(fragment, key, i) <==> OccursAt(fragment, Lowercase(key), i)
  {
    var lower := Lowercase(key);
    if i + |fragment| <= |key| {
      var part := lower[i..i + |fragment|];
      assert forall j :: 0 <= j < |fragment| ==> part[j] == LowerChar(key[i + j]);
      if SpelledAt(fragment, key, i) {
        assert part == fragment;
      }
    }
  }

  lemma OccursWithin(fragment: string, s: string, i: nat)
    requires OccursAt(fragment, s, i)
    ensures Occurs(fragment, s)
  {}

  lemma FragmentsAreSmall()
    ensures forall fragment | fragment in FRAGMENTS :: Small(fragment)
  {}

  /** An attribute is sensitive exactly if one of these words is spelled in its key, in capital or small letters. */
  lemma SensitiveExactly(key: string)
    ensures Sensitive(key) <==>
              exists fragment, i: nat :: fragment in
                ["password", "passwd", "secret", "token", "api_key", "api-key", "apikey", "private_key", "cookie",
                 "authorization", "credential", "session", "bearer"]
                && SpelledAt(fragment, key, i)
  {
    hide SpelledAt, OccursAt;
    var words := ["password", "passwd", "secret", "token", "api_key", "api-key", "apikey", "private_key", "cookie",
                  "authorization", "credential", "session", "bearer"];
    assert words == FRAGMENTS;
    FragmentsAreSmall();
    forall fragment, i: nat | fragment in words
      ensures SpelledAt(fragment, key, i) <==> OccursAt(fragment, Lowercase(key), i)
    {
      SpelledIsLower(fragment, key, i);
    }
    if fragment, i: nat :| fragment in words && SpelledAt(fragment, key, i) {
      var k :| 0 <= k < |words| && words[k] == fragment;
      OccursWithin(fragment, Lowercase(key), i);
    }
  }

  // The value of an object's first member of a name.
  function Lookup(members: seq<Json.Member>, key: string): Option<Json.Value> {
    if members == [] then None
    else if members[0].key == key then Some(members[0].value)
    else Lookup(members[1..], key)
  }

  predicate DistinctKeys(members: seq<Json.Member>) {
    forall i, j :: 0 <= i < j < |members| ==> members[i].key != members[j].key
  }

  lemma {:induction false} LookupAt(members: seq<Json.Member>, i: nat)
    requires i < |members| && DistinctKeys(members)
    ensures Lookup(members, members[i].key) == Some(members[i].value)
    decreases i
  {
    if i == 0 {
    } else {
      LookupAt(members[1..], i - 1);
    }
  }

  // Length and first letter tell the names of the members apart.
  lemma NamesDiffer(names: seq<string>)
    requires names == ["schema", "timestamp", "severity", "event_id", "component", "operation_id", "action", "outcome",
                       "message", "attributes"]
    ensures forall i, j :: 0 <= i < j < 10 ==> names[i] != names[j]
  {
    assert |names[0]| == 6 && |names[1]| == 9 && |names[2]| == 8 && |names[3]| == 8 && |names[4]| == 9;
    assert |names[5]| == 12 && |names[6]| == 6 && |names[7]| == 7 && |names[8]| == 7 && |names[9]| == 10;
    assert names[0][0] == 's' && names[6][0] == 'a' && names[7][0] == 'o' && names[8][0] == 'm';
    assert names[2][0] == 's' && names[3][0] == 'e' && names[1][0] == 't' && names[4][0] == 'c';
  }

  lemma Named(e: Event, names: seq<string>)
    requires names == ["schema", "timestamp", "severity", "event_id", "component", "operation_id", "action", "outcome",
                       "message", "attributes"]
    ensures var d := Header(e) + [AttributesMember(e)];
            |d| == 10 && forall i :: 0 <= i < 10 ==> d[i].key == names[i]
  {}

  // What a line says under a name.
  predicate Says(e: Event, name: string, text: string) {
    Lookup(Document(e).members, name) == Some(Json.Text(text))
  }

  lemma LookupAll(e: Event)
    ensures var d := Header(e) + [AttributesMember(e)];
            forall i :: 0 <= i < |d| ==> Lookup(d, d[i].key) == Some(d[i].value)
  {
    hide Header, AttributesMember, Lookup;
    var names := ["schema", "timestamp", "severity", "event_id", "component", "operation_id", "action", "outcome",
                  "message", "attributes"];
    Named(e, names);
    NamesDiffer(names);
    var d := Header(e) + [AttributesMember(e)];
    forall i | 0 <= i < |d| ensures Lookup(d, d[i].key) == Some(d[i].value) { LookupAt(d, i); }
  }

  /** The line gives each field of the event under its own name, and every attribute in order, the sensitive ones with
      their values replaced. */
  lemma DocumentSays(e: Event)
    ensures Says(e, "schema", "gatehold.event.v1") && Says(e, "timestamp", e.timestamp)
    ensures Says(e, "event_id", e.eventId) && Says(e, "component", e.component)
    ensures Says(e, "operation_id", e.operationId) && Says(e, "action", e.action)
    ensures Says(e, "outcome", e.outcome) && Says(e, "message", e.message)
    ensures Says(e, "severity", match e.severity case Debug => "debug" case Info => "info" case Warning => "warning"
                                                 case Error => "error" case Critical => "critical")
    ensures var attributes := Lookup(Document(e).members, "attributes");
            && attributes.Some? && attributes.value.Object? && |attributes.value.members| == |e.attributes|
            && forall i :: 0 <= i < |e.attributes| ==>
                 attributes.value.members[i]
                 == Json.Member(e.attributes[i].0,
                                Json.Text(if Sensitive(e.attributes[i].0) then "[REDACTED]" else e.attributes[i].1))
  {
    hide Lookup, Sensitive;
    LookupAll(e);
    var d := Header(e) + [AttributesMember(e)];
    assert d[0].key == "schema" && d[1].key == "timestamp" && d[2].key == "severity" && d[3].key == "event_id";
    assert d[4].key == "component" && d[5].key == "operation_id" && d[6].key == "action" && d[7].key == "outcome";
    assert d[8].key == "message" && d[9].key == "attributes";
  }
}
