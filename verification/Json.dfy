/**
 The fragment of JSON the journal is written in, strings and objects, with a reader after RFC 8259.
 A char stands for a byte.
 */
module Json {
  import opened Basics

  datatype Value = Text(text: string) | Object(members: seq<Member>)
  datatype Member = Member(key: string, value: Value)

  // ---------- writing ----------

  function HexDigit(d: nat): char
    requires d < 16
  {
    if d < 10 then ('0' as int + d) as char else ('a' as int + (d - 10)) as char
  }

  function EscapeChar(c: char): string {
    if c == '"' then ['\\', '"']
    else if c == '\\' then ['\\', '\\']
    else if c as int == 0x08 then ['\\', 'b']
    else if c as int == 0x0C then ['\\', 'f']
    else if c == '\n' then ['\\', 'n']
    else if c == '\r' then ['\\', 'r']
    else if c == '\t' then ['\\', 't']
    else if c as int < 0x20 then ['\\', 'u', '0', '0', HexDigit(c as int / 16), HexDigit(c as int % 16)]
    else [c]
  }

  function Escape(s: string): string { if s == [] then [] else EscapeChar(s[0]) + Escape(s[1..]) }

  function Quote(s: string): string { ['"'] + Escape(s) + ['"'] }

  function PrintMember(m: Member): string
    decreases m, 2
  {
    Quote(m.key) + [':'] + Print(m.value)
  }

  // Comma-separated.
  function PrintMembers(members: seq<Member>): string
    decreases members, 0
  {
    if members == [] then []
    else if |members| == 1 then PrintMember(members[0])
    else PrintMember(members[0]) + [','] + PrintMembers(members[1..])
  }

  function Print(v: Value): string
    decreases v, 1
  {
    match v
    case Text(text) => Quote(text)
    case Object(members) => ['{'] + PrintMembers(members) + ['}']
  }

  lemma HexByNumber(d: nat)
    requires d < 16
    ensures HexDigit(d) == "0123456789abcdef"[d]
  {}

  /** A byte is escaped as section 7 of RFC 8259 has it: with a letter where there is one, else by its number. */
  lemma EscapeByNumber(c: char)
    requires c as int < 0x100
    ensures Escape([c]) == match c as int
                           case 8 => "\\b" case 9 => "\\t" case 10 => "\\n" case 12 => "\\f" case 13 => "\\r"
                           case 34 => "\\\"" case 92 => "\\\\"
                           case n => if n >= 32 then [c]
                                     else "\\u00" + ["0123456789abcdef"[n / 16], "0123456789abcdef"[n % 16]]
  {
    assert [c][1..] == [];
    if c as int < 32 {
      HexByNumber(c as int / 16);
      HexByNumber(c as int % 16);
    }
  }

  // ---------- reading ----------

  function HexValue(c: char): Option<nat> {
    if '0' <= c <= '9' then Some(c as int - '0' as int)
    else if 'a' <= c <= 'f' then Some(c as int - 'a' as int + 10)
    else if 'A' <= c <= 'F' then Some(c as int - 'A' as int + 10)
    else None
  }

  function UnescapeCodePoint(s: string): (r: Option<(char, string)>)
    requires |s| >= 5
    ensures r.Some? ==> |r.value.1| < |s|
  {
    var a, b, c, d := HexValue(s[1]), HexValue(s[2]), HexValue(s[3]), HexValue(s[4]);
    if a == Some(0) && b == Some(0) && c.Some? && d.Some? && c.value < 8
    then Some(((c.value * 16 + d.value) as char, s[5..]))
    else None
  }

  // What follows a backslash: the byte it stands for and the rest.  Code points above 0x7f have no single byte.
  function Unescape(s: string): (r: Option<(char, string)>)
    ensures r.Some? ==> |r.value.1| < |s|
  {
    if s == [] then None
    else if s[0] == '"' || s[0] == '\\' || s[0] == '/' then Some((s[0], s[1..]))
    else if s[0] == 'b' then Some((0x08 as char, s[1..]))
    else if s[0] == 'f' then Some((0x0C as char, s[1..]))
    else if s[0] == 'n' then Some(('\n', s[1..]))
    else if s[0] == 'r' then Some(('\r', s[1..]))
    else if s[0] == 't' then Some(('\t', s[1..]))
    else if s[0] == 'u' && |s| >= 5 then UnescapeCodePoint(s)
    else None
  }

  // The rest of a string after its opening quotation mark.
  function ReadText(s: string): (r: Option<(string, string)>)
    ensures r.Some? ==> |r.value.1| < |s|
    decreases |s|
  {
    if s == [] then None
    else if s[0] == '"' then Some(([], s[1..]))
    else if s[0] == '\\' then
      var e := Unescape(s[1..]);
      if e.None? then None
      else
        var rest := ReadText(e.value.1);
        if rest.None? then None else Some(([e.value.0] + rest.value.0, rest.value.1))
    else if s[0] as int < 0x20 then None
    else
      var rest := ReadText(s[1..]);
      if rest.None? then None else Some(([s[0]] + rest.value.0, rest.value.1))
  }

  function ReadQuoted(s: string): (r: Option<(string, string)>)
    ensures r.Some? ==> |r.value.1| < |s|
  {
    if s == [] || s[0] != '"' then None else ReadText(s[1..])
  }

  // One member, up to and without what follows its value.
  function ReadMember(s: string): (r: Option<(Member, string)>)
    ensures r.Some? ==> |r.value.1| < |s|
    decreases |s|, 1
  {
    var key := ReadQuoted(s);
    if key.None? || key.value.1 == [] || key.value.1[0] != ':' then None
    else
      var value := ReadValue(key.value.1[1..]);
      if value.None? then None else Some((Member(key.value.0, value.value.0), value.value.1))
  }

  // At least one member, up to and with the closing brace.
  function ReadMembers(s: string): (r: Option<(seq<Member>, string)>)
    ensures r.Some? ==> |r.value.1| < |s|
    decreases |s|, 2
  {
    var m := ReadMember(s);
    if m.None? || m.value.1 == [] then None
    else if m.value.1[0] == '}' then Some(([m.value.0], m.value.1[1..]))
    else if m.value.1[0] == ',' then
      var rest := ReadMembers(m.value.1[1..]);
      if rest.None? then None else Some(([m.value.0] + rest.value.0, rest.value.1))
    else None
  }

  function ReadValue(s: string): (r: Option<(Value, string)>)
    ensures r.Some? ==> |r.value.1| < |s|
    decreases |s|, 0
  {
    if s == [] then None
    else if s[0] == '"' then
      var t := ReadQuoted(s);
      if t.None? then None else Some((Text(t.value.0), t.value.1))
    else if s[0] == '{' then
      if |s| >= 2 && s[1] == '}' then Some((Object([]), s[2..]))
      else
        var m := ReadMembers(s[1..]);
        if m.None? then None else Some((Object(m.value.0), m.value.1))
    else None
  }

  lemma PrintedPair(m: Member)
    ensures PrintMember(m) == Quote(m.key) + ":" + Print(m.value)
  {}

  /** The punctuation of strings and objects. */
  lemma PrintedObject(m: Member, n: Member)
    ensures Quote(m.key) == "\"" + Escape(m.key) + "\""
    ensures PrintMember(m) == Quote(m.key) + ":" + Print(m.value)
    ensures Print(Object([])) == "{}" && Print(Object([m])) == "{" + PrintMember(m) + "}"
    ensures PrintMembers([m, n]) == PrintMember(m) + "," + PrintMember(n)
  {
    hide PrintMember;
    assert [m, n][1..] == [n];
    PrintedPair(m);
  }

  // ---------- reading undoes writing ----------

  lemma HexRoundTrip(d: nat)
    requires d < 16
    ensures HexValue(HexDigit(d)) == Some(d)
  {}

  lemma UnescapeEscaped(c: char, tail: string)
    requires EscapeChar(c)[0] == '\\'
    ensures Unescape(EscapeChar(c)[1..] + tail) == Some((c, tail))
  {
    var e := EscapeChar(c);
    var s := e[1..] + tail;
    if |e| == 2 {
      assert s[1..] == tail;
    } else {
      var n := c as int;
      assert s[5..] == tail;
      HexRoundTrip(n / 16);
      HexRoundTrip(n % 16);
      assert n / 16 * 16 + n % 16 == n;
    }
  }

  lemma ReadEscapedChar(c: char, tail: string)
    requires ReadText(tail).Some?
    ensures ReadText(EscapeChar(c) + tail)
         == Some(([c] + ReadText(tail).value.0, ReadText(tail).value.1))
  {
    var e := EscapeChar(c);
    var s := e + tail;
    if e[0] == '\\' {
      UnescapeEscaped(c, tail);
      assert s[1..] == e[1..] + tail;
    } else {
      assert s[1..] == tail;
    }
  }

  /** The reader undoes the escaping of every string. */
  lemma {:induction false} ReadEscaped(v: string, rest: string)
    ensures ReadText(Escape(v) + ['"'] + rest) == Some((v, rest))
    decreases |v|
  {
    if v == [] {
      assert Escape(v) + ['"'] + rest == ['"'] + rest;
    } else {
      var tail := Escape(v[1..]) + ['"'] + rest;
      ReadEscaped(v[1..], rest);
      ReadEscapedChar(v[0], tail);
      assert Escape(v) + ['"'] + rest == EscapeChar(v[0]) + tail;
      assert [v[0]] + v[1..] == v;
    }
  }

  lemma ReadQuote(v: string, rest: string)
    ensures ReadQuoted(Quote(v) + rest) == Some((v, rest))
  {
    ReadEscaped(v, rest);
    assert (Quote(v) + rest)[1..] == Escape(v) + ['"'] + rest;
  }

  lemma NoMembers()
    ensures PrintMembers([]) == []
  {}

  lemma QuoteStarts(text: string, rest: string)
    ensures |Quote(text) + rest| > 0 && (Quote(text) + rest)[0] == '"'
  {}

  lemma MembersStart(members: seq<Member>, rest: string)
    requires members != []
    ensures |PrintMembers(members) + rest| > 0 && (PrintMembers(members) + rest)[0] == '"'
  {}

  lemma Regroup(first: string, others: string, rest: string)
    ensures (first + [','] + others) + ['}'] + rest == first + ([','] + (others + ['}'] + rest))
  {}

  lemma {:induction false} ReadPrintedMember(m: Member, rest: string)
    ensures ReadMember(PrintMember(m) + rest) == Some((m, rest))
    decreases m, 2
  {
    hide ReadQuoted, Quote, ReadValue, Print;
    var afterKey := [':'] + (Print(m.value) + rest);
    assert PrintMember(m) + rest == Quote(m.key) + afterKey;
    ReadQuote(m.key, afterKey);
    ReadPrinted(m.value, rest);
    assert afterKey[1..] == Print(m.value) + rest;
  }

  lemma {:induction false} ReadPrintedMembers(members: seq<Member>, rest: string)
    requires members != []
    ensures ReadMembers(PrintMembers(members) + ['}'] + rest) == Some((members, rest))
    decreases members, 0
  {
    hide ReadMember, PrintMember;
    if |members| == 1 {
      var tail := ['}'] + rest;
      ReadPrintedMember(members[0], tail);
      assert PrintMembers(members) + ['}'] + rest == PrintMember(members[0]) + tail;
      assert tail[1..] == rest && members == [members[0]];
    } else {
      var inner := PrintMembers(members[1..]) + ['}'] + rest;
      var tail := [','] + inner;
      ReadPrintedMembers(members[1..], rest);
      ReadPrintedMember(members[0], tail);
      Regroup(PrintMember(members[0]), PrintMembers(members[1..]), rest);
      assert tail[1..] == inner && members == [members[0]] + members[1..];
    }
  }

  /** The reader undoes the printing of every value, whatever follows it. */
  lemma {:induction false} ReadPrinted(v: Value, rest: string)
    ensures ReadValue(Print(v) + rest) == Some((v, rest))
    decreases v, 1
  {
    hide ReadQuoted, Quote, PrintMembers, ReadMembers;
    match v
    case Text(text) =>
      ReadQuote(text, rest);
      QuoteStarts(text, rest);
    case Object(members) =>
      var s := Print(v) + rest;
      if members == [] {
        NoMembers();
        assert s == ['{', '}'] + rest && s[2..] == rest;
      } else {
        ReadPrintedMembers(members, rest);
        MembersStart(members, ['}'] + rest);
        assert s[1..] == PrintMembers(members) + ['}'] + rest;
        assert s[1..] == PrintMembers(members) + (['}'] + rest);
      }
  }

  lemma PrintIsInjective(v: Value, w: Value)
    requires Print(v) == Print(w)
    ensures v == w
  {
    ReadPrinted(v, []);
    ReadPrinted(w, []);
  }

  // ---------- no control bytes ----------

  predicate Visible(s: string) { forall i :: 0 <= i < |s| ==> s[i] as int >= 0x20 }

  lemma VisibleAppend(a: string, b: string)
    requires Visible(a) && Visible(b)
    ensures Visible(a + b)
  {}

  lemma {:induction false} EscapeIsVisible(s: string)
    ensures Visible(Escape(s))
    decreases |s|
  {
    if s == [] {
    } else {
      EscapeIsVisible(s[1..]);
      VisibleAppend(EscapeChar(s[0]), Escape(s[1..]));
    }
  }

  lemma QuoteIsVisible(s: string)
    ensures Visible(Quote(s))
  {
    EscapeIsVisible(s);
  }

  lemma {:induction false} MembersAreVisible(members: seq<Member>)
    ensures Visible(PrintMembers(members))
    decreases members, 0
  {
    hide Quote, Print;
    if members == [] {
    } else {
      var m := members[0];
      QuoteIsVisible(m.key);
      PrintIsVisible(m.value);
      assert Visible(PrintMember(m));
      if |members| > 1 { MembersAreVisible(members[1..]); }
    }
  }

  /** Printed values contain no byte below 0x20, hence no newline. */
  lemma {:induction false} PrintIsVisible(v: Value)
    ensures Visible(Print(v)) && '\n' !in Print(v)
    decreases v, 1
  {
    match v
    case Text(text) => QuoteIsVisible(text);
    case Object(members) => MembersAreVisible(members);
  }
}
