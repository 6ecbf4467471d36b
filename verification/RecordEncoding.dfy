/**
 The text of the pending-activation record: what is written is what is read back.
 */
module RecordEncoding {
  import opened Basics
  import opened Identifiers
  import opened Text
  import opened ActivationProtocol

  const FORMAT_HEADER := "gatehold-activation-v1"
  const MAXIMUM_RECORD_SIZE := 1024

  predicate ValidTransaction(t: Pending) {
    && ValidIdentifier(t.op)
    && 0 < t.target < UINT64_LIMIT && 0 < t.rollback < UINT64_LIMIT
    && t.target != t.rollback
  }

  function PhaseName(p: Phase): string {
    match p
    case PreparedForLoad => "prepared_for_load"
    case TargetLoaded => "target_loaded"
    case Verified => "verified"
    case AwaitingConfirmation => "awaiting_confirmation"
    case Committing => "committing"
    case Committed => "committed"
  }

  function ParsePhase(s: string): Option<Phase> {
    if s == "prepared_for_load" then Some(PreparedForLoad)
    else if s == "target_loaded" then Some(TargetLoaded)
    else if s == "verified" then Some(Verified)
    else if s == "awaiting_confirmation" then Some(AwaitingConfirmation)
    else if s == "committing" then Some(Committing)
    else if s == "committed" then Some(Committed)
    else None
  }

  // The texts of the two revision numbers.
  datatype Numerals = Numerals(target: string, rollback: string)

  function LinesWith(t: Pending, n: Numerals): seq<string> {
    [FORMAT_HEADER,
     "operation_id=" + t.op,
     "target_revision=" + n.target,
     "rollback_revision=" + n.rollback,
     "phase=" + PhaseName(t.phase)]
  }

  function Printed(t: Pending): Numerals { Numerals(Print(t.target), Print(t.rollback)) }

  function RecordLines(t: Pending): seq<string> { LinesWith(t, Printed(t)) }

  // The lines, each ended by a newline.
  function Serialize(t: Pending): string { Join(RecordLines(t)) }

  function ParseRevision(s: string): Option<nat> {
    match ParseUint64(s)
    case Some(n) => if n > 0 then Some(n) else None
    case None => None
  }

  function ParseFields(lines: seq<string>): Option<Pending>
    requires |lines| == 5
  {
    var op := After(lines[1], "operation_id=");
    var target := After(lines[2], "target_revision=");
    var rollback := After(lines[3], "rollback_revision=");
    var phase := After(lines[4], "phase=");
    if lines[0] != FORMAT_HEADER || op.None? || target.None? || rollback.None? || phase.None? then None
    else
      var targetRevision := ParseRevision(target.value);
      var rollbackRevision := ParseRevision(rollback.value);
      var parsedPhase := ParsePhase(phase.value);
      if targetRevision.None? || rollbackRevision.None? || parsedPhase.None? then None
      else
        var t := Pending(op.value, targetRevision.value, rollbackRevision.value, parsedPhase.value);
        if ValidTransaction(t) then Some(t) else None
  }

  // A record is exactly five lines.
  function Parse(content: string): Option<Pending> {
    match Lines(content)
    case Some(lines) => if |lines| == 5 then ParseFields(lines) else None
    case None => None
  }

  // What `load` makes of the bytes of a record file.
  function ReadRecord(content: string): Option<Pending> {
    if 0 < |content| <= MAXIMUM_RECORD_SIZE then Parse(content) else None
  }

  // ---------- round trips ----------

  lemma ParseRevisionPrint(n: nat)
    requires 0 < n < UINT64_LIMIT
    ensures ParseRevision(Print(n)) == Some(n)
  {
    ParsePrint(n);
  }

  lemma ParsePhaseName(p: Phase)
    ensures ParsePhase(PhaseName(p)) == Some(p) && '\n' !in PhaseName(p) && 8 <= |PhaseName(p)| <= 21
  {
    match p
    case PreparedForLoad => assert PhaseName(p)[0] == 'p';
    case TargetLoaded => assert PhaseName(p)[0] == 't';
    case Verified => assert PhaseName(p)[0] == 'v';
    case AwaitingConfirmation => assert PhaseName(p)[0] == 'a';
    case Committing => assert |PhaseName(p)| == 10;
    case Committed => assert |PhaseName(p)| == 9;
  }

  predicate Denote(n: Numerals, t: Pending) {
    ParseRevision(n.target) == Some(t.target) && ParseRevision(n.rollback) == Some(t.rollback)
  }

  lemma PrintedDenote(t: Pending)
    requires ValidTransaction(t)
    ensures Denote(Printed(t), t)
  {
    ParseRevisionPrint(t.target);
    ParseRevisionPrint(t.rollback);
  }

  lemma LinesWithAreLines(t: Pending, n: Numerals)
    requires ValidTransaction(t) && Denote(n, t)
    ensures SingleLines(LinesWith(t, n))
  {
    hide PhaseName;
    DigitsAreOneLine(n.target);
    DigitsAreOneLine(n.rollback);
    ParsePhaseName(t.phase);
    StaysOneLine("operation_id=", t.op);
    StaysOneLine("target_revision=", n.target);
    StaysOneLine("rollback_revision=", n.rollback);
    StaysOneLine("phase=", PhaseName(t.phase));
  }

  lemma FieldsOfLines(t: Pending, n: Numerals)
    requires ValidTransaction(t) && Denote(n, t)
    ensures ParseFields(LinesWith(t, n)) == Some(t)
  {
    AfterPrefix("operation_id=", t.op);
    AfterPrefix("target_revision=", n.target);
    AfterPrefix("rollback_revision=", n.rollback);
    AfterPrefix("phase=", PhaseName(t.phase));
    ParsePhaseName(t.phase);
  }

  lemma RecordLinesAreLines(t: Pending)
    requires ValidTransaction(t)
    ensures SingleLines(RecordLines(t))
  {
    PrintedDenote(t);
    LinesWithAreLines(t, Printed(t));
  }

  lemma FieldsOfRecord(t: Pending)
    requires ValidTransaction(t)
    ensures ParseFields(RecordLines(t)) == Some(t)
  {
    PrintedDenote(t);
    FieldsOfLines(t, Printed(t));
  }

  lemma FiveLines(t: Pending)
    ensures |RecordLines(t)| == 5
  {}

  lemma JoinFiveLength(l: seq<string>)
    requires |l| == 5
    ensures |Join(l)| == |l[0]| + |l[1]| + |l[2]| + |l[3]| + |l[4]| + 5
  {
    assert l[4..][1..] == [] && l[3..][1..] == l[4..] && l[2..][1..] == l[3..] && l[1..][1..] == l[2..];
    assert |Join(l[4..])| == |l[4]| + 1;
    assert |Join(l[3..])| == |l[3]| + 1 + |Join(l[4..])|;
    assert |Join(l[2..])| == |l[2]| + 1 + |Join(l[3..])|;
    assert |Join(l[1..])| == |l[1]| + 1 + |Join(l[2..])|;
  }

  lemma RecordSize(t: Pending)
    requires ValidTransaction(t)
    ensures 0 < |Serialize(t)| <= 269
  {
    JoinFiveLength(RecordLines(t));
    PrintUint64Length(t.target);
    PrintUint64Length(t.rollback);
    ParsePhaseName(t.phase);
  }

  /** Reading a written record gives the transaction back, and the record is well below the size `load` accepts. */
  lemma ReadSerialized(t: Pending)
    requires ValidTransaction(t)
    ensures Parse(Serialize(t)) == Some(t) && ReadRecord(Serialize(t)) == Some(t)
    ensures 0 < |Serialize(t)| <= 269
  {
    hide ParseFields, RecordLines, Lines;
    RecordLinesAreLines(t);
    LinesOfJoin(RecordLines(t));
    FieldsOfRecord(t);
    RecordSize(t);
    assert |RecordLines(t)| == 5 by { FiveLines(t); }
  }

  /** Whatever is accepted is a valid transaction, and rewriting it keeps it. */
  lemma ParseIsStable(content: string)
    requires Parse(content).Some?
    ensures ValidTransaction(Parse(content).value)
    ensures Parse(Serialize(Parse(content).value)) == Parse(content)
  {
    ReadSerialized(Parse(content).value);
  }

  // ---------- which texts read the same ----------

  lemma FieldIs(line: string, key: string)
    requires After(line, key).Some?
    ensures line == key + After(line, key).value
  {
    assert line == line[..|key|] + line[|key|..];
  }

  lemma PhaseNameOf(s: string)
    requires ParsePhase(s).Some?
    ensures s == PhaseName(ParsePhase(s).value)
  {}

  lemma ParsedLines(lines: seq<string>, t: Pending) returns (n: Numerals)
    requires |lines| == 5 && ParseFields(lines) == Some(t)
    ensures ValidTransaction(t) && Denote(n, t) && lines == LinesWith(t, n)
  {
    hide After, PhaseName, ParsePhase, ParseRevision, ValidTransaction;
    n := Numerals(After(lines[2], "target_revision=").value, After(lines[3], "rollback_revision=").value);
    FieldIs(lines[1], "operation_id=");
    FieldIs(lines[2], "target_revision=");
    FieldIs(lines[3], "rollback_revision=");
    FieldIs(lines[4], "phase=");
    PhaseNameOf(After(lines[4], "phase=").value);
    assert lines == [lines[0], lines[1], lines[2], lines[3], lines[4]];
  }

  lemma PrintedParses(t: Pending, n: Numerals)
    requires ValidTransaction(t) && Denote(n, t)
    ensures Parse(Join(LinesWith(t, n))) == Some(t)
  {
    hide ParseFields, Lines, Join, Denote, ValidTransaction;
    LinesWithAreLines(t, n);
    LinesOfJoin(LinesWith(t, n));
    FieldsOfLines(t, n);
  }

  /** A text reads as a transaction exactly if the transaction is valid and the text is its five lines, with any
      numerals for the two revisions. */
  lemma ParseIsExact(content: string, t: Pending)
    ensures Parse(content) == Some(t) <==>
              ValidTransaction(t) && exists n :: Denote(n, t) && content == Join(LinesWith(t, n))
  {
    hide ParseFields, Lines, Join, Denote, ValidTransaction, LinesWith;
    if Parse(content) == Some(t) {
      var n := ParsedLines(Lines(content).value, t);
      JoinOfLines(content);
    }
    if ValidTransaction(t) && exists n :: Denote(n, t) && content == Join(LinesWith(t, n)) {
      var n :| Denote(n, t) && content == Join(LinesWith(t, n));
      PrintedParses(t, n);
    }
  }

  // ---------- what a record says ----------

  // The value a line gives to a key: what follows the first '=' of the first line whose key it is.
  function Lookup(lines: seq<string>, key: string): Option<string> {
    if lines == [] then None
    else
      var k := Find(lines[0], '=');
      if k < |lines[0]| && lines[0][..k] == key then Some(lines[0][k + 1..]) else Lookup(lines[1..], key)
  }

  lemma LookupHere(key: string, value: string, rest: seq<string>)
    requires '=' !in key
    ensures Lookup([key + ['='] + value] + rest, key) == Some(value)
  {
    var line := key + ['='] + value;
    FindInPrefix(key, value, '=');
    assert line[..|key|] == key && line[|key| + 1..] == value;
  }

  lemma LookupLater(other: string, value: string, rest: seq<string>, key: string)
    requires '=' !in other && other != key
    ensures Lookup([other + ['='] + value] + rest, key) == Lookup(rest, key)
  {
    var line := other + ['='] + value;
    FindInPrefix(other, value, '=');
    assert line[..|other|] == other;
    assert ([line] + rest)[1..] == rest;
  }

  lemma LookupPastHeader(header: string, rest: seq<string>, key: string)
    requires '=' !in header
    ensures Lookup([header] + rest, key) == Lookup(rest, key)
  {
    assert ([header] + rest)[1..] == rest;
  }

  function Labelled(key: string, value: string): string { key + ['='] + value }

  lemma LookupFour(header: string, a: string, b: string, c: string, d: string, v: seq<string>)
    requires |v| == 4 && forall k | k in {header, a, b, c, d} :: '=' !in k
    requires a != b && a != c && a != d && b != c && b != d && c != d
    ensures var lines := [header, Labelled(a, v[0]), Labelled(b, v[1]), Labelled(c, v[2]), Labelled(d, v[3])];
            && Lookup(lines, a) == Some(v[0]) && Lookup(lines, b) == Some(v[1])
            && Lookup(lines, c) == Some(v[2]) && Lookup(lines, d) == Some(v[3])
  {
    hide Lookup;
    var one := [Labelled(d, v[3])];
    var two := [Labelled(c, v[2])] + one;
    var three := [Labelled(b, v[1])] + two;
    var four := [Labelled(a, v[0])] + three;
    assert one == one + [];
    forall key ensures Lookup([header] + four, key) == Lookup(four, key) { LookupPastHeader(header, four, key); }
    forall key: string | key != a ensures Lookup(four, key) == Lookup(three, key) {
      LookupLater(a, v[0], three, key);
    }
    forall key: string | key != b ensures Lookup(three, key) == Lookup(two, key) { LookupLater(b, v[1], two, key); }
    LookupLater(c, v[2], one, d);
    LookupHere(a, v[0], three);
    LookupHere(b, v[1], two);
    LookupHere(c, v[2], one);
    LookupHere(d, v[3], []);
    assert [header] + four
        == [header, Labelled(a, v[0]), Labelled(b, v[1]), Labelled(c, v[2]), Labelled(d, v[3])];
  }

  lemma KeysDiffer()
    ensures "operation_id" != "target_revision" && "operation_id" != "rollback_revision" && "operation_id" != "phase"
    ensures "target_revision" != "rollback_revision" && "target_revision" != "phase" && "rollback_revision" != "phase"
  {
    assert |"operation_id"| == 12 && |"target_revision"| == 15 && |"rollback_revision"| == 17 && |"phase"| == 5;
  }

  lemma LinesAreLabelled(t: Pending, n: Numerals)
    ensures LinesWith(t, n)
         == ["gatehold-activation-v1", Labelled("operation_id", t.op), Labelled("target_revision", n.target),
             Labelled("rollback_revision", n.rollback), Labelled("phase", PhaseName(t.phase))]
  {
    assert "operation_id" + ['='] == "operation_id=" && "target_revision" + ['='] == "target_revision=";
    assert "rollback_revision" + ['='] == "rollback_revision=" && "phase" + ['='] == "phase=";
  }

  lemma PhasesByName(p: Phase)
    ensures PhaseName(p) == "prepared_for_load" <==> p == PreparedForLoad
    ensures PhaseName(p) == "target_loaded" <==> p == TargetLoaded
    ensures PhaseName(p) == "verified" <==> p == Verified
    ensures PhaseName(p) == "awaiting_confirmation" <==> p == AwaitingConfirmation
    ensures PhaseName(p) == "committing" <==> p == Committing
    ensures PhaseName(p) == "committed" <==> p == Committed
  {
    ParsePhaseName(p);
  }

  /** A text that reads as a transaction is headed by the format and gives each key its value. */
  lemma RecordSays(content: string, t: Pending) returns (lines: seq<string>)
    requires Parse(content) == Some(t)
    ensures Lines(content) == Some(lines) && |lines| == 5 && lines[0] == "gatehold-activation-v1"
    ensures Lookup(lines, "operation_id") == Some(t.op)
    ensures var target := Lookup(lines, "target_revision"); target.Some? && ParseUint64(target.value) == Some(t.target)
    ensures var rollback := Lookup(lines, "rollback_revision");
            rollback.Some? && ParseUint64(rollback.value) == Some(t.rollback)
    ensures Lookup(lines, "phase") == Some("prepared_for_load") <==> t.phase == PreparedForLoad
    ensures Lookup(lines, "phase") == Some("target_loaded") <==> t.phase == TargetLoaded
    ensures Lookup(lines, "phase") == Some("verified") <==> t.phase == Verified
    ensures Lookup(lines, "phase") == Some("awaiting_confirmation") <==> t.phase == AwaitingConfirmation
    ensures Lookup(lines, "phase") == Some("committing") <==> t.phase == Committing
    ensures Lookup(lines, "phase") == Some("committed") <==> t.phase == Committed
  {
    hide ParseFields, Lines, Lookup, PhaseName, ParseUint64, Labelled;
    lines := Lines(content).value;
    var n := ParsedLines(lines, t);
    LinesAreLabelled(t, n);
    KeysDiffer();
    LookupFour("gatehold-activation-v1", "operation_id", "target_revision", "rollback_revision", "phase",
               [t.op, n.target, n.rollback, PhaseName(t.phase)]);
    PhasesByName(t.phase);
  }

  // Without superfluous leading zeros.
  predicate Minimal(numeral: string) { |numeral| == 1 || (|numeral| > 1 && numeral[0] != '0') }

  lemma NumeralIsPrinted(numeral: string, n: nat)
    requires ParseRevision(numeral) == Some(n)
    ensures numeral == Print(n) <==> Minimal(numeral)
  {
    PrintIsDecimal(n);
    if Minimal(numeral) { PrintOfValue(numeral); }
  }

  lemma SameNumerals(t: Pending, m: Numerals, n: Numerals)
    requires LinesWith(t, m) == LinesWith(t, n)
    ensures m == n
  {
    AfterPrefix("target_revision=", m.target);
    AfterPrefix("target_revision=", n.target);
    AfterPrefix("rollback_revision=", m.rollback);
    AfterPrefix("rollback_revision=", n.rollback);
    assert LinesWith(t, m)[2] == LinesWith(t, n)[2] && LinesWith(t, m)[3] == LinesWith(t, n)[3];
  }

  /** A record's text is the one that is written exactly if neither numeral has a superfluous leading zero. */
  lemma CanonicalExactly(t: Pending, n: Numerals)
    requires ValidTransaction(t) && Denote(n, t)
    ensures Join(LinesWith(t, n)) == Serialize(t) <==> Minimal(n.target) && Minimal(n.rollback)
  {
    hide ParseRevision, Join, Minimal, ValidTransaction, Print;
    NumeralIsPrinted(n.target, t.target);
    NumeralIsPrinted(n.rollback, t.rollback);
    if Join(LinesWith(t, n)) == Serialize(t) {
      LinesWithAreLines(t, n);
      RecordLinesAreLines(t);
      LinesOfJoin(LinesWith(t, n));
      LinesOfJoin(RecordLines(t));
      SameNumerals(t, n, Printed(t));
    }
  }

  lemma LeadingZero(s: string, n: nat)
    requires ParseRevision(s) == Some(n)
    ensures ParseRevision("0" + s) == Some(n) && !Minimal("0" + s)
  {
    ZeroPrefix(s);
  }

  /** So the text need not be canonical: with a leading zero before the target revision every record reads the same and
      is not what would be written. */
  lemma NotCanonical(t: Pending) returns (content: string)
    requires ValidTransaction(t)
    ensures content == Join(LinesWith(t, Numerals("0" + Print(t.target), Print(t.rollback))))
    ensures Parse(content) == Some(t) && content != Serialize(t)
  {
    hide ParseRevision, Join, ValidTransaction, Parse, Serialize, Minimal;
    var n := Numerals("0" + Print(t.target), Print(t.rollback));
    PrintedDenote(t);
    LeadingZero(Print(t.target), t.target);
    PrintedParses(t, n);
    CanonicalExactly(t, n);
    content := Join(LinesWith(t, n));
  }

  lemma NothingRead(content: string)
    ensures content == Join([]) + content[0..]
  {}

  lemma SomeLines(s: string)
    requires s != [] && Lines(s).Some?
    ensures |Lines(s).value| > 0
  {}

  // A rest that is left over makes more lines, or none.
  lemma ReadAll(content: string, lines: seq<string>, position: nat)
    requires position <= |content| && (position < |content| ==> |lines| == 5) && |lines| <= 5
    requires var rest := Lines(content[position..]);
             if rest.Some? then Lines(content) == Some(lines + rest.value) else Lines(content).None?
    ensures Parse(content) == if |lines| == 5 && position == |content| then ParseFields(lines) else None
  {
    hide Lines, ParseFields;
    var rest := content[position..];
    NoLines();
    if rest == [] {
      assert lines + [] == lines;
    } else if Lines(rest).Some? {
      SomeLines(rest);
      assert |lines + Lines(rest).value| > 5;
    }
  }

  /** The reading loop: five lines by position, nothing after them. */
  method ParseRecord(content: string) returns (t: Option<Pending>)
    ensures t == Parse(content)
  {
    hide Lines, ParseFields, Join, Find;
    var lines: seq<string> := [];
    var position := 0;
    NothingRead(content);
    while position < |content| && |lines| < 5
      invariant position <= |content| && |lines| <= 5
      invariant SingleLines(lines) && content == Join(lines) + content[position..]
      decreases |content| - position
    {
      var end := Find(content[position..], '\n');
      LinesAppend(lines, content[position..]);
      if end == |content| - position {
        NoNewline(content[position..]);
        return None;
      }
      var line := content[position..position + end];
      NextLine(content, lines, position, end);
      lines := lines + [line];
      position := position + end + 1;
    }
    LinesAppend(lines, content[position..]);
    ReadAll(content, lines, position);
    if |lines| != 5 || position != |content| { return None; }
    return ParseFields(lines);
  }
}
