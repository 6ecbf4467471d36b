/**
 The requests of the local controller protocol: lines of text in a frame's payload.
 */
module ControllerRequests {
  import opened Basics
  import opened Identifiers
  import opened Text
  import opened ActivationRequests

  const PROTOCOL := "gatehold-controller-v1"

  datatype Request = Status(requestId: string) | Activate(requestId: string, activation: ActivationRequest)

  // Malformed is event GH-IPC-1002, Unsupported is GH-IPC-1003.
  datatype ParseResult = Accepted(request: Request) | Malformed | Unsupported

  // ---------- lines ----------

  predicate AcceptableLine(line: string) { line != [] && '\n' !in line && '\r' !in line && '\0' !in line }

  predicate AcceptableLines(lines: seq<string>) { forall i :: 0 <= i < |lines| ==> AcceptableLine(lines[i]) }

  function SplitLines(payload: string): Option<seq<string>> {
    if payload == [] then None
    else
      match Lines(payload)
      case Some(lines) => if AcceptableLines(lines) then Some(lines) else None
      case None => None
  }

  lemma AcceptableAreSingle(lines: seq<string>)
    requires AcceptableLines(lines)
    ensures SingleLines(lines)
  {}

  lemma JoinIsNonEmpty(lines: seq<string>)
    requires lines != []
    ensures Join(lines) != []
  {}

  lemma JoinOfNone(lines: seq<string>)
    ensures lines == [] ==> Join(lines) == []
  {}

  /** Splitting and joining are inverse on exactly the non-empty sequences of acceptable lines. */
  lemma SplitIsInverse(payload: string, lines: seq<string>)
    ensures SplitLines(payload) == Some(lines) <==>
              lines != [] && AcceptableLines(lines) && payload == Join(lines)
  {
    hide Lines, Join, AcceptableLine;
    if lines != [] && AcceptableLines(lines) && payload == Join(lines) {
      AcceptableAreSingle(lines);
      LinesOfJoin(lines);
      JoinIsNonEmpty(lines);
    }
    if SplitLines(payload) == Some(lines) {
      JoinOfLines(payload);
      JoinOfNone(lines);
    }
  }

  lemma {:induction false} LastByte(s: string)
    requires s != [] && s[|s| - 1] != '\n'
    ensures Lines(s).None?
    decreases |s|
  {
    var k := Find(s, '\n');
    if k == |s| {
    } else {
      LastByte(s[k + 1..]);
    }
  }

  // One line that is not acceptable spoils the payload.
  lemma BadLine(payload: string, found: seq<string>, line: string, next: nat)
    requires next <= |payload| && AcceptableLines(found) && '\n' !in line && !AcceptableLine(line)
    requires payload == Join(found + [line]) + payload[next..]
    ensures SplitLines(payload) == None
  {
    hide Lines, Join, AcceptableLine;
    AcceptableAreSingle(found);
    LinesAppend(found + [line], payload[next..]);
    if Lines(payload).Some? {
      assert Lines(payload).value[|found|] == line;
    }
  }

  lemma AllRead(payload: string, found: seq<string>)
    requires payload != [] && AcceptableLines(found) && payload == Join(found) + payload[|payload|..]
    ensures SplitLines(payload) == Some(found)
  {
    assert payload == Join(found);
    SplitIsInverse(payload, found);
  }

  /** The splitting loop over offsets. */
  method SplitPayload(payload: string) returns (lines: Option<seq<string>>)
    ensures lines == SplitLines(payload)
  {
    hide Lines, Join, Find, AcceptableLine;
    if payload == [] || payload[|payload| - 1] != '\n' {
      if payload != [] { LastByte(payload); }
      return None;
    }
    var found: seq<string> := [];
    var offset: nat := 0;
    JoinOfNone([]);
    while offset < |payload|
      invariant offset <= |payload| && AcceptableLines(found)
      invariant payload == Join(found) + payload[offset..]
    {
      var end := Find(payload[offset..], '\n');
      AcceptableAreSingle(found);
      LinesAppend(found, payload[offset..]);
      if end == |payload| - offset {
        assert false;
      }
      var line := payload[offset..offset + end];
      NextLine(payload, found, offset, end);
      if !AcceptableLine(line) {
        BadLine(payload, found, line, offset + end + 1);
        return None;
      }
      found := found + [line];
      offset := offset + end + 1;
    }
    AllRead(payload, found);
    lines := Some(found);
  }

  // ---------- parsing ----------

  function FieldValue(line: string, key: string): Option<string> { After(line, key + "=") }

  function ParseNumbers(requestId: string, operationId: string, reference: string, revision: Option<nat>,
                        probeTimeout: Option<nat>, confirmationTimeout: Option<nat>): ParseResult {
    if revision.None? || revision.value == 0
       || probeTimeout.None?
       || probeTimeout.value < MINIMUM_PROBE_TIMEOUT || probeTimeout.value > MAXIMUM_PROBE_TIMEOUT
       || confirmationTimeout.None?
       || confirmationTimeout.value < MINIMUM_CONFIRMATION_TIMEOUT
       || confirmationTimeout.value > MAXIMUM_CONFIRMATION_TIMEOUT then Malformed
    else
      Accepted(Activate(requestId, ActivationRequest(operationId, revision.value, reference,
                                                     probeTimeout.value, confirmationTimeout.value)))
  }

  function ParseActivation(requestId: string, lines: seq<string>): ParseResult
    requires |lines| == 8
  {
    var operationId := FieldValue(lines[3], "operation_id");
    var revision := FieldValue(lines[4], "revision");
    var reference := FieldValue(lines[5], "authorization_reference");
    var probeTimeout := FieldValue(lines[6], "probe_timeout_ms");
    var confirmationTimeout := FieldValue(lines[7], "confirmation_timeout_ms");
    if operationId.None? || !ValidIdentifier(operationId.value) || revision.None?
       || reference.None? || !ValidIdentifier(reference.value)
       || probeTimeout.None? || confirmationTimeout.None? then Malformed
    else
      ParseNumbers(requestId, operationId.value, reference.value,
                   ParseUint64(revision.value), ParseUint64(probeTimeout.value), ParseUint64(confirmationTimeout.value))
  }

  function ParseRequest(payload: string): ParseResult {
    var lines := SplitLines(payload);
    if lines.None? || |lines.value| < 3 then Malformed
    else if lines.value[0] != PROTOCOL then Unsupported
    else
      var requestId := FieldValue(lines.value[1], "request_id");
      var operation := FieldValue(lines.value[2], "operation");
      if requestId.None? || !ValidIdentifier(requestId.value) || operation.None? then Malformed
      else if operation.value == "status" then
        if |lines.value| != 3 then Malformed else Accepted(Status(requestId.value))
      else if operation.value != "activate" then Unsupported
      else if |lines.value| != 8 then Malformed
      else ParseActivation(requestId.value, lines.value)
  }

  // ---------- what is accepted ----------

  ghost predicate ValidControllerRequest(r: Request) {
    && ValidIdentifier(r.requestId)
    && (r.Activate? ==> ValidRequest(r.activation) && r.activation.revision < UINT64_LIMIT)
  }

  // The texts a client may give for the three numbers of an activation.
  datatype Numerals = Numerals(revision: string, probe: string, confirmation: string)

  ghost predicate Denote(n: Numerals, a: ActivationRequest) {
    && ParseUint64(n.revision) == Some(a.revision)
    && ParseUint64(n.probe) == Some(a.probeTimeout)
    && ParseUint64(n.confirmation) == Some(a.confirmationTimeout)
  }

  function Field(key: string, value: string): string { key + "=" + value }

  function RequestLines(r: Request, n: Numerals): seq<string> {
    match r
    case Status(id) => [PROTOCOL, Field("request_id", id), Field("operation", "status")]
    case Activate(id, a) =>
      [PROTOCOL, Field("request_id", id), Field("operation", "activate"),
       Field("operation_id", a.operationId),
       Field("revision", n.revision),
       Field("authorization_reference", a.authorizationReference),
       Field("probe_timeout_ms", n.probe),
       Field("confirmation_timeout_ms", n.confirmation)]
  }

  lemma FieldOfLine(line: string, key: string, value: string)
    ensures FieldValue(line, key) == Some(value) <==> line == Field(key, value)
  {
    AfterPrefix(key + "=", value);
    if FieldValue(line, key) == Some(value) {
      assert line == line[..|key + "="|] + line[|key + "="|..];
    }
  }

  // Parsing the lines of a request, both ways.
  lemma ActivationLines(id: string, lines: seq<string>, a: ActivationRequest, n: Numerals)
    requires |lines| == 8
    requires lines[3..] == RequestLines(Activate(id, a), n)[3..] && Denote(n, a)
    requires ValidRequest(a)
    ensures ParseActivation(id, lines) == Accepted(Activate(id, a))
  {
    hide ValidIdentifier, ParseUint64, FieldValue, Field;
    var printed := RequestLines(Activate(id, a), n);
    assert forall i :: 3 <= i < 8 ==> lines[i] == lines[3..][i - 3] == printed[3..][i - 3] == printed[i];
    FieldOfLine(lines[3], "operation_id", a.operationId);
    FieldOfLine(lines[4], "revision", n.revision);
    FieldOfLine(lines[5], "authorization_reference", a.authorizationReference);
    FieldOfLine(lines[6], "probe_timeout_ms", n.probe);
    FieldOfLine(lines[7], "confirmation_timeout_ms", n.confirmation);
  }

  lemma ActivationAccepted(id: string, lines: seq<string>, r: Request) returns (n: Numerals)
    requires |lines| == 8 && ParseActivation(id, lines) == Accepted(r)
    ensures r.Activate? && r.requestId == id && ValidRequest(r.activation)
    ensures Denote(n, r.activation) && lines[3..] == RequestLines(r, n)[3..]
  {
    hide ValidIdentifier, ParseUint64, FieldValue, Field;
    n := Numerals(FieldValue(lines[4], "revision").value, FieldValue(lines[6], "probe_timeout_ms").value,
                  FieldValue(lines[7], "confirmation_timeout_ms").value);
    var a := r.activation;
    FieldOfLine(lines[3], "operation_id", a.operationId);
    FieldOfLine(lines[4], "revision", n.revision);
    FieldOfLine(lines[5], "authorization_reference", a.authorizationReference);
    FieldOfLine(lines[6], "probe_timeout_ms", n.probe);
    FieldOfLine(lines[7], "confirmation_timeout_ms", n.confirmation);
  }

  lemma HeadLines(lines: seq<string>, id: string, operation: string)
    requires |lines| >= 3
    ensures FieldValue(lines[1], "request_id") == Some(id) <==> lines[1] == Field("request_id", id)
    ensures FieldValue(lines[2], "operation") == Some(operation) <==> lines[2] == Field("operation", operation)
  {
    hide FieldValue, Field;
    FieldOfLine(lines[1], "request_id", id);
    FieldOfLine(lines[2], "operation", operation);
  }

  lemma RevisionIsBounded(n: Numerals, a: ActivationRequest)
    requires Denote(n, a)
    ensures a.revision < UINT64_LIMIT
  {}

  /** An accepted request keeps every bound of the protocol, hence of the activation service, and its payload is its
      printed form up to leading zeros in the three numbers. */
  lemma AcceptedMeansPrinted(payload: string, r: Request) returns (n: Numerals)
    requires ParseRequest(payload) == Accepted(r)
    ensures ValidControllerRequest(r) && AcceptableLines(RequestLines(r, n)) && payload == Join(RequestLines(r, n))
    ensures r.Activate? ==>
              && Denote(n, r.activation) && 1 <= r.activation.revision <= 0xFFFF_FFFF_FFFF_FFFF
              && 100 <= r.activation.probeTimeout <= 60000 && 1000 <= r.activation.confirmationTimeout <= 600000
  {
    hide SplitLines, AcceptableLine, Join, ValidIdentifier, FieldValue, Field;
    var lines := SplitLines(payload).value;
    SplitIsInverse(payload, lines);
    var id := FieldValue(lines[1], "request_id").value;
    HeadLines(lines, id, FieldValue(lines[2], "operation").value);
    n := Numerals("", "", "");
    if r.Activate? {
      n := ActivationAccepted(id, lines, r);
      RevisionIsBounded(n, r.activation);
      assert lines == lines[..3] + lines[3..];
      assert lines == RequestLines(r, n);
    } else {
      assert lines == RequestLines(r, n);
    }
  }

  // Printable and not a space.
  predicate Plain(s: string) { forall i :: 0 <= i < |s| ==> ' ' < s[i] }

  lemma DecimalIsPlain(s: string)
    requires ParseUint64(s).Some?
    ensures Plain(s)
  {}

  lemma IdentifierIsPlain(s: string)
    requires ValidIdentifier(s)
    ensures Plain(s)
  {}

  lemma FieldIsPlain(key: string, value: string)
    requires Plain(key) && Plain(value)
    ensures AcceptableLine(Field(key, value))
  {
    assert forall i :: 0 <= i < |Field(key, value)| ==> ' ' < Field(key, value)[i];
  }

  lemma ProtocolIsAcceptable()
    ensures AcceptableLine(PROTOCOL)
  {
    assert Plain(PROTOCOL);
  }

  lemma LongKeysArePlain()
    ensures Plain("authorization_reference") && Plain("probe_timeout_ms") && Plain("confirmation_timeout_ms")
  {}

  lemma FixedTexts()
    ensures AcceptableLine(PROTOCOL) && Plain("operation") && Plain("status") && Plain("activate")
    ensures Plain("request_id") && Plain("operation_id") && Plain("revision") && Plain("authorization_reference")
    ensures Plain("probe_timeout_ms") && Plain("confirmation_timeout_ms")
  {
    hide AcceptableLine;
    ProtocolIsAcceptable();
    LongKeysArePlain();
  }

  lemma RequestLinesAreAcceptable(r: Request, n: Numerals)
    requires ValidControllerRequest(r) && (r.Activate? ==> Denote(n, r.activation))
    ensures AcceptableLines(RequestLines(r, n))
  {
    hide ValidIdentifier, ParseUint64, AcceptableLine, Plain, Field;
    FixedTexts();
    IdentifierIsPlain(r.requestId);
    FieldIsPlain("request_id", r.requestId);
    if r.Status? {
      FieldIsPlain("operation", "status");
    } else {
      var a := r.activation;
      FieldIsPlain("operation", "activate");
      IdentifierIsPlain(a.operationId);
      IdentifierIsPlain(a.authorizationReference);
      DecimalIsPlain(n.revision);
      DecimalIsPlain(n.probe);
      DecimalIsPlain(n.confirmation);
      FieldIsPlain("operation_id", a.operationId);
      FieldIsPlain("revision", n.revision);
      FieldIsPlain("authorization_reference", a.authorizationReference);
      FieldIsPlain("probe_timeout_ms", n.probe);
      FieldIsPlain("confirmation_timeout_ms", n.confirmation);
    }
  }

  /** Every valid request is accepted, whatever numerals its numbers are written with. */
  lemma PrintedIsAccepted(r: Request, n: Numerals)
    requires ValidControllerRequest(r) && (r.Activate? ==> Denote(n, r.activation))
    ensures ParseRequest(Join(RequestLines(r, n))) == Accepted(r)
  {
    hide SplitLines, AcceptableLine, Join, ValidIdentifier, ParseUint64, ParseActivation, FieldValue, Field, Denote,
         ValidRequest;
    var lines := RequestLines(r, n);
    RequestLinesAreAcceptable(r, n);
    SplitIsInverse(Join(lines), lines);
    HeadLines(lines, r.requestId, if r.Status? then "status" else "activate");
    if r.Activate? {
      ActivationLines(r.requestId, lines, r.activation, n);
    }
  }

  function Natural(n: int): nat { if n < 0 then 0 else n }

  // The request as a client writes it.
  function PrintRequest(r: Request): string {
    Join(RequestLines(r, if r.Status? then Numerals("", "", "")
                         else Numerals(Print(r.activation.revision), Print(Natural(r.activation.probeTimeout)),
                                       Print(Natural(r.activation.confirmationTimeout)))))
  }

  /** Parsing a printed request gives it back. */
  lemma RequestRoundTrip(r: Request)
    requires ValidIdentifier(r.requestId)
    requires r.Activate? ==>
               var a := r.activation;
               && ValidIdentifier(a.operationId) && ValidIdentifier(a.authorizationReference)
               && 1 <= a.revision <= 0xFFFF_FFFF_FFFF_FFFF
               && 100 <= a.probeTimeout <= 60000 && 1000 <= a.confirmationTimeout <= 600000
    ensures ParseRequest(PrintRequest(r)) == Accepted(r)
  {
    hide Join, ParseUint64, ParseRequest, ValidIdentifier, RequestLines;
    var n := Numerals("", "", "");
    if r.Activate? {
      var a := r.activation;
      n := Numerals(Print(a.revision), Print(a.probeTimeout), Print(a.confirmationTimeout));
      ParsePrint(a.revision);
      ParsePrint(a.probeTimeout);
      ParsePrint(a.confirmationTimeout);
    }
    PrintedIsAccepted(r, n);
  }

  // ---------- what is refused ----------

  // Lines of another protocol, or of this one for an operation it does not have.
  predicate OtherProtocol(lines: seq<string>) {
    && |lines| >= 3
    && (lines[0] != "gatehold-controller-v1"
        || (StartsWith(lines[1], "request_id=") && ValidIdentifier(lines[1][11..]) && StartsWith(lines[2], "operation=")
            && lines[2] != "operation=status" && lines[2] != "operation=activate"))
  }

  lemma HeadValues(line: string, key: string, value: string)
    ensures FieldValue(line, key) == if StartsWith(line, key + "=") then Some(line[|key| + 1..]) else None
    ensures FieldValue(line, key) == Some(value) <==> line == key + "=" + value
  {
    FieldOfLine(line, key, value);
  }

  lemma HeadTexts()
    ensures "request_id" + "=" == "request_id=" && "operation" + "=" == "operation="
    ensures "operation" + "=" + "status" == "operation=status" && "operation" + "=" + "activate" == "operation=activate"
  {}

  lemma ActivationIsSupported(id: string, lines: seq<string>)
    requires |lines| == 8
    ensures !ParseActivation(id, lines).Unsupported?
  {}

  lemma UnsupportedLines(payload: string, lines: seq<string>)
    requires SplitLines(payload) == Some(lines)
    ensures ParseRequest(payload).Unsupported? <==> OtherProtocol(lines)
  {
    hide SplitLines, FieldValue, ValidIdentifier, ParseActivation, StartsWith;
    if |lines| >= 3 {
      HeadTexts();
      assert |"request_id"| == 10;
      if |lines| == 8 && FieldValue(lines[1], "request_id").Some? {
        ActivationIsSupported(FieldValue(lines[1], "request_id").value, lines);
      }
      HeadValues(lines[1], "request_id", "");
      HeadValues(lines[2], "operation", "status");
      HeadValues(lines[2], "operation", "activate");
    }
  }

  lemma OtherHasLines(lines: seq<string>)
    requires OtherProtocol(lines)
    ensures lines != []
  {}

  /** A payload is unsupported exactly if its lines are of another protocol or name another operation. */
  lemma UnsupportedExactly(payload: string)
    ensures ParseRequest(payload).Unsupported? <==>
              exists lines :: OtherProtocol(lines) && AcceptableLines(lines) && payload == Join(lines)
  {
    hide OtherProtocol, AcceptableLine, Join, SplitLines;
    if ParseRequest(payload).Unsupported? {
      var lines := SplitLines(payload).value;
      SplitIsInverse(payload, lines);
      UnsupportedLines(payload, lines);
    }
    if lines :| OtherProtocol(lines) && AcceptableLines(lines) && payload == Join(lines) {
      assert lines != [] by { OtherHasLines(lines); }
      SplitIsInverse(payload, lines);
      UnsupportedLines(payload, lines);
    }
  }

  // The payload is a valid request's printed form, with any numerals.
  ghost predicate Prints(payload: string, r: Request, n: Numerals) {
    ValidControllerRequest(r) && (r.Activate? ==> Denote(n, r.activation)) && payload == Join(RequestLines(r, n))
  }

  /** A payload is malformed exactly if it is neither unsupported nor the text of a valid request. */
  lemma MalformedExactly(payload: string)
    ensures ParseRequest(payload).Malformed? <==>
              && (forall r, n :: !Prints(payload, r, n))
              && (forall lines :: AcceptableLines(lines) && payload == Join(lines) ==> !OtherProtocol(lines))
  {
    hide ParseRequest, OtherProtocol, Join, RequestLines, AcceptableLines, ValidControllerRequest, Denote;
    UnsupportedExactly(payload);
    if ParseRequest(payload).Accepted? {
      var r := ParseRequest(payload).request;
      var n := AcceptedMeansPrinted(payload, r);
      assert Prints(payload, r, n);
    }
    forall r, n | Prints(payload, r, n) ensures ParseRequest(payload) == Accepted(r) {
      PrintedIsAccepted(r, n);
    }
  }

  lemma JoinThree(a: string, b: string, c: string)
    ensures Join([a, b, c]) == a + "\n" + b + "\n" + c + "\n"
  {
    hide Join;
    JoinOne(c);
    JoinCons(b, [c]);
    JoinCons(a, [b, c]);
    assert [a] + [b, c] == [a, b, c] && [b] + [c] == [b, c];
  }

  lemma KeyTexts()
    ensures "operation_id" + "=" == "operation_id=" && "revision" + "=" == "revision="
    ensures "authorization_reference" + "=" == "authorization_reference="
    ensures "probe_timeout_ms" + "=" == "probe_timeout_ms="
    ensures "confirmation_timeout_ms" + "=" == "confirmation_timeout_ms="
  {}

  /** The text of a status request. */
  lemma StatusText(id: string)
    ensures PrintRequest(Status(id))
         == "gatehold-controller-v1" + "\n" + ("request_id=" + id) + "\n" + "operation=status" + "\n"
  {
    hide Join;
    JoinThree("gatehold-controller-v1", "request_id=" + id, "operation=status");
    HeadTexts();
  }

  /** The lines of an activation request. */
  lemma ActivateText(id: string, a: ActivationRequest)
    requires ValidRequest(a)
    ensures PrintRequest(Activate(id, a))
         == Join(["gatehold-controller-v1", "request_id=" + id, "operation=activate", "operation_id=" + a.operationId,
                  "revision=" + Print(a.revision), "authorization_reference=" + a.authorizationReference,
                  "probe_timeout_ms=" + Print(a.probeTimeout),
                  "confirmation_timeout_ms=" + Print(a.confirmationTimeout)])
  {
    hide Join, Print, ValidIdentifier;
    HeadTexts();
    KeyTexts();
  }
}
