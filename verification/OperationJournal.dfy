/**
 The operation journal: an append-only file of one-line events.  One append holds the file lock from the size check to
 the end of the write, so appends of all writers stand in one order; a failing write may leave part of its line.
 */
module OperationJournal {
  import opened Basics
  import opened Text
  import opened AuditEvents
  import Json

  const MAXIMUM_ENTRY_SIZE := 64 * 1024
  const MAXIMUM_JOURNAL_SIZE := 16 * 1024 * 1024

  datatype JournalStatus = Appended | InvalidEvent | UnsafeJournal | CapacityExceeded | IoError

  predicate HasRequiredFields(e: Event) {
    && e.timestamp != [] && e.eventId != [] && e.component != []
    && e.operationId != [] && e.action != [] && e.outcome != []
  }

  function Line(e: Event): string { Json.Print(Document(e)) }

  function LineText(e: Event): string { Line(e) + ['\n'] }

  // What the journal takes: all required fields, and a line within the size limit.
  predicate Acceptable(e: Event) { HasRequiredFields(e) && |LineText(e)| <= MAXIMUM_ENTRY_SIZE }

  // An append that reached the file, and how much of its line it wrote.
  datatype Entry = Entry(event: Event, written: nat)

  predicate Complete(x: Entry) { x.written == |LineText(x.event)| }

  predicate Torn(x: Entry) { 0 < x.written < |LineText(x.event)| }

  function Written(x: Entry): string
    requires x.written <= |LineText(x.event)|
  {
    LineText(x.event)[..x.written]
  }

  predicate WellFormed(entries: seq<Entry>) {
    forall i :: 0 <= i < |entries| ==> entries[i].written <= |LineText(entries[i].event)|
  }

  function Contents(entries: seq<Entry>): string
    requires WellFormed(entries)
  {
    if entries == [] then [] else Written(entries[0]) + Contents(entries[1..])
  }

  // The lines of the complete appends, in order.
  function CompleteLines(entries: seq<Entry>): seq<string> {
    if entries == [] then []
    else (if Complete(entries[0]) then [Line(entries[0].event)] else []) + CompleteLines(entries[1..])
  }

  predicate NoTorn(entries: seq<Entry>) { forall i :: 0 <= i < |entries| ==> !Torn(entries[i]) }

  lemma {:induction false} CompleteLinesAreLines(entries: seq<Entry>)
    ensures SingleLines(CompleteLines(entries))
    decreases |entries|
  {
    if entries == [] {
    } else {
      CompleteLinesAreLines(entries[1..]);
      LineReadsBack(entries[0].event);
    }
  }

  lemma TornHeadOrTail(entries: seq<Entry>)
    requires entries != []
    ensures NoTorn(entries) <==> !Torn(entries[0]) && NoTorn(entries[1..])
  {
    assert forall i :: 1 <= i < |entries| ==> entries[i] == entries[1..][i - 1];
  }

  lemma LineTextOf(e: Event)
    ensures LineText(e) == Line(e) + ['\n']
  {}

  lemma HeadOfContents(entries: seq<Entry>)
    requires WellFormed(entries) && entries != []
    ensures Contents(entries) == Written(entries[0]) + Contents(entries[1..])
    ensures |Contents(entries)| == entries[0].written + |Contents(entries[1..])|
    ensures entries[0].written == 0 ==> Contents(entries) == Contents(entries[1..])
  {
    hide LineText;
    assert entries[0].written == 0 ==> Written(entries[0]) == [];
  }

  lemma HeadOfLines(entries: seq<Entry>)
    requires WellFormed(entries) && entries != []
    ensures var rest := CompleteLines(entries[1..]);
            if Complete(entries[0]) then
              && Join(CompleteLines(entries)) == Written(entries[0]) + Join(rest)
              && |Join(CompleteLines(entries))| == entries[0].written + |Join(rest)|
            else CompleteLines(entries) == rest
  {
    hide Line, Join;
    var x := entries[0];
    if Complete(x) {
      JoinCons(Line(x.event), CompleteLines(entries[1..]));
      assert Written(x) == LineText(x.event);
    }
  }

  // Torn lines make the journal longer than its complete lines.
  lemma {:induction false} ContentsLength(entries: seq<Entry>)
    requires WellFormed(entries)
    ensures |Contents(entries)| >= |Join(CompleteLines(entries))|
    ensures NoTorn(entries) ==> Contents(entries) == Join(CompleteLines(entries))
    ensures !NoTorn(entries) ==> |Contents(entries)| > |Join(CompleteLines(entries))|
    decreases |entries|
  {
    if entries == [] {
    } else {
      hide Line, LineText, Join, Written, Contents, CompleteLines, NoTorn;
      ContentsLength(entries[1..]);
      TornHeadOrTail(entries);
      HeadOfContents(entries);
      HeadOfLines(entries);
    }
  }

  /** Splitting the journal at newlines recovers exactly the complete appends, in order, if and only if no append left
      part of a line behind. */
  lemma SplittingRecovers(entries: seq<Entry>)
    requires WellFormed(entries)
    ensures Lines(Contents(entries)) == Some(CompleteLines(entries)) <==> NoTorn(entries)
  {
    hide Lines, Line, LineText, Join, Contents, CompleteLines;
    CompleteLinesAreLines(entries);
    ContentsLength(entries);
    LinesOfJoin(CompleteLines(entries));
    if Lines(Contents(entries)) == Some(CompleteLines(entries)) {
      JoinOfLines(Contents(entries));
    }
  }

  lemma ReadLine(e: Event)
    ensures Json.ReadValue(Line(e)) == Some((Document(e), []))
  {
    LineReadsBack(e);
  }

  /** Every line so recovered reads back as its event with the secrets blanked. */
  lemma {:induction false} LinesReadBack(entries: seq<Entry>, k: nat) returns (i: nat)
    requires k < |CompleteLines(entries)|
    ensures i < |entries| && Complete(entries[i]) && CompleteLines(entries)[k] == Line(entries[i].event)
    ensures Json.ReadValue(CompleteLines(entries)[k]) == Some((Document(entries[i].event), []))
    decreases |entries|
  {
    hide Line, LineText;
    var n := if Complete(entries[0]) then 1 else 0;
    if k < n {
      ReadLine(entries[0].event);
      i := 0;
    } else {
      i := LinesReadBack(entries[1..], k - n);
      i := i + 1;
    }
  }

  lemma {:induction false} ContentsAppend(a: seq<Entry>, b: seq<Entry>)
    requires WellFormed(a) && WellFormed(b)
    ensures WellFormed(a + b) && Contents(a + b) == Contents(a) + Contents(b)
    decreases |a|
  {
    hide LineText;
    if a == [] {
      assert a + b == b;
    } else {
      ContentsAppend(a[1..], b);
      assert (a + b)[1..] == a[1..] + b && (a + b)[0] == a[0];
    }
  }

  // ---------- torn lines ----------

  // What stands in front of the i-th append on its line: what the appends since the last complete one have written.
  function Carried(entries: seq<Entry>, i: nat): string
    requires WellFormed(entries) && i <= |entries|
  {
    if i == 0 || Complete(entries[i - 1]) then [] else Carried(entries, i - 1) + Written(entries[i - 1])
  }

  // The lines of the first n appends: each complete append ends one, in front of it what was left over.
  function MergedLines(entries: seq<Entry>, n: nat): seq<string>
    requires WellFormed(entries) && n <= |entries|
  {
    if n == 0 then []
    else
      MergedLines(entries, n - 1)
      + if Complete(entries[n - 1]) then [Carried(entries, n - 1) + Line(entries[n - 1].event)] else []
  }

  // Since the last complete append nothing has been written.
  predicate Untouched(entries: seq<Entry>, i: nat)
    requires i <= |entries|
  {
    i == 0 || Complete(entries[i - 1]) || (entries[i - 1].written == 0 && Untouched(entries, i - 1))
  }

  lemma LineHasNoNewline(e: Event)
    ensures '\n' !in Line(e) && LineText(e) == Line(e) + ['\n']
  {
    LineReadsBack(e);
  }

  lemma PartHasNoNewline(x: Entry)
    requires x.written < |LineText(x.event)|
    ensures '\n' !in Written(x)
  {
    hide Line;
    LineHasNoNewline(x.event);
    assert Written(x) == Line(x.event)[..x.written];
  }

  lemma WrittenIsEmpty(x: Entry)
    requires x.written <= |LineText(x.event)|
    ensures Written(x) == [] <==> x.written == 0
  {
    hide LineText;
  }

  lemma NothingPlusNothing(a: string, b: string)
    ensures a + b == [] <==> a == [] && b == []
  {
    assert |a + b| == |a| + |b|;
  }

  lemma {:induction false} CarriedIsPartOfALine(entries: seq<Entry>, i: nat)
    requires WellFormed(entries) && i <= |entries|
    ensures '\n' !in Carried(entries, i)
    ensures Carried(entries, i) == [] <==> Untouched(entries, i)
  {
    hide Line, LineText, Written;
    if i == 0 || Complete(entries[i - 1]) {
    } else {
      CarriedIsPartOfALine(entries, i - 1);
      PartHasNoNewline(entries[i - 1]);
      StaysOneLine(Carried(entries, i - 1), Written(entries[i - 1]));
      WrittenIsEmpty(entries[i - 1]);
      NothingPlusNothing(Carried(entries, i - 1), Written(entries[i - 1]));
    }
  }

  lemma NoContents()
    ensures Contents([]) == [] && Join([]) == []
  {}

  lemma CompleteIsWhole(x: Entry)
    requires Complete(x)
    ensures Written(x) == LineText(x.event)
  {}

  lemma Reassociate(before: string, carried: string, line: string)
    ensures before + carried + (line + ['\n']) == before + (carried + line + ['\n'])
    ensures before + (carried + line + ['\n']) + [] == before + (carried + line + ['\n'])
  {}

  lemma AppendedContents(entries: seq<Entry>, x: Entry)
    requires WellFormed(entries) && x.written <= |LineText(x.event)|
    ensures WellFormed(entries + [x]) && Contents(entries + [x]) == Contents(entries) + Written(x)
  {
    hide LineText;
    assert WellFormed([x]);
    ContentsAppend(entries, [x]);
    assert [x][1..] == [];
    assert Contents([x]) == Written(x) + Contents([]);
  }

  // The file after n appends: the merged lines, and a rest without a newline.
  lemma {:induction false} ContentsMerge(entries: seq<Entry>, n: nat)
    requires WellFormed(entries) && n <= |entries|
    ensures Contents(entries[..n]) == Join(MergedLines(entries, n)) + Carried(entries, n)
    ensures SingleLines(MergedLines(entries, n))
  {
    hide Contents, Join, Line, LineText, Complete, Written;
    if n == 0 {
      NoContents();
      assert entries[..0] == [];
    } else {
      var x := entries[n - 1];
      var lines, carried := MergedLines(entries, n - 1), Carried(entries, n - 1);
      ContentsMerge(entries, n - 1);
      CarriedIsPartOfALine(entries, n - 1);
      AppendedContents(entries[..n - 1], x);
      assert entries[..n] == entries[..n - 1] + [x];
      if Complete(x) {
        LineHasNoNewline(x.event);
        CompleteIsWhole(x);
        StaysOneLine(carried, Line(x.event));
        JoinAppend(lines, [carried + Line(x.event)]);
        JoinOne(carried + Line(x.event));
        Reassociate(Join(lines), carried, Line(x.event));
      } else {
        assert MergedLines(entries, n) == lines;
        assert Join(lines) + carried + Written(x) == Join(lines) + (carried + Written(x));
      }
    }
  }

  lemma UnendedRest(s: string)
    requires '\n' !in s
    ensures Lines(s) == if s == [] then Some([]) else None
  {
    if s != [] { NoNewline(s); }
  }

  /** What a reader finds in any journal, whatever failed while it was written: one line for each complete append, in
      order, each behind what the failed appends right before it left there, and at the end what the last ones left. */
  lemma SplittingMerges(entries: seq<Entry>)
    requires WellFormed(entries)
    ensures var n := |entries|;
            && Lines(Contents(entries))
               == (if Untouched(entries, n) then Some(MergedLines(entries, n)) else None)
            && Contents(entries) == Join(MergedLines(entries, n)) + Carried(entries, n)
            && '\n' !in Carried(entries, n)
  {
    hide Lines, Contents, Join, Line, LineText, Complete, Written, MergedLines, Carried, Untouched;
    var n := |entries|;
    assert entries[..n] == entries;
    ContentsMerge(entries, n);
    CarriedIsPartOfALine(entries, n);
    LinesAppend(MergedLines(entries, n), Carried(entries, n));
    UnendedRest(Carried(entries, n));
    if Untouched(entries, n) {
      assert MergedLines(entries, n) + [] == MergedLines(entries, n);
    }
  }

  // The number of complete appends among the first n.
  function Completed(entries: seq<Entry>, n: nat): nat
    requires n <= |entries|
  {
    if n == 0 then 0 else Completed(entries, n - 1) + if Complete(entries[n - 1]) then 1 else 0
  }

  lemma {:induction false} MergedCount(entries: seq<Entry>, n: nat)
    requires WellFormed(entries) && n <= |entries|
    ensures |MergedLines(entries, n)| == Completed(entries, n)
  {
    if n == 0 {
    } else {
      MergedCount(entries, n - 1);
    }
  }

  lemma {:induction false} MergedAt(entries: seq<Entry>, i: nat, n: nat)
    requires WellFormed(entries) && i < n <= |entries| && Complete(entries[i])
    ensures Completed(entries, i) < |MergedLines(entries, n)| == Completed(entries, n)
    ensures MergedLines(entries, n)[Completed(entries, i)] == Carried(entries, i) + Line(entries[i].event)
    decreases n
  {
    hide Line, LineText, Carried, Complete;
    if i < n - 1 {
      MergedAt(entries, i, n - 1);
    }
    MergedCount(entries, n - 1);
  }

  /** The damage done by failed appends stays on one line: the line of a complete append is exactly its own, and so
      reads back, if and only if no append since the complete one before it has written anything. */
  lemma TornSpoilsOne(entries: seq<Entry>, i: nat)
    requires WellFormed(entries) && i < |entries| && Complete(entries[i])
    ensures var lines := MergedLines(entries, |entries|);
            var k := Completed(entries, i);
            && k < |lines|
            && lines[k] == Carried(entries, i) + Line(entries[i].event)
            && (lines[k] == Line(entries[i].event) <==> Untouched(entries, i))
            && (Untouched(entries, i) ==> Json.ReadValue(lines[k]) == Some((Document(entries[i].event), [])))
  {
    hide Line, LineText, MergedLines, Completed, Carried, Untouched, Complete;
    MergedAt(entries, i, |entries|);
    CarriedIsPartOfALine(entries, i);
    ReadLine(entries[i].event);
    var carried, line := Carried(entries, i), Line(entries[i].event);
    assert carried + line == line ==> |carried| == 0;
    assert [] + line == line;
  }

  lemma LineOf(e: Event)
    ensures Line(e) == Json.Print(Document(e))
  {}

  // What the loop of write calls meets: an interrupted call, an error, or a number of bytes.
  datatype Answer = Interrupted | WriteError | Bytes(n: nat)

  // How far the loop gets in a text of the given size.
  function Progressed(answers: seq<Answer>, size: nat): (r: nat)
    ensures r <= size
    decreases |answers|
  {
    if size == 0 || answers == [] then 0
    else
      match answers[0]
      case Interrupted => Progressed(answers[1..], size)
      case WriteError => 0
      case Bytes(n) =>
        if n == 0 then 0
        else
          var k := if n < size then n else size;
          k + Progressed(answers[1..], size - k)
  }

  class Journal {
    var content: string
    ghost var entries: seq<Entry>

    // The file consists of what the appends wrote, and stays within its bound.
    ghost predicate Valid()
      reads this
    {
      WellFormed(entries) && content == Contents(entries) && |content| <= MAXIMUM_JOURNAL_SIZE
    }

    constructor ()
      ensures Valid() && entries == [] && content == []
    {
      content, entries := [], [];
    }

    method WriteAll(text: string, answers: seq<Answer>) returns (ok: bool, ghost written: nat)
      modifies this`content
      ensures written <= |text| && content == old(content) + text[..written]
      ensures written == Progressed(answers, |text|) && (ok <==> written == |text|)
    {
      var offset: nat := 0;
      var turn := 0;
      while offset < |text|
        invariant offset <= |text| && turn <= |answers|
        invariant content == old(content) + text[..offset]
        invariant Progressed(answers, |text|) == offset + Progressed(answers[turn..], |text| - offset)
        decreases |answers| - turn
      {
        if turn == |answers| { return false, offset; }
        var answer := answers[turn];
        assert answers[turn..][1..] == answers[turn + 1..];
        turn := turn + 1;
        match answer {
          case Interrupted =>
          case WriteError => return false, offset;
          case Bytes(n) =>
            if n == 0 { return false, offset; }
            var k := if n < |text| - offset then n else |text| - offset;
            assert text[..offset] + text[offset..offset + k] == text[..offset + k];
            content, offset := content + text[offset..offset + k], offset + k;
        }
      }
      assert text[..offset] == text;
      ok, written := true, offset;
    }

    /** What an append comes to, by the outcomes of the system calls: the checks of directory and file, the file lock
        and the size query under it, the writes, and closing and synchronizing.  A refusal changes nothing; a call that
        gets to the writes adds exactly what they get done of the line, whether it then reports success or an I/O
        error.  The size bound is kept in every case. */
    method Append(e: Event, safe: bool, locked: bool, answers: seq<Answer>, synchronized: bool)
      returns (status: JournalStatus)
      requires Valid()
      modifies this
      ensures Valid()
      ensures var accepted := Acceptable(e) && safe;
              var room := |old(content)| + |LineText(e)| <= 16777216;
              var written := if locked then Progressed(answers, |LineText(e)|) else 0;
              && (status == InvalidEvent <==> !Acceptable(e))
              && (status == UnsafeJournal <==> Acceptable(e) && !safe)
              && (status == CapacityExceeded <==> accepted && locked && !room)
              && (status == Appended <==>
                    accepted && locked && room && written == |LineText(e)| && synchronized)
              && (status == Appended || status == IoError ==>
                    && entries == old(entries) + [Entry(e, written)]
                    && content == old(content) + LineText(e)[..written])
      ensures status != Appended && status != IoError ==> unchanged(this)
      ensures status != InvalidEvent <==>
                && e.timestamp != [] && e.eventId != [] && e.component != [] && e.operationId != [] && e.action != []
                && e.outcome != [] && |Json.Print(Document(e)) + ['\n']| <= 65536
    {
      hide Line, WellFormed, Contents;
      if !HasRequiredFields(e) { return InvalidEvent; }
      var serialized := Format(e);
      LineTextOf(e);
      assert serialized == Line(e) by { LineOf(e); }
      if |serialized| + 1 > MAXIMUM_ENTRY_SIZE { return InvalidEvent; }
      serialized := serialized + ['\n'];
      if !safe { return UnsafeJournal; }
      ghost var k := 0;
      var successful := locked;
      if successful {
        if |content| + |serialized| > MAXIMUM_JOURNAL_SIZE { return CapacityExceeded; }
        successful, k := WriteAll(serialized, answers);
      }
      status := if successful && synchronized then Appended else IoError;
      AppendedContents(entries, Entry(e, k));
      entries := entries + [Entry(e, k)];
    }
  }

  lemma PartialAnswers(k: nat, size: nat)
    requires 0 < k < size
    ensures Progressed([Bytes(k), WriteError], size) == k
  {
    assert [Bytes(k), WriteError][1..] == [WriteError];
  }

  /** The torn journal is one the code can produce: every acceptable event can tear every journal that has room for it,
      at any byte of its line, and from then on splitting at newlines does not give the complete appends. */
  method TearLine(journal: Journal, e: Event, k: nat) returns (status: JournalStatus)
    requires journal.Valid() && Acceptable(e) && |journal.content| + |LineText(e)| <= MAXIMUM_JOURNAL_SIZE
    requires 0 < k < |LineText(e)|
    modifies journal
    ensures journal.Valid() && status == IoError
    ensures journal.entries == old(journal.entries) + [Entry(e, k)] && !NoTorn(journal.entries)
    ensures Lines(journal.content) != Some(CompleteLines(journal.entries))
  {
    hide LineText, Lines, CompleteLines, Contents;
    PartialAnswers(k, |LineText(e)|);
    status := journal.Append(e, true, true, [Bytes(k), WriteError], true);
    ghost var entries := journal.entries;
    assert Torn(entries[|entries| - 1]);
    SplittingRecovers(entries);
  }
}
