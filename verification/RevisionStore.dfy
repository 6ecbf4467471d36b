/**
 The revision store: immutable revisions in files named by their number, and a marker file that names the last known
 good one.  The directory is a map from file names to contents.
 */
module RevisionStore {
  import opened Basics
  import opened Text
  import opened ActivationProtocol

  const MARKER_NAME := "last-known-good"
  const REVISION_SUFFIX := ".pf.conf"
  const MAXIMUM_REVISION_SIZE := 1024 * 1024

  // ---------- names ----------

  // std::setfill('0') and std::setw(20)
  function Pad(s: string): (r: string)
    ensures |s| <= 20 ==> |r| == 20
    decreases 20 - |s|
  {
    if |s| >= 20 then s else Pad("0" + s)
  }

  function RevisionFilename(revision: nat): string { Pad(Print(revision)) + REVISION_SUFFIX }

  predicate Revision(n: nat) { 0 < n < UINT64_LIMIT }

  // Lexicographic order of names.
  predicate Less(a: string, b: string)
    decreases |a|
  {
    b != [] && (a == [] || a[0] < b[0] || (a[0] == b[0] && Less(a[1..], b[1..])))
  }

  lemma {:induction false} PadKeepsValue(s: string)
    requires AllDigits(s)
    ensures AllDigits(Pad(s)) && Value(Pad(s)) == Value(s)
    decreases 20 - |s|
  {
    if |s| >= 20 {
    } else {
      ZeroPrefix(s);
      PadKeepsValue("0" + s);
    }
  }

  lemma PaddedRevision(n: nat)
    requires n < UINT64_LIMIT
    ensures AllDigits(Pad(Print(n))) && Value(Pad(Print(n))) == n && |Pad(Print(n))| == 20
  {
    PrintIsDecimal(n);
    PrintUint64Length(n);
    PadKeepsValue(Print(n));
  }

  lemma {:induction false} LessIsStrict(a: string)
    ensures !Less(a, a)
    decreases |a|
  {
    if a == [] {
    } else {
      LessIsStrict(a[1..]);
    }
  }

  lemma {:induction false} LessBySuffix(a: string, b: string, suffix: string)
    requires |a| == |b|
    ensures Less(a + suffix, b + suffix) <==> Less(a, b)
    decreases |a|
  {
    if a == [] {
      assert a + suffix == suffix && b + suffix == suffix;
      LessIsStrict(suffix);
    } else {
      LessBySuffix(a[1..], b[1..], suffix);
      assert (a + suffix)[1..] == a[1..] + suffix && (b + suffix)[1..] == b[1..] + suffix;
    }
  }

  // Names of equal length are ordered by their first difference; here seen from the end.
  lemma {:induction false} LessFromEnd(a: string, b: string)
    requires |a| == |b| && |a| > 0
    ensures var n := |a| - 1;
            Less(a, b) <==> Less(a[..n], b[..n]) || (a[..n] == b[..n] && a[n] < b[n])
    decreases |a|
  {
    var n := |a| - 1;
    if n == 0 {
    } else {
      LessFromEnd(a[1..], b[1..]);
      assert a[1..][..n - 1] == a[..n][1..] && b[1..][..n - 1] == b[..n][1..];
      assert a[..n] == b[..n] <==> a[0] == b[0] && a[..n][1..] == b[..n][1..] by {
        assert a[..n] == [a[0]] + a[..n][1..] && b[..n] == [b[0]] + b[..n][1..];
      }
    }
  }

  lemma LastDigit(x: nat, d: nat, y: nat, e: nat)
    requires d < 10 && e < 10 && 10 * x + d == 10 * y + e
    ensures x == y && d == e
  {}

  lemma {:induction false} ValueIsInjective(a: string, b: string)
    requires |a| == |b| && AllDigits(a) && AllDigits(b) && Value(a) == Value(b)
    ensures a == b
    decreases |a|
  {
    if a == [] {
    } else {
      var n := |a| - 1;
      LastDigit(Value(a[..n]), DigitValue(a[n]), Value(b[..n]), DigitValue(b[n]));
      ValueIsInjective(a[..n], b[..n]);
      assert a[n] == b[n];
      assert a == a[..n] + [a[n]] && b == b[..n] + [b[n]];
    }
  }

  lemma {:induction false} LessIsNumeric(a: string, b: string)
    requires |a| == |b| && AllDigits(a) && AllDigits(b)
    ensures Less(a, b) <==> Value(a) < Value(b)
    decreases |a|
  {
    if a == [] {
    } else {
      var n := |a| - 1;
      LessFromEnd(a, b);
      LessIsNumeric(a[..n], b[..n]);
      if Value(a[..n]) == Value(b[..n]) { ValueIsInjective(a[..n], b[..n]); }
    }
  }

  /** Revision files sort by revision number. */
  lemma FilenameOrder(m: nat, n: nat)
    requires m < UINT64_LIMIT && n < UINT64_LIMIT
    ensures Less(RevisionFilename(m), RevisionFilename(n)) <==> m < n
  {
    PaddedRevision(m);
    PaddedRevision(n);
    LessBySuffix(Pad(Print(m)), Pad(Print(n)), REVISION_SUFFIX);
    LessIsNumeric(Pad(Print(m)), Pad(Print(n)));
  }

  /** Different revisions live in different files, and none of them in the marker's: a file is named by the twenty
      digits of its number. */
  lemma FilenamesDiffer(m: nat, n: nat)
    requires m < UINT64_LIMIT && n < UINT64_LIMIT
    ensures RevisionFilename(m) == RevisionFilename(n) ==> m == n
    ensures RevisionFilename(m) != MARKER_NAME == "last-known-good"
    ensures var name := RevisionFilename(m);
            && |name| == 28 && name[20..] == ".pf.conf"
            && AllDigits(name[..20]) && Value(name[..20]) == m
  {
    PaddedRevision(m);
    PaddedRevision(n);
    assert RevisionFilename(m)[..20] == Pad(Print(m));
    if RevisionFilename(m) == RevisionFilename(n) {
      assert RevisionFilename(m)[..20] == Pad(Print(m)) && RevisionFilename(n)[..20] == Pad(Print(n));
    }
    assert |RevisionFilename(m)| == 28 && |MARKER_NAME| == 15;
  }

  // ---------- the marker ----------

  function MarkerText(revision: nat): string { Print(revision) + "\n" }

  function ReadMarkerText(content: string): Option<nat> {
    if |content| < 2 || |content| > 32 || content[|content| - 1] != '\n' then None
    else
      match ParseUint64(content[..|content| - 1])
      case Some(n) => if n > 0 then Some(n) else None
      case None => None
  }

  /** A written marker passes the size check and reads back as the revision it was written for. */
  lemma MarkerRoundTrip(revision: nat)
    requires Revision(revision)
    ensures 2 <= |MarkerText(revision)| <= 32 && ReadMarkerText(MarkerText(revision)) == Some(revision)
  {
    PrintUint64Length(revision);
    ParsePrint(revision);
    var s := MarkerText(revision);
    assert s[..|s| - 1] == Print(revision);
  }

  lemma MarkerTextIsRevision(content: string)
    ensures ReadMarkerText(content).Some? ==> Revision(ReadMarkerText(content).value)
  {}

  // ---------- the store ----------

  datatype StoreStatus = Stored | InvalidRevision | Unsafe | TooLarge | AlreadyExists | StoreIoError

  // The answers of the system calls of one `store`: the checks of root and candidate, reading the candidate, creating
  // the file, how much the writes get done, the synchronizations, and the removal after a failure.
  datatype StoreAnswers = StoreAnswers(safe: bool, readable: bool, creatable: bool, written: nat, synchronized: bool,
                                       removed: bool)

  // The call gets as far as creating the revision's file; `free` says that there is none yet.
  predicate Creates(revision: nat, candidate: string, answers: StoreAnswers, free: bool) {
    && revision != 0 && answers.safe && |candidate| <= MAXIMUM_REVISION_SIZE && answers.readable
    && free && answers.creatable
  }

  // The file is written and synchronized.
  predicate Completes(candidate: string, answers: StoreAnswers) {
    answers.written >= |candidate| && answers.synchronized
  }

  // The part of the candidate that the writes get done.
  function WrittenPart(candidate: string, answers: StoreAnswers): string {
    if answers.written < |candidate| then candidate[..answers.written] else candidate
  }

  // The effect is one the protocol allows on the marker, and does what the protocol says.
  ghost predicate MarkerEffect(before: Option<nat>, e: Effect, after: Option<nat>) {
    forall pf, record ::
      var w := World(pf, before, record);
      Legal(w, e) && Apply(w, e) == World(pf, after, record)
  }

  lemma ReadMarkerIsLegal(marker: Option<nat>, found: Option<nat>)
    requires found.Some? ==> found == marker && found.value > 0
    ensures MarkerEffect(marker, ReadMarker(found), marker)
  {}

  lemma MarkIsLegal(before: Option<nat>, revision: nat, ok: bool, applied: bool)
    requires ok ==> applied
    ensures MarkerEffect(before, Mark(revision, ok, applied), if applied then Some(revision) else before)
  {}

  class Store {
    var files: map<string, string>

    // The content of a revision, if there is a file for it.
    function Content(revision: nat): Option<string>
      reads this
    {
      var name := RevisionFilename(revision);
      if name in files then Some(files[name]) else None
    }

    function Marker(): Option<nat>
      reads this
    {
      if MARKER_NAME in files then ReadMarkerText(files[MARKER_NAME]) else None
    }

    // The marker is missing, or it names a revision that has a file; no such file exceeds the size limit.
    ghost predicate Valid()
      reads this
    {
      && (MARKER_NAME in files ==> Marker().Some? && Revision(Marker().value) && Content(Marker().value).Some?)
      && (forall n: nat | n < UINT64_LIMIT :: Content(n).Some? ==> |Content(n).value| <= MAXIMUM_REVISION_SIZE)
    }

    constructor ()
      ensures Valid() && files == map[]
    {
      files := map[];
    }

    lemma OwnName(revision: nat)
      requires revision < UINT64_LIMIT
      ensures forall n: nat | n < UINT64_LIMIT :: RevisionFilename(n) == RevisionFilename(revision) ==> n == revision
      ensures forall n: nat | n < UINT64_LIMIT :: RevisionFilename(n) != MARKER_NAME
    {
      forall n: nat | n < UINT64_LIMIT
        ensures RevisionFilename(n) == RevisionFilename(revision) ==> n == revision
        ensures RevisionFilename(n) != MARKER_NAME
      {
        FilenamesDiffer(n, revision);
      }
    }

    /** A revision that has a file is never replaced, and storing one touches no other revision and not the marker.  A
        failed store leaves something behind exactly if its file was created and could not be removed, and what it
        leaves is the part of the candidate that was written. */
    method StoreRevision(revision: nat, candidate: string, answers: StoreAnswers) returns (status: StoreStatus)
      requires Valid() && revision < UINT64_LIMIT
      modifies this
      ensures Valid() && Marker() == old(Marker())
      ensures var free := old(Content(revision)).None?;
              && (status == InvalidRevision <==> revision == 0)
              && (status == Unsafe <==> revision != 0 && !answers.safe)
              && (status == TooLarge <==> revision != 0 && answers.safe && |candidate| > 1048576)
              && (status == AlreadyExists <==>
                    && revision != 0 && answers.safe && |candidate| <= 1048576
                    && answers.readable && !free)
              && (status == Stored <==>
                    Creates(revision, candidate, answers, free) && Completes(candidate, answers))
              && (status != Stored && Content(revision) != old(Content(revision)) <==>
                    && Creates(revision, candidate, answers, free) && !Completes(candidate, answers)
                    && !answers.removed)
      ensures Content(revision) != old(Content(revision)) ==> Content(revision) == Some(WrittenPart(candidate, answers))
      ensures status == Stored ==> Content(revision) == Some(candidate)
      ensures Content(revision) == old(Content(revision)) ==> files == old(files)
      ensures forall n: nat | n < UINT64_LIMIT && n != revision :: Content(n) == old(Content(n))
    {
      if revision == 0 { return InvalidRevision; }
      if !answers.safe { return Unsafe; }
      if |candidate| > MAXIMUM_REVISION_SIZE { return TooLarge; }
      if !answers.readable { return StoreIoError; }
      var name := RevisionFilename(revision);
      if name in files { return AlreadyExists; }
      if !answers.creatable { return StoreIoError; }
      var content := WrittenPart(candidate, answers);
      OwnName(revision);
      var successful := answers.written >= |candidate| && answers.synchronized;
      if successful || !answers.removed {
        files := files[name := content];
      }
      assert forall n: nat | n < UINT64_LIMIT && n != revision :: Content(n) == old(Content(n));
      assert Content(revision).Some? ==> |Content(revision).value| <= MAXIMUM_REVISION_SIZE;
      status := if successful then Stored else StoreIoError;
    }

    // `readable` stands for the checks of root and file, and for reading it.
    method LoadRevision(revision: nat, readable: bool) returns (content: Option<string>)
      requires Valid() && revision < UINT64_LIMIT
      ensures content == if revision > 0 && readable then Content(revision) else None
    {
      if revision == 0 || !readable { return None; }
      var name := RevisionFilename(revision);
      if name !in files { return None; }
      assert Content(revision).Some?;
      if |files[name]| > MAXIMUM_REVISION_SIZE { return None; }
      content := Some(files[name]);
    }

    /** Marking takes effect exactly if the revision can be read and the new marker renamed into place, and succeeds if
        the directory is synchronized as well: a reported failure may have taken effect.  It is a Mark of the
        protocol. */
    method MarkLastKnownGood(revision: nat, readable: bool, renamed: bool, synchronized: bool)
      returns (ok: bool, ghost applied: bool)
      requires Valid() && revision < UINT64_LIMIT
      modifies this
      ensures Valid()
      ensures applied <==> revision > 0 && Content(revision).Some? && readable && renamed
      ensures ok <==> applied && synchronized
      ensures MarkerEffect(old(Marker()), Mark(revision, ok, applied), Marker())
      ensures files == if applied then old(files)["last-known-good" := Print(revision) + "\n"] else old(files)
      ensures forall n: nat | n < UINT64_LIMIT :: Content(n) == old(Content(n))
    {
      applied := false;
      MarkIsLegal(Marker(), revision, false, false);
      var existing := LoadRevision(revision, readable);
      if existing.None? || !renamed { return false, false; }
      MarkerRoundTrip(revision);
      OwnName(revision);
      MarkIsLegal(Marker(), revision, synchronized, true);
      files := files[MARKER_NAME := MarkerText(revision)];
      ok, applied := synchronized, true;
    }

    /** The revision reported is the marker's, and it is reported whenever marker and revision can be read.  Reading it
        is a ReadMarker of the protocol. */
    method LastKnownGood(readable: bool, revisionReadable: bool) returns (revision: Option<nat>)
      requires Valid()
      ensures revision == if readable && revisionReadable then Marker() else None
      ensures revision.Some? ==> Content(revision.value).Some?
      ensures MarkerEffect(Marker(), ReadMarker(revision), Marker())
    {
      ReadMarkerIsLegal(Marker(), None);
      if !readable || MARKER_NAME !in files { return None; }
      revision := ReadMarkerText(files[MARKER_NAME]);
      MarkerTextIsRevision(files[MARKER_NAME]);
      if revision.None? { return None; }
      ReadMarkerIsLegal(Marker(), revision);
      var content := LoadRevision(revision.value, revisionReadable);
      if content.None? { return None; }
    }
  }

  /** What a failed store can do to any free revision: for every proper beginning of the candidate there are answers
      after which that beginning stands under the revision's name, is loaded as the revision, and blocks every later
      store of the revision, whatever the system then answers. */
  method PartialRevision(store: Store, revision: nat, candidate: string, k: nat, later: string, answers: StoreAnswers)
    returns (status: StoreStatus, loaded: Option<string>, again: StoreStatus)
    requires store.Valid() && 0 < revision < UINT64_LIMIT && store.Content(revision).None?
    requires k < |candidate| <= MAXIMUM_REVISION_SIZE
    modifies store
    ensures store.Valid() && status == StoreIoError
    ensures loaded == Some(candidate[..k]) && store.Content(revision) == Some(candidate[..k])
    ensures again != Stored
    ensures answers.safe && answers.readable && |later| <= MAXIMUM_REVISION_SIZE ==> again == AlreadyExists
  {
    status := store.StoreRevision(revision, candidate, StoreAnswers(true, true, true, k, true, false));
    loaded := store.LoadRevision(revision, true);
    again := store.StoreRevision(revision, later, answers);
  }
}
