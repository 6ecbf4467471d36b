/**
 The durable record at the level of files: temporary files written in chunks, published by link, replaced by rename,
 removed by unlink.

 Any number of begin calls run at once; advance and clear are the callers' own and exclude each other (the service
 holds a mutex).  A crash stops every call and keeps the directory.  The record refines one optional register.
 */
module TransactionFiles {
  import opened Basics
  import opened ActivationProtocol
  import opened RecordEncoding

  datatype Name = Final | Temp(k: nat)

  // What a call writes, with the operation and the phase asked for.
  datatype Write = Publish(t: Pending) | Replace(op: string, prior: Pending, next: Phase)

  function Written(w: Write): Pending {
    match w
    case Publish(t) => t
    case Replace(_, prior, next) => prior.(phase := next)
  }

  function Text(w: Write): string { Serialize(Written(w)) }

  datatype Call =
    | Writing(w: Write, k: nat, inode: nat, offset: nat)
    | Synced(w: Write, k: nat, inode: nat)
    | Linked(w: Write, k: nat)
    | Refused(w: Write, k: nat)
    | Broken(w: Write, k: nat)
    | Unsynced(w: Write)
    | Updating(op: string, cur: Pending, next: Phase)
    | Clearing(op: string, cur: Pending)
    | Cleared(op: string)
    | Finished(e: Effect)

  // The directory, the contents of its inodes and the calls in progress.
  datatype Files = Files(names: map<Name, nat>, inodes: map<nat, string>, calls: map<nat, Call>)

  // Advance and clear run one at a time.
  predicate Updates(c: Call) {
    match c
    case Writing(w, _, _, _) => w.Replace?
    case Synced(w, _, _) => w.Replace?
    case Broken(w, _) => w.Replace?
    case Unsynced(w) => w.Replace?
    case Updating(_, _, _) | Clearing(_, _) | Cleared(_) => true
    case _ => false
  }

  predicate NoUpdate(s: Files) { forall c :: c in s.calls ==> !Updates(s.calls[c]) }

  // What `load` sees.
  function Record(s: Files): Option<Pending> {
    if Final in s.names && s.names[Final] in s.inodes then Parse(s.inodes[s.names[Final]]) else None
  }

  datatype Step =
    | StartBegin(t: Pending, k: nat, inode: nat)
    | StartAdvance(op: string, next: Phase)
    | StartClear(op: string)
    | CreateTemp(k: nat, inode: nat)
    | WriteChunk(n: nat)
    | Sync
    | Fail
    | Link
    | Rename
    | UnlinkTemp(removed: bool)
    | UnlinkFinal
    | SyncDirectory(ok: bool)

  predicate Fresh(s: Files, k: nat, inode: nat) { Temp(k) !in s.names && inode !in s.inodes }

  predicate Enabled(s: Files, c: nat, a: Step) {
    match a
    case StartBegin(t, k, inode) =>
      c !in s.calls && ValidTransaction(t) && t.phase == PreparedForLoad && Fresh(s, k, inode)
    case StartAdvance(op, next) =>
      && c !in s.calls && NoUpdate(s)
      && Record(s).Some? && Record(s).value.op == op && Rank(next) == Rank(Record(s).value.phase) + 1
    case StartClear(op) => c !in s.calls && NoUpdate(s) && Record(s).Some? && Record(s).value.op == op
    case CreateTemp(k, inode) => c in s.calls && s.calls[c].Updating? && Fresh(s, k, inode)
    case WriteChunk(n) =>
      c in s.calls && s.calls[c].Writing? && 0 < n <= |Text(s.calls[c].w)| - s.calls[c].offset
      && s.calls[c].inode in s.inodes
    case Sync => c in s.calls && s.calls[c].Writing? && s.calls[c].offset == |Text(s.calls[c].w)|
    case Fail =>
      c in s.calls
      && (s.calls[c].Writing? || s.calls[c].Synced? || s.calls[c].Updating? || s.calls[c].Clearing?)
    case Link => c in s.calls && s.calls[c].Synced? && s.calls[c].w.Publish?
    case Rename => c in s.calls && s.calls[c].Synced? && s.calls[c].w.Replace?
    case UnlinkTemp(_) => c in s.calls && (s.calls[c].Linked? || s.calls[c].Refused? || s.calls[c].Broken?)
    case UnlinkFinal => c in s.calls && s.calls[c].Clearing?
    case SyncDirectory(_) => c in s.calls && (s.calls[c].Unsynced? || s.calls[c].Cleared?)
  }

  function To(s: Files, c: nat, call: Call): Files { s.(calls := s.calls[c := call]) }

  // How a call ends, as an effect of the protocol.
  function Failed(w: Write): Effect {
    match w
    case Publish(t) => Begin(t, BeginFailed, false)
    case Replace(op, _, next) => Advance(op, next, false, false)
  }

  function Published(w: Write, ok: bool): Effect {
    match w
    case Publish(t) => Begin(t, if ok then Created else BeginFailed, true)
    case Replace(op, _, next) => Advance(op, next, ok, true)
  }

  function After(s: Files, c: nat, a: Step): Files
    requires Enabled(s, c, a)
  {
    match a
    case StartBegin(t, k, inode) =>
      To(s.(names := s.names[Temp(k) := inode], inodes := s.inodes[inode := ""]), c, Writing(Publish(t), k, inode, 0))
    case StartAdvance(op, next) => To(s, c, Updating(op, Record(s).value, next))
    case StartClear(op) => To(s, c, Call.Clearing(op, Record(s).value))
    case CreateTemp(k, inode) =>
      To(s.(names := s.names[Temp(k) := inode], inodes := s.inodes[inode := ""]), c,
         Writing(Replace(s.calls[c].op, s.calls[c].cur, s.calls[c].next), k, inode, 0))
    case WriteChunk(n) =>
      var call := s.calls[c];
      To(s.(inodes := s.inodes[call.inode := s.inodes[call.inode] + Text(call.w)[call.offset..call.offset + n]]), c,
         call.(offset := call.offset + n))
    case Sync => To(s, c, Synced(s.calls[c].w, s.calls[c].k, s.calls[c].inode))
    case Fail =>
      (match s.calls[c]
       case Updating(op, _, next) => To(s, c, Finished(Advance(op, next, false, false)))
       case Clearing(op, _) => To(s, c, Finished(Clear(op, false, false)))
       case _ => To(s, c, Broken(s.calls[c].w, s.calls[c].k)))
    case Link =>
      if Final in s.names then To(s, c, Refused(s.calls[c].w, s.calls[c].k))
      else To(s.(names := s.names[Final := s.calls[c].inode]), c, Linked(s.calls[c].w, s.calls[c].k))
    case Rename =>
      To(s.(names := (s.names - {Temp(s.calls[c].k)})[Final := s.calls[c].inode]), c, Unsynced(s.calls[c].w))
    case UnlinkTemp(removed) =>
      var call := s.calls[c];
      To(if removed then s.(names := s.names - {Temp(call.k)}) else s, c,
         match call
         case Linked(w, _) => Unsynced(w)
         case Refused(w, _) => Finished(Begin(Written(w), Conflict, false))
         case _ => Finished(Failed(call.w)))
    case UnlinkFinal => To(s.(names := s.names - {Final}), c, Cleared(s.calls[c].op))
    case SyncDirectory(ok) =>
      To(s, c, Finished(match s.calls[c]
                        case Unsynced(w) => Published(w, ok)
                        case _ => Clear(s.calls[c].op, ok, true)))
  }

  // ---------- the invariant ----------

  ghost predicate CompleteRecord(s: Files) {
    Final in s.names ==>
      && s.names[Final] in s.inodes
      && Record(s).Some? && ValidTransaction(Record(s).value)
      && s.inodes[s.names[Final]] == Serialize(Record(s).value)
  }

  // The call's temporary file is its own and holds what the call has written so far.
  ghost predicate OwnFile(s: Files, k: nat, inode: nat, content: string) {
    && Temp(k) in s.names && s.names[Temp(k)] == inode && inode in s.inodes && s.inodes[inode] == content
    && forall name :: name in s.names && s.names[name] == inode ==> name == Temp(k)
  }

  // A new record is at the first phase; an update takes the record one phase further.
  ghost predicate ValidWrite(w: Write) {
    && ValidTransaction(Written(w))
    && match w
       case Publish(t) => t.phase == PreparedForLoad
       case Replace(op, prior, next) => prior.op == op && Rank(next) == Rank(prior.phase) + 1
  }

  ghost predicate CallHolds(s: Files, call: Call) {
    match call
    case Writing(w, k, inode, offset) =>
      && ValidWrite(w) && offset <= |Text(w)| && OwnFile(s, k, inode, Text(w)[..offset])
      && (w.Replace? ==> Record(s) == Some(w.prior))
    case Synced(w, k, inode) =>
      && ValidWrite(w) && OwnFile(s, k, inode, Text(w))
      && (w.Replace? ==> Record(s) == Some(w.prior))
    case Updating(op, cur, next) => Record(s) == Some(cur) && ValidWrite(Replace(op, cur, next))
    case Clearing(op, cur) => Record(s) == Some(cur) && cur.op == op
    case Linked(w, k) => w.Publish? && Temp(k) in s.names
    case Refused(w, k) => w.Publish? && Temp(k) in s.names
    case Broken(_, k) => Temp(k) in s.names
    case _ => true
  }

  predicate Uses(call: Call, k: nat) {
    match call
    case Writing(_, k2, _, _) => k == k2
    case Synced(_, k2, _) => k == k2
    case Linked(_, k2) => k == k2
    case Refused(_, k2) => k == k2
    case Broken(_, k2) => k == k2
    case _ => false
  }

  // One update at a time, and no temporary name used twice.
  ghost predicate Separate(s: Files) {
    && (forall c, d :: c in s.calls && d in s.calls && Updates(s.calls[c]) && Updates(s.calls[d]) ==> c == d)
    && (forall c, d, k :: c in s.calls && d in s.calls && Uses(s.calls[c], k) && Uses(s.calls[d], k) ==> c == d)
  }

  ghost predicate Invariant(s: Files) {
    && CompleteRecord(s)
    && (forall name :: name in s.names ==> s.names[name] in s.inodes)
    && (forall c :: c in s.calls ==> CallHolds(s, s.calls[c]))
    && Separate(s)
  }

  // ---------- refinement ----------

  // The effect the step may turn out to be, once the directory is synchronized or not.
  function Commits(s: Files, c: nat, a: Step, ok: bool): Option<Effect>
    requires Enabled(s, c, a)
  {
    match a
    case Link =>
      var t := Written(s.calls[c].w);
      Some(if Final in s.names then Begin(t, Conflict, false)
           else Begin(t, if ok then Created else BeginFailed, true))
    case Rename => Some(Advance(s.calls[c].w.op, s.calls[c].w.next, ok, true))
    case UnlinkFinal => Some(Clear(s.calls[c].op, ok, true))
    case _ => None
  }

  // A step is one atomic effect on the register, or leaves it alone.
  ghost predicate Refines(before: Option<Pending>, after: Option<Pending>, e: Option<Effect>) {
    if e.None? then after == before
    else
      forall pf, marker ::
        var w := World(pf, marker, before);
        Legal(w, e.value) && Apply(w, e.value) == World(pf, marker, after)
  }

  // ---------- every step keeps the invariant ----------

  predicate Owns(call: Call, inode: nat) {
    match call
    case Writing(_, _, inode2, _) => inode == inode2
    case Synced(_, _, inode2) => inode == inode2
    case _ => false
  }

  // Calls that have read the record and have yet to change it.
  predicate Relies(call: Call) {
    match call
    case Writing(w, _, _, _) => w.Replace?
    case Synced(w, _, _) => w.Replace?
    case Updating(_, _, _) | Clearing(_, _) => true
    case _ => false
  }

  // A step of call c leaves alone what another call depends on.
  ghost predicate Undisturbed(s: Files, s2: Files, d: nat)
    requires d in s.calls
  {
    && (Relies(s.calls[d]) ==> Record(s2) == Record(s))
    && (forall k :: Uses(s.calls[d], k) && Temp(k) in s.names ==>
          Temp(k) in s2.names && s2.names[Temp(k)] == s.names[Temp(k)])
    && (forall inode :: Owns(s.calls[d], inode) && inode in s.inodes ==>
          && inode in s2.inodes && s2.inodes[inode] == s.inodes[inode]
          && (forall name :: name in s2.names && s2.names[name] == inode ==>
                name in s.names && s.names[name] == inode))
  }

  lemma OtherHolds(s: Files, s2: Files, d: nat)
    requires d in s.calls && CallHolds(s, s.calls[d]) && Undisturbed(s, s2, d)
    ensures CallHolds(s2, s.calls[d])
  {
    hide Record, ValidTransaction, ValidWrite, Serialize;
    var call := s.calls[d];
    if call.Writing? || call.Synced? {
      assert Uses(call, call.k) && Owns(call, call.inode);
    } else if call.Linked? || call.Refused? || call.Broken? {
      assert Uses(call, call.k);
    }
  }

  // The call that steps does not become a second update, nor take a temporary name in use.
  ghost predicate Admitted(s: Files, c: nat, call: Call) {
    && (Updates(call) ==> (c in s.calls && Updates(s.calls[c])) || NoUpdate(s))
    && (forall k :: Uses(call, k) ==> (c in s.calls && Uses(s.calls[c], k)) || Temp(k) !in s.names)
  }

  lemma UsedNamesExist(s: Files, c: nat, k: nat)
    requires Invariant(s) && c in s.calls && Uses(s.calls[c], k)
    ensures Temp(k) in s.names
  {
    hide Record, ValidTransaction, ValidWrite, Serialize, CompleteRecord;
    assert CallHolds(s, s.calls[c]);
  }

  lemma UnfoldSeparate(s: Files)
    requires Invariant(s)
    ensures Separate(s)
  {}

  lemma StaysSeparate(s: Files, s2: Files, c: nat, call: Call)
    requires Invariant(s) && s2.calls == s.calls[c := call] && Admitted(s, c, call)
    ensures Separate(s2)
  {
    hide CallHolds, CompleteRecord, Invariant, Updates, Uses;
    assert Separate(s) by { UnfoldSeparate(s); }
    forall d, k | d in s.calls && Uses(s.calls[d], k) ensures Temp(k) in s.names {
      UsedNamesExist(s, d, k);
    }
  }

  lemma Assemble(s: Files, s2: Files, c: nat, call: Call)
    requires Invariant(s) && s2.calls == s.calls[c := call]
    requires forall d :: d in s.calls && d != c ==> Undisturbed(s, s2, d)
    requires Admitted(s, c, call)
    requires CompleteRecord(s2) && forall name :: name in s2.names ==> s2.names[name] in s2.inodes
    requires CallHolds(s2, call)
    ensures Invariant(s2)
  {
    hide Undisturbed, CompleteRecord, Admitted, Separate, CallHolds;
    StaysSeparate(s, s2, c, call);
    forall d | d in s2.calls && d != c ensures CallHolds(s2, s2.calls[d]) {
      OtherHolds(s, s2, d);
    }
  }

  // Two calls never own the same inode, and no owned inode is the record's.
  lemma OwnersDiffer(s: Files, c: nat, d: nat, inode: nat)
    requires Invariant(s) && c in s.calls && Owns(s.calls[c], inode)
    ensures d in s.calls && d != c ==> !Owns(s.calls[d], inode)
    ensures Final in s.names ==> s.names[Final] != inode
  {
    hide Record, ValidTransaction, ValidWrite, Serialize, CompleteRecord;
    assert CallHolds(s, s.calls[c]) && Uses(s.calls[c], s.calls[c].k);
    if d in s.calls {
      assert CallHolds(s, s.calls[d]);
      assert Owns(s.calls[d], inode) ==> Uses(s.calls[d], s.calls[d].k);
    }
  }

  lemma FreshIsOwn(s: Files, s2: Files, k: nat, inode: nat)
    requires Invariant(s) && Fresh(s, k, inode)
    requires s2.names == s.names[Temp(k) := inode] && s2.inodes == s.inodes[inode := ""]
    ensures OwnFile(s2, k, inode, "") && Record(s2) == Record(s) && CompleteRecord(s2)
  {
    hide Parse, ValidTransaction, ValidWrite, Serialize, Separate;
  }

  // A fresh temporary file disturbs nobody.
  lemma FreshDisturbsNobody(s: Files, s2: Files, k: nat, inode: nat, d: nat)
    requires Invariant(s) && Fresh(s, k, inode) && d in s.calls
    requires s2.names == s.names[Temp(k) := inode] && s2.inodes == s.inodes[inode := ""]
    ensures Undisturbed(s, s2, d)
  {
    hide Record, CompleteRecord, CallHolds, OwnFile, Separate;
    FreshIsOwn(s, s2, k, inode);
    forall k2 | Uses(s.calls[d], k2) ensures Temp(k2) in s.names {
      UsedNamesExist(s, d, k2);
    }
  }

  lemma ValidPublish(t: Pending)
    requires ValidTransaction(t) && t.phase == PreparedForLoad
    ensures ValidWrite(Publish(t))
  {}

  lemma StartKeeps(s: Files, c: nat, a: Step)
    requires Invariant(s) && Enabled(s, c, a) && (a.StartBegin? || a.CreateTemp?)
    ensures Invariant(After(s, c, a))
  {
    hide Parse, ValidTransaction, Serialize, Separate, Undisturbed;
    var s2 := After(s, c, a);
    forall d | d in s.calls ensures Undisturbed(s, s2, d) {
      FreshDisturbsNobody(s, s2, a.k, a.inode, d);
    }
    FreshIsOwn(s, s2, a.k, a.inode);
    if a.CreateTemp? {
      assert CallHolds(s, s.calls[c]);
    } else {
      ValidPublish(a.t);
    }
    assert Text(s2.calls[c].w)[..0] == "";
    Assemble(s, s2, c, s2.calls[c]);
  }

  lemma ValidReplace(s: Files, op: string, next: Phase)
    requires Record(s).Some? && CompleteRecord(s) && Record(s).value.op == op
    requires Rank(next) == Rank(Record(s).value.phase) + 1
    ensures ValidWrite(Replace(op, Record(s).value, next))
  {
    hide Parse, Serialize;
  }

  lemma StartUpdateKeeps(s: Files, c: nat, a: Step)
    requires Invariant(s) && Enabled(s, c, a) && (a.StartAdvance? || a.StartClear?)
    ensures Invariant(After(s, c, a))
  {
    hide Parse, ValidTransaction, ValidWrite, Serialize, Separate;
    var s2 := After(s, c, a);
    if a.StartAdvance? { ValidReplace(s, a.op, a.next); }
    Assemble(s, s2, c, s2.calls[c]);
  }

  lemma Longer(text: string, offset: nat, n: nat)
    requires offset + n <= |text|
    ensures text[..offset] + text[offset..offset + n] == text[..offset + n]
  {}

  // Writing to an inode that is not the record's.
  lemma OtherInodes(s: Files, s2: Files, inode: nat)
    requires Invariant(s) && s2.names == s.names && inode in s.inodes && s2.inodes.Keys == s.inodes.Keys
    requires forall i :: i in s.inodes && i != inode ==> s2.inodes[i] == s.inodes[i]
    requires Final in s.names ==> s.names[Final] != inode
    ensures Record(s2) == Record(s) && CompleteRecord(s2)
  {
    hide Parse, ValidTransaction, ValidWrite, Serialize, Separate, CallHolds;
  }

  lemma WriteDisturbsNobody(s: Files, s2: Files, inode: nat, d: nat)
    requires d in s.calls && !Owns(s.calls[d], inode) && Record(s2) == Record(s)
    requires s2.names == s.names && s2.inodes.Keys == s.inodes.Keys
    requires forall i :: i in s.inodes && i != inode ==> s2.inodes[i] == s.inodes[i]
    ensures Undisturbed(s, s2, d)
  {
    hide Record;
  }

  lemma WriteKeeps(s: Files, c: nat, a: Step)
    requires Invariant(s) && Enabled(s, c, a) && a.WriteChunk?
    ensures Invariant(After(s, c, a))
  {
    hide Parse, ValidTransaction, ValidWrite, Serialize, Separate, Undisturbed, CompleteRecord;
    var call := s.calls[c];
    var s2 := After(s, c, a);
    assert CallHolds(s, call);
    Longer(Text(call.w), call.offset, a.n);
    OwnersDiffer(s, c, c, call.inode);
    OtherInodes(s, s2, call.inode);
    forall d | d in s.calls && d != c ensures Undisturbed(s, s2, d) {
      OwnersDiffer(s, c, d, call.inode);
      WriteDisturbsNobody(s, s2, call.inode, d);
    }
    Assemble(s, s2, c, s2.calls[c]);
  }

  lemma SameDirectory(s: Files, s2: Files)
    requires Invariant(s) && s2.names == s.names && s2.inodes == s.inodes
    ensures CompleteRecord(s2) && Record(s2) == Record(s)
    ensures forall d :: d in s.calls ==> Undisturbed(s, s2, d)
  {
    hide Parse, ValidTransaction, ValidWrite, Serialize, Separate, CallHolds;
  }

  lemma PrivateStep(s: Files, c: nat, a: Step)
    requires Enabled(s, c, a) && (a.Sync? || a.Fail? || a.SyncDirectory?)
    requires CallHolds(s, s.calls[c])
    ensures var s2 := After(s, c, a);
            CallHolds(s2, s2.calls[c]) && Admitted(s, c, s2.calls[c])
  {
    hide Parse, ValidTransaction, ValidWrite, Serialize;
  }

  // Synchronizing, failing, and the end of a call leave the directory alone.
  lemma PrivateKeeps(s: Files, c: nat, a: Step)
    requires Invariant(s) && Enabled(s, c, a) && (a.Sync? || a.Fail? || a.SyncDirectory?)
    ensures Invariant(After(s, c, a))
  {
    hide Parse, ValidTransaction, ValidWrite, Serialize, Separate, Undisturbed, CompleteRecord;
    var s2 := After(s, c, a);
    SameDirectory(s, s2);
    assert CallHolds(s, s.calls[c]);
    PrivateStep(s, c, a);
    Assemble(s, s2, c, s2.calls[c]);
  }

  lemma NameRemoved(s: Files, s2: Files, k: nat, d: nat)
    requires Invariant(s) && s2.names == s.names - {Temp(k)} && s2.inodes == s.inodes
    requires d in s.calls && !Uses(s.calls[d], k)
    ensures Undisturbed(s, s2, d)
  {
    hide Parse, ValidTransaction, ValidWrite, Serialize, Separate, CallHolds;
  }

  lemma RecordStays(s: Files, s2: Files, k: nat)
    requires Invariant(s) && s2.inodes == s.inodes
    requires s2.names == s.names || s2.names == s.names - {Temp(k)}
    ensures CompleteRecord(s2) && Record(s2) == Record(s)
  {
    hide Parse, ValidTransaction, ValidWrite, Serialize, Separate, CallHolds;
  }

  lemma UsersDiffer(s: Files, c: nat, d: nat, k: nat)
    requires Invariant(s) && c in s.calls && d in s.calls && c != d && Uses(s.calls[c], k)
    ensures !Uses(s.calls[d], k)
  {}

  lemma UnlinkTempKeeps(s: Files, c: nat, a: Step)
    requires Invariant(s) && Enabled(s, c, a) && a.UnlinkTemp?
    ensures Invariant(After(s, c, a))
  {
    hide Parse, ValidTransaction, ValidWrite, Serialize, Separate, CompleteRecord, Undisturbed;
    var s2 := After(s, c, a);
    var k := s.calls[c].k;
    forall d | d in s.calls && d != c ensures Undisturbed(s, s2, d) {
      UsersDiffer(s, c, d, k);
      if s2.names == s.names { SameDirectory(s, s2); } else { NameRemoved(s, s2, k, d); }
    }
    RecordStays(s, s2, k);
    assert CallHolds(s, s.calls[c]);
    Assemble(s, s2, c, s2.calls[c]);
  }

  lemma UpdatesDiffer(s: Files, c: nat, d: nat)
    requires Invariant(s) && c in s.calls && d in s.calls && c != d && Updates(s.calls[c])
    ensures !Updates(s.calls[d]) && !Relies(s.calls[d])
  {}

  lemma UnlinkFinalKeeps(s: Files, c: nat, a: Step)
    requires Invariant(s) && Enabled(s, c, a) && a.UnlinkFinal?
    ensures Invariant(After(s, c, a))
  {
    hide Parse, ValidTransaction, ValidWrite, Serialize, Separate;
    var s2 := After(s, c, a);
    forall d | d in s.calls && d != c ensures Undisturbed(s, s2, d) {
      UpdatesDiffer(s, c, d);
    }
    assert CallHolds(s, s.calls[c]);
    Assemble(s, s2, c, s2.calls[c]);
  }

  // A call that relies on the record keeps it in place.
  lemma ReliedOn(s: Files, d: nat)
    requires Invariant(s) && d in s.calls && Relies(s.calls[d])
    ensures Final in s.names
  {
    hide Parse, ValidTransaction, ValidWrite, Serialize, Separate;
    assert CallHolds(s, s.calls[d]);
  }

  lemma WrittenReadsBack(w: Write)
    requires ValidWrite(w)
    ensures ValidTransaction(Written(w)) && Parse(Text(w)) == Some(Written(w))
  {
    ReadSerialized(Written(w));
  }

  lemma LinkKeeps(s: Files, c: nat, a: Step)
    requires Invariant(s) && Enabled(s, c, a) && a.Link?
    ensures Invariant(After(s, c, a))
  {
    hide Parse, ValidTransaction, ValidWrite, Serialize, Separate;
    var call := s.calls[c];
    var s2 := After(s, c, a);
    assert CallHolds(s, call);
    WrittenReadsBack(call.w);
    forall d | d in s.calls && d != c ensures Undisturbed(s, s2, d) {
      OwnersDiffer(s, c, d, call.inode);
      if Relies(s.calls[d]) { ReliedOn(s, d); }
    }
    Assemble(s, s2, c, s2.calls[c]);
  }

  lemma RenameKeeps(s: Files, c: nat, a: Step)
    requires Invariant(s) && Enabled(s, c, a) && a.Rename?
    ensures Invariant(After(s, c, a))
  {
    hide Parse, ValidTransaction, ValidWrite, Serialize, Separate;
    var call := s.calls[c];
    var s2 := After(s, c, a);
    assert CallHolds(s, call);
    WrittenReadsBack(call.w);
    forall d | d in s.calls && d != c ensures Undisturbed(s, s2, d) {
      OwnersDiffer(s, c, d, call.inode);
      UpdatesDiffer(s, c, d);
      UsersDiffer(s, c, d, call.k);
    }
    Assemble(s, s2, c, s2.calls[c]);
  }

  lemma RecordAfter(s: Files, c: nat, a: Step)
    requires Invariant(s) && Enabled(s, c, a) && (a.Link? || a.Rename? || a.UnlinkFinal?)
    ensures a.Link? ==> Record(s).Some? == (Final in s.names) && ValidWrite(s.calls[c].w)
    ensures a.Link? ==>
              Record(After(s, c, a)) == if Final in s.names then Record(s) else Some(Written(s.calls[c].w))
    ensures a.Rename? ==> Record(s) == Some(s.calls[c].w.prior) && ValidWrite(s.calls[c].w)
    ensures a.Rename? ==> Record(After(s, c, a)) == Some(Written(s.calls[c].w))
    ensures a.UnlinkFinal? ==> Record(s) == Some(s.calls[c].cur) && s.calls[c].cur.op == s.calls[c].op
    ensures a.UnlinkFinal? ==> Record(After(s, c, a)) == None
  {
    hide Parse, ValidTransaction, ValidWrite, Serialize, Separate;
    assert CallHolds(s, s.calls[c]);
    if a.Link? || a.Rename? { WrittenReadsBack(s.calls[c].w); }
  }

  lemma WriteIsLegal(w: Write)
    requires ValidWrite(w)
    ensures w.Publish? ==> ValidPending(w.t) && w.t.phase == PreparedForLoad
    ensures w.Replace? ==> w.prior.op == w.op && Rank(w.next) == Rank(w.prior.phase) + 1
  {}

  lemma CommitRefines(s: Files, c: nat, a: Step, ok: bool)
    requires Invariant(s) && Enabled(s, c, a) && (a.Link? || a.Rename? || a.UnlinkFinal?)
    ensures Refines(Record(s), Record(After(s, c, a)), Commits(s, c, a, ok))
  {
    hide Parse, ValidTransaction, ValidWrite, Serialize, Separate, Record, CallHolds, Invariant;
    RecordAfter(s, c, a);
    if !a.UnlinkFinal? { WriteIsLegal(s.calls[c].w); }
  }

  lemma QuietRefines(s: Files, c: nat, a: Step, ok: bool)
    requires Invariant(s) && Enabled(s, c, a) && !a.Link? && !a.Rename? && !a.UnlinkFinal?
    ensures Refines(Record(s), Record(After(s, c, a)), Commits(s, c, a, ok))
  {
    hide Parse, ValidTransaction, ValidWrite, Serialize, Separate, CallHolds;
    if a.WriteChunk? {
      OwnersDiffer(s, c, c, s.calls[c].inode);
    }
  }

  /** Each step is one atomic effect on the register, whether or not the call will report success. */
  lemma StepRefines(s: Files, c: nat, a: Step, ok: bool)
    requires Invariant(s) && Enabled(s, c, a)
    ensures Refines(Record(s), Record(After(s, c, a)), Commits(s, c, a, ok))
  {
    hide Parse, ValidTransaction, ValidWrite, Serialize, Separate, CompleteRecord, Refines, Commits;
    if a.Link? || a.Rename? || a.UnlinkFinal? {
      CommitRefines(s, c, a, ok);
    } else {
      QuietRefines(s, c, a, ok);
    }
  }

  lemma StepKeeps(s: Files, c: nat, a: Step)
    requires Invariant(s) && Enabled(s, c, a)
    ensures Invariant(After(s, c, a))
  {
    hide Invariant, After, Enabled;
    match a
    case StartBegin(_, _, _) | CreateTemp(_, _) => StartKeeps(s, c, a);
    case StartAdvance(_, _) | StartClear(_) => StartUpdateKeeps(s, c, a);
    case WriteChunk(_) => WriteKeeps(s, c, a);
    case Sync | Fail | SyncDirectory(_) => PrivateKeeps(s, c, a);
    case UnlinkTemp(_) => UnlinkTempKeeps(s, c, a);
    case UnlinkFinal => UnlinkFinalKeeps(s, c, a);
    case Link => LinkKeeps(s, c, a);
    case Rename => RenameKeeps(s, c, a);
  }

  // ---------- whole runs ----------

  datatype Action = Act(c: nat, step: Step) | Crash

  predicate Possible(s: Files, x: Action) { x.Act? ==> Enabled(s, x.c, x.step) }

  // A crash ends every call and leaves the directory, temporary files included.
  function Next(s: Files, x: Action): Files
    requires Possible(s, x)
  {
    if x.Act? then After(s, x.c, x.step) else s.(calls := map[])
  }

  function Run(s: Files, actions: seq<Action>): Option<Files>
    decreases |actions|
  {
    if actions == [] then Some(s)
    else if Possible(s, actions[0]) then Run(Next(s, actions[0]), actions[1..])
    else None
  }

  lemma NextKeeps(s: Files, x: Action)
    requires Invariant(s) && Possible(s, x)
    ensures Invariant(Next(s, x))
  {
    if x.Act? {
      hide Invariant, After, Enabled;
      StepKeeps(s, x.c, x.step);
    } else {
      hide CallHolds, Parse, Serialize, ValidTransaction;
    }
  }

  lemma {:induction false} RunKeeps(s: Files, actions: seq<Action>)
    requires Invariant(s) && Run(s, actions).Some?
    ensures Invariant(Run(s, actions).value)
    decreases |actions|
  {
    hide Invariant, Possible, Next;
    if actions == [] {
    } else {
      NextKeeps(s, actions[0]);
      RunKeeps(Next(s, actions[0]), actions[1..]);
    }
  }

  // An empty directory, or one that a finished run left behind.
  const EMPTY := Files(map[], map[], map[])

  lemma EmptyHolds()
    ensures Invariant(EMPTY)
  {}

  /** With any number of begins at once and crashes anywhere, the record's name is absent or holds one complete
      record; `load` reads back exactly that record. */
  lemma RecordIsNeverTorn(actions: seq<Action>, s: Files)
    requires Run(EMPTY, actions) == Some(s)
    ensures Final !in s.names ==> Record(s) == None
    ensures Final in s.names ==>
              && s.names[Final] in s.inodes
              && exists t :: ValidTransaction(t) && s.inodes[s.names[Final]] == Serialize(t)
                          && Record(s) == Some(t) && ReadRecord(s.inodes[s.names[Final]]) == Some(t)
  {
    hide Parse, Serialize, ValidTransaction, Run, CallHolds, Separate, ReadRecord;
    assert Invariant(EMPTY) by { hide *; EmptyHolds(); }
    RunKeeps(EMPTY, actions);
    if Final in s.names {
      ReadSerialized(Record(s).value);
    }
  }

  // The effects on the register, in the order in which they happen; `oks` says what the calls will report.
  function Effects(s: Files, actions: seq<Action>, oks: seq<bool>): seq<Effect>
    requires Run(s, actions).Some? && |oks| == |actions|
    decreases |actions|
  {
    if actions == [] then []
    else
      var e := if actions[0].Act? then Commits(s, actions[0].c, actions[0].step, oks[0]) else None;
      (if e.Some? then [e.value] else []) + Effects(Next(s, actions[0]), actions[1..], oks[1..])
  }

  // The register after a sequence of atomic effects, each of them allowed where it happens.
  ghost function Register(w: World, effects: seq<Effect>): Option<World>
    decreases |effects|
  {
    if effects == [] then Some(w)
    else if Legal(w, effects[0]) then Register(Apply(w, effects[0]), effects[1..])
    else None
  }

  lemma CrashKeepsRecord(s: Files)
    ensures Record(s.(calls := map[])) == Record(s)
  {}

  /** The whole run, crashes included, is a run of one atomic register, whatever its calls go on to report. */
  lemma {:induction false} RunRefinesRegister(s: Files, actions: seq<Action>, oks: seq<bool>, pf: Pf,
                                              marker: Option<nat>)
    requires Invariant(s) && Run(s, actions).Some? && |oks| == |actions|
    ensures Register(World(pf, marker, Record(s)), Effects(s, actions, oks))
         == Some(World(pf, marker, Record(Run(s, actions).value)))
    decreases |actions|
  {
    hide Invariant, After, Enabled, Commits, Legal, Apply, Record;
    if actions == [] {
    } else {
      var x := actions[0];
      var s2 := Next(s, x);
      var w := World(pf, marker, Record(s));
      var rest := Effects(s2, actions[1..], oks[1..]);
      NextKeeps(s, x);
      RunRefinesRegister(s2, actions[1..], oks[1..], pf, marker);
      if x.Act? {
        StepRefines(s, x.c, x.step, oks[0]);
        var e := Commits(s, x.c, x.step, oks[0]);
        if e.Some? {
          assert Legal(w, e.value) && Apply(w, e.value) == World(pf, marker, Record(s2));
          assert ([e.value] + rest)[1..] == rest;
        } else {
          assert [] + rest == rest;
        }
      } else {
        CrashKeepsRecord(s);
        assert [] + rest == rest;
      }
    }
  }

  // How many begins of a run publish a record.
  function Publications(s: Files, actions: seq<Action>): nat
    requires Run(s, actions).Some?
    decreases |actions|
  {
    if actions == [] then 0
    else
      (if actions[0].Act? && actions[0].step.Link? && Final !in s.names then 1 else 0)
      + Publications(Next(s, actions[0]), actions[1..])
  }

  lemma NameStays(s: Files, x: Action)
    requires Possible(s, x) && (x.Act? ==> !x.step.UnlinkFinal?)
    ensures Final in s.names ==> Final in Next(s, x).names
    ensures x.Act? && x.step.Link? ==> Final in Next(s, x).names
  {}

  /** Of any number of begins, as long as nothing is cleared, at most one publishes, and none over a record. */
  lemma {:induction false} OnePublication(s: Files, actions: seq<Action>)
    requires Run(s, actions).Some?
    requires forall i :: 0 <= i < |actions| ==> actions[i].Crash? || !actions[i].step.UnlinkFinal?
    ensures Publications(s, actions) <= if Final in s.names then 0 else 1
    decreases |actions|
  {
    if actions == [] {
    } else {
      NameStays(s, actions[0]);
      OnePublication(Next(s, actions[0]), actions[1..]);
    }
  }

  // ---------- one call ----------

  // The effects of one call on the register; `ok` is what it reports in the end.
  function History(s: Files, actions: seq<Action>, c: nat, ok: bool): seq<Effect>
    requires Run(s, actions).Some?
    decreases |actions|
  {
    if actions == [] then []
    else
      var x := actions[0];
      var e := if x.Act? && x.c == c then Commits(s, c, x.step, ok) else None;
      (if e.Some? then [e.value] else []) + History(Next(s, x), actions[1..], c, ok)
  }

  predicate OkOf(e: Effect) {
    match e
    case Begin(_, status, _) => status == Created
    case Advance(_, _, ok, _) => ok
    case Clear(_, ok, _) => ok
    case _ => false
  }

  // Whether a call that reports e has met the register at all.
  predicate Visible(e: Effect) {
    match e
    case Begin(_, status, applied) => applied || status == Conflict
    case Advance(_, _, _, applied) => applied
    case Clear(_, _, applied) => applied
    case _ => false
  }

  // The call has yet to meet the register.
  predicate Early(s: Files, c: nat) {
    c !in s.calls
    || s.calls[c].Writing? || s.calls[c].Synced? || s.calls[c].Updating? || s.calls[c].Clearing?
  }

  // The reports still open to a call.
  predicate MayReport(s: Files, c: nat, e: Effect) {
    c in s.calls ==>
      match s.calls[c]
      case Linked(w, _) => e == Published(w, OkOf(e))
      case Refused(w, _) => e == Begin(Written(w), Conflict, false)
      case Broken(w, _) => e == Failed(w)
      case Unsynced(w) => e == Published(w, OkOf(e))
      case Cleared(op) => e == Clear(op, OkOf(e), true)
      case Finished(reported) => e == reported
      case _ => true
  }

  lemma OwnStepReports(s: Files, c: nat, a: Step, e: Effect)
    requires Enabled(s, c, a) && MayReport(After(s, c, a), c, e)
    ensures MayReport(s, c, e)
    ensures var commit := Commits(s, c, a, OkOf(e));
            if Early(s, c) && !Early(After(s, c, a), c) then
              if commit.Some? then commit == Some(e) && Visible(e) else !Visible(e)
            else commit.None?
    ensures !Early(s, c) ==> !Early(After(s, c, a), c)
  {}

  lemma NothingLeft(s: Files, c: nat, e: Effect)
    requires c in s.calls && s.calls[c] == Finished(e)
    ensures MayReport(s, c, e) && !Early(s, c)
  {}

  lemma OtherStepReports(s: Files, c: nat, a: Step, d: nat, e: Effect)
    requires Enabled(s, c, a) && c != d
    ensures MayReport(After(s, c, a), d, e) <==> MayReport(s, d, e)
    ensures Early(After(s, c, a), d) <==> Early(s, d)
  {}

  /** Calls are atomic: what a finished call reports is exactly the one effect it had on the register, at one step
      between its start and its end; a call that reports no effect had none. */
  lemma {:induction false} ReportsAreExact(s: Files, actions: seq<Action>, c: nat, e: Effect)
    requires Run(s, actions).Some?
    requires forall i :: 0 <= i < |actions| ==> actions[i].Act?
    requires var end := Run(s, actions).value; c in end.calls && end.calls[c] == Finished(e)
    ensures MayReport(s, c, e)
    ensures History(s, actions, c, OkOf(e)) == if Early(s, c) && Visible(e) then [e] else []
    decreases |actions|
  {
    hide Enabled, After, Commits, MayReport, Early, Visible;
    if actions == [] {
      NothingLeft(s, c, e);
    } else {
      var x := actions[0];
      ReportsAreExact(Next(s, x), actions[1..], c, e);
      if x.c == c {
        OwnStepReports(s, c, x.step, e);
      } else {
        OtherStepReports(s, x.c, x.step, c, e);
      }
    }
  }

  // ---------- calls that succeed ----------

  // The steps of one call, with no other in between.
  function Alone(s: Files, c: nat, steps: seq<Step>): Option<Files>
    decreases |steps|
  {
    if steps == [] then Some(s)
    else if Enabled(s, c, steps[0]) then Alone(After(s, c, steps[0]), c, steps[1..])
    else None
  }

  lemma AloneStep(s: Files, c: nat, a: Step, rest: seq<Step>)
    requires Enabled(s, c, a)
    ensures Alone(s, c, [a] + rest) == Alone(After(s, c, a), c, rest)
  {
    assert ([a] + rest)[1..] == rest;
  }

  lemma AloneEnds(s: Files, c: nat)
    ensures Alone(s, c, []) == Some(s)
  {}

  lemma QuietStep(s: Files, c: nat, a: Step)
    requires Invariant(s) && Enabled(s, c, a) && !a.Link? && !a.Rename? && !a.UnlinkFinal?
    ensures Invariant(After(s, c, a)) && Record(After(s, c, a)) == Record(s)
  {
    hide Invariant, Enabled, After, Record;
    StepKeeps(s, c, a);
    QuietRefines(s, c, a, true);
    assert Refines(Record(s), Record(After(s, c, a)), None);
  }

  lemma MayWrite(s: Files, c: nat)
    requires Invariant(s) && c in s.calls && s.calls[c].Writing? && s.calls[c].offset == 0
    ensures ValidWrite(s.calls[c].w) && Enabled(s, c, WriteChunk(|Text(s.calls[c].w)|))
  {
    hide Parse, ValidTransaction, Serialize, Separate, CompleteRecord;
    assert CallHolds(s, s.calls[c]);
    RecordSize(Written(s.calls[c].w));
  }

  lemma AloneThree(s: Files, c: nat, x: Step, y: Step, z: Step)
    requires Enabled(s, c, x) && Enabled(After(s, c, x), c, y) && Enabled(After(After(s, c, x), c, y), c, z)
    ensures Alone(s, c, [x, y, z]) == Some(After(After(After(s, c, x), c, y), c, z))
  {
    hide Enabled, After, Alone;
    AloneStep(s, c, x, [y] + [z]);
    AloneStep(After(s, c, x), c, y, [z]);
    AloneStep(After(After(s, c, x), c, y), c, z, []);
    AloneEnds(After(After(After(s, c, x), c, y), c, z), c);
    assert [x, y, z] == [x] + ([y] + [z]) && [z] + [] == [z];
  }

  // A call that has its temporary file writes the whole record and synchronizes it.
  lemma WritesAll(s: Files, c: nat, rest: seq<Step>) returns (s2: Files)
    requires Invariant(s) && c in s.calls && s.calls[c].Writing? && s.calls[c].offset == 0
    ensures var call := s.calls[c];
            && Alone(s, c, [WriteChunk(|Text(call.w)|), Sync] + rest) == Alone(s2, c, rest)
            && s2.calls == s.calls[c := Synced(call.w, call.k, call.inode)] && ValidWrite(call.w)
    ensures Invariant(s2) && s2.names == s.names && Record(s2) == Record(s)
  {
    hide Alone, Invariant, Record, Serialize, ValidWrite;
    var write := WriteChunk(|Text(s.calls[c].w)|);
    MayWrite(s, c);
    var s1 := After(s, c, write);
    QuietStep(s, c, write);
    QuietStep(s1, c, Sync);
    s2 := After(s1, c, Sync);
    AloneStep(s, c, write, [Sync] + rest);
    AloneStep(s1, c, Sync, rest);
    assert [write, Sync] + rest == [write] + ([Sync] + rest);
    assert s2.calls == s.calls[c := s2.calls[c]];
  }

  lemma RecordHasName(s: Files)
    requires Invariant(s)
    ensures Record(s).Some? <==> Final in s.names
  {}

  // What is done up to the synchronized temporary file.
  function BeginWriting(t: Pending, k: nat, inode: nat): seq<Step> {
    [StartBegin(t, k, inode)] + [WriteChunk(|Serialize(t)|), Sync]
  }

  lemma BeginWrites(s: Files, c: nat, t: Pending, k: nat, inode: nat, rest: seq<Step>) returns (s2: Files)
    requires Invariant(s) && c !in s.calls && ValidTransaction(t) && t.phase == PreparedForLoad && Fresh(s, k, inode)
    ensures Alone(s, c, BeginWriting(t, k, inode) + rest) == Alone(s2, c, rest)
    ensures Invariant(s2) && s2.calls == s.calls[c := Synced(Publish(t), k, inode)] && Record(s2) == Record(s)
    ensures s2.names == s.names[Temp(k) := inode] && (Final in s2.names <==> Record(s).Some?)
  {
    hide Alone, Invariant, Record, Serialize, ValidTransaction;
    var start := StartBegin(t, k, inode);
    var s1 := After(s, c, start);
    QuietStep(s, c, start);
    s2 := WritesAll(s1, c, rest);
    RecordHasName(s2);
    AloneStep(s, c, start, [WriteChunk(|Serialize(t)|), Sync] + rest);
    assert BeginWriting(t, k, inode) + rest == [start] + ([WriteChunk(|Serialize(t)|), Sync] + rest);
  }

  lemma Publishes(s: Files, c: nat, ok: bool) returns (end: Files)
    requires Invariant(s) && c in s.calls && s.calls[c].Synced? && s.calls[c].w.Publish? && Final !in s.names
    ensures Alone(s, c, [Link, UnlinkTemp(true), SyncDirectory(ok)]) == Some(end)
    ensures var t, k := s.calls[c].w.t, s.calls[c].k;
            && end.calls == s.calls[c := Finished(Begin(t, if ok then Created else BeginFailed, true))]
            && Record(end) == Some(t) && Temp(k) !in end.names
  {
    hide Alone, Invariant, Record;
    var s1 := After(s, c, Link);
    StepKeeps(s, c, Link);
    RecordAfter(s, c, Link);
    var s2 := After(s1, c, UnlinkTemp(true));
    QuietStep(s1, c, UnlinkTemp(true));
    end := After(s2, c, SyncDirectory(ok));
    QuietStep(s2, c, SyncDirectory(ok));
    AloneThree(s, c, Link, UnlinkTemp(true), SyncDirectory(ok));
    assert end.calls == s.calls[c := end.calls[c]];
  }

  lemma Conflicts(s: Files, c: nat) returns (end: Files)
    requires Invariant(s) && c in s.calls && s.calls[c].Synced? && s.calls[c].w.Publish? && Final in s.names
    ensures Alone(s, c, [Link, UnlinkTemp(true)]) == Some(end)
    ensures end.calls == s.calls[c := Finished(Begin(s.calls[c].w.t, Conflict, false))]
    ensures Record(end) == Record(s) && Temp(s.calls[c].k) !in end.names
  {
    hide Alone, Invariant, Record;
    var s1 := After(s, c, Link);
    StepKeeps(s, c, Link);
    RecordAfter(s, c, Link);
    end := After(s1, c, UnlinkTemp(true));
    QuietStep(s1, c, UnlinkTemp(true));
    AloneStep(s, c, Link, [UnlinkTemp(true)]);
    AloneStep(s1, c, UnlinkTemp(true), []);
    AloneEnds(end, c);
    assert [UnlinkTemp(true)] + [] == [UnlinkTemp(true)];
    assert [Link, UnlinkTemp(true)] == [Link] + [UnlinkTemp(true)];
    assert end.calls == s.calls[c := end.calls[c]];
  }

  /** A begin creates the record if there is none and reports it once the directory is synchronized; otherwise it
      reports the conflict and changes nothing. */
  lemma BeginRuns(s: Files, c: nat, t: Pending, k: nat, inode: nat, ok: bool) returns (end: Files)
    requires Invariant(s) && c !in s.calls && ValidTransaction(t) && t.phase == PreparedForLoad && Fresh(s, k, inode)
    ensures Record(s).None? ==>
              && Alone(s, c, BeginWriting(t, k, inode) + [Link, UnlinkTemp(true), SyncDirectory(ok)]) == Some(end)
              && end.calls == s.calls[c := Finished(Begin(t, if ok then Created else BeginFailed, true))]
              && Record(end) == Some(t)
    ensures Record(s).Some? ==>
              && Alone(s, c, BeginWriting(t, k, inode) + [Link, UnlinkTemp(true)]) == Some(end)
              && end.calls == s.calls[c := Finished(Begin(t, Conflict, false))]
              && Record(end) == Record(s)
    ensures Temp(k) !in end.names
  {
    hide Alone, Invariant, Record, ValidTransaction, BeginWriting;
    if Record(s).None? {
      var s2 := BeginWrites(s, c, t, k, inode, [Link, UnlinkTemp(true), SyncDirectory(ok)]);
      end := Publishes(s2, c, ok);
    } else {
      var s2 := BeginWrites(s, c, t, k, inode, [Link, UnlinkTemp(true)]);
      end := Conflicts(s2, c);
    }
  }

  function AdvanceWriting(op: string, next: Phase, k: nat, inode: nat, updated: Pending): seq<Step> {
    [StartAdvance(op, next)] + ([CreateTemp(k, inode)] + [WriteChunk(|Serialize(updated)|), Sync])
  }

  lemma AdvanceWrites(s: Files, c: nat, op: string, next: Phase, k: nat, inode: nat, rest: seq<Step>)
    returns (s3: Files)
    requires Invariant(s) && c !in s.calls && NoUpdate(s) && Fresh(s, k, inode)
    requires Record(s).Some? && Record(s).value.op == op && Rank(next) == Rank(Record(s).value.phase) + 1
    ensures Alone(s, c, AdvanceWriting(op, next, k, inode, Record(s).value.(phase := next)) + rest)
         == Alone(s3, c, rest)
    ensures Invariant(s3) && Record(s3) == Record(s)
    ensures s3.calls == s.calls[c := Synced(Replace(op, Record(s).value, next), k, inode)]
  {
    hide Alone, Invariant, Record, Serialize, NoUpdate, ValidWrite;
    var start, create := StartAdvance(op, next), CreateTemp(k, inode);
    var s1 := After(s, c, start);
    QuietStep(s, c, start);
    var s2 := After(s1, c, create);
    QuietStep(s1, c, create);
    s3 := WritesAll(s2, c, rest);
    var updated := Record(s).value.(phase := next);
    var writing := [WriteChunk(|Serialize(updated)|), Sync] + rest;
    AloneStep(s, c, start, [create] + writing);
    AloneStep(s1, c, create, writing);
    assert AdvanceWriting(op, next, k, inode, updated) + rest == [start] + ([create] + writing);
    assert s3.calls == s.calls[c := s3.calls[c]];
  }

  /** An advance of the pending operation by one phase, with no other update under way, replaces the record. */
  lemma AdvanceRuns(s: Files, c: nat, op: string, next: Phase, k: nat, inode: nat, ok: bool) returns (end: Files)
    requires Invariant(s) && c !in s.calls && NoUpdate(s) && Fresh(s, k, inode)
    requires Record(s).Some? && Record(s).value.op == op && Rank(next) == Rank(Record(s).value.phase) + 1
    ensures var updated := Record(s).value.(phase := next);
            && Alone(s, c, AdvanceWriting(op, next, k, inode, updated) + [Rename, SyncDirectory(ok)]) == Some(end)
            && end.calls == s.calls[c := Finished(Advance(op, next, ok, true))]
            && Record(end) == Some(updated) && Temp(k) !in end.names
  {
    hide Alone, Invariant, Record, NoUpdate, ValidWrite, AdvanceWriting;
    var s3 := AdvanceWrites(s, c, op, next, k, inode, [Rename, SyncDirectory(ok)]);
    var s4 := After(s3, c, Rename);
    StepKeeps(s3, c, Rename);
    RecordAfter(s3, c, Rename);
    end := After(s4, c, SyncDirectory(ok));
    QuietStep(s4, c, SyncDirectory(ok));
    AloneStep(s3, c, Rename, [SyncDirectory(ok)]);
    AloneStep(s4, c, SyncDirectory(ok), []);
    AloneEnds(end, c);
    assert [SyncDirectory(ok)] + [] == [SyncDirectory(ok)];
    assert [Rename, SyncDirectory(ok)] == [Rename] + [SyncDirectory(ok)];
    assert end.calls == s.calls[c := end.calls[c]];
  }

  /** A clear of the pending operation, with no update under way, removes the record. */
  lemma ClearRuns(s: Files, c: nat, op: string, ok: bool) returns (end: Files)
    requires Invariant(s) && c !in s.calls && NoUpdate(s) && Record(s).Some? && Record(s).value.op == op
    ensures Alone(s, c, [StartClear(op), UnlinkFinal, SyncDirectory(ok)]) == Some(end)
    ensures end.calls == s.calls[c := Finished(Clear(op, ok, true))] && Record(end).None?
  {
    hide Alone, Invariant, Record, NoUpdate;
    var s1 := After(s, c, StartClear(op));
    QuietStep(s, c, StartClear(op));
    var s2 := After(s1, c, UnlinkFinal);
    StepKeeps(s1, c, UnlinkFinal);
    RecordAfter(s1, c, UnlinkFinal);
    end := After(s2, c, SyncDirectory(ok));
    QuietStep(s2, c, SyncDirectory(ok));
    AloneThree(s, c, StartClear(op), UnlinkFinal, SyncDirectory(ok));
    assert end.calls == s.calls[c := end.calls[c]];
  }
}
