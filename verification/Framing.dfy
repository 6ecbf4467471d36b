/**
 Length-prefixed frames over a stream socket that moves bytes in pieces of its own choosing.

 A script is what the poll and transfer calls of the loops will answer, one entry per turn of a loop; when it is used
 up the deadline has passed.
 */
module Framing {
  type Byte = c: char | c as int < 256 witness '\0'

  const HEADER_SIZE := 4
  const MAXIMUM_PAYLOAD_SIZE := 4096

  datatype IoStatus = Completed | TimedOut | Closed | InvalidSize | Failed

  datatype Answer =
    | Deadline           // poll ran out of time
    | PollFailed
    | Again              // the transfer was interrupted or would block
    | Moved(n: nat)      // at most n bytes; none at the end of the stream
    | TransferFailed

  // `done` is what has been moved, `left` what remains of the stream or of the source.
  datatype Transfer = Transfer(status: IoStatus, done: seq<Byte>, left: seq<Byte>, script: seq<Answer>)

  function Min(a: nat, b: nat): nat { if a < b then a else b }

  function Then(first: seq<Byte>, t: Transfer): Transfer { t.(done := first + t.done) }

  // Bytes one recv moves: what the answer allows, the buffer still holds and the peer has sent.
  function Chunk(n: nat, room: nat, stream: seq<Byte>): nat { Min(n, Min(room, |stream|)) }

  // read_exact: the first `size` bytes of the stream, unless the script ends first.
  function Receive(script: seq<Answer>, stream: seq<Byte>, size: nat): Transfer
    decreases |script|
  {
    if size == 0 then Transfer(Completed, [], stream, script)
    else if script == [] then Transfer(TimedOut, [], stream, [])
    else
      match script[0]
      case Deadline => Transfer(TimedOut, [], stream, script[1..])
      case PollFailed | TransferFailed => Transfer(Failed, [], stream, script[1..])
      case Again => Receive(script[1..], stream, size)
      case Moved(n) =>
        if n == 0 then Transfer(Closed, [], stream, script[1..])
        else
          var k := Chunk(n, size, stream);
          Then(stream[..k], Receive(script[1..], stream[k..], size - k))
  }

  // write_exact: all of the source, unless the script ends first.
  function Send(script: seq<Answer>, source: seq<Byte>): Transfer
    decreases |script|
  {
    if source == [] then Transfer(Completed, [], [], script)
    else if script == [] then Transfer(TimedOut, [], source, [])
    else
      match script[0]
      case Deadline => Transfer(TimedOut, [], source, script[1..])
      case PollFailed | TransferFailed => Transfer(Failed, [], source, script[1..])
      case Again => Send(script[1..], source)
      case Moved(n) =>
        if n == 0 then Transfer(Failed, [], source, script[1..])
        else
          var k := Min(n, |source|);
          Then(source[..k], Send(script[1..], source[k..]))
  }

  // ---------- the frame ----------

  function Shifted(n: nat, divisor: nat): Byte
    requires divisor > 0
  {
    (n / divisor % 256) as char
  }

  // Four bytes, most significant first.
  function Header(n: nat): (h: seq<Byte>)
    ensures |h| == HEADER_SIZE
  {
    [Shifted(n, 0x100_0000), Shifted(n, 0x1_0000), Shifted(n, 0x100), Shifted(n, 1)]
  }

  function Size(header: seq<Byte>): nat
    requires |header| == HEADER_SIZE
  {
    header[0] as int * 0x100_0000 + header[1] as int * 0x1_0000 + header[2] as int * 0x100 + header[3] as int
  }

  predicate AcceptableSize(n: nat) { 0 < n <= MAXIMUM_PAYLOAD_SIZE }

  function Frame(payload: seq<Byte>): seq<Byte> { Header(|payload|) + payload }

  lemma DivideTwice(n: nat)
    ensures n / 0x100 / 0x100 == n / 0x1_0000
  {}

  lemma BaseDigits(n: nat)
    ensures n == 0x100 * (n / 0x100) + n % 0x100
  {}

  lemma SizeOfHeader(n: nat)
    requires n < 0x1_0000_0000
    ensures Size(Header(n)) == n
  {
    DivideTwice(n);
    DivideTwice(n / 0x100);
    BaseDigits(n);
    BaseDigits(n / 0x100);
    BaseDigits(n / 0x1_0000);
    assert n / 0x100 / 0x1_0000 == n / 0x100_0000;
  }

  // The bytes decide the size, and the size the bytes.
  lemma HeaderOfSize(header: seq<Byte>)
    requires |header| == HEADER_SIZE
    ensures Header(Size(header)) == header
  {
    var a, b, c, d := header[0] as int, header[1] as int, header[2] as int, header[3] as int;
    var n := Size(header);
    assert n / 0x100_0000 == a && n / 0x1_0000 == a * 0x100 + b && n / 0x100 == a * 0x1_0000 + b * 0x100 + c;
  }

  /** The first four bytes of a frame are the size of its payload, the first of them worth most. */
  lemma FrameLayout(payload: seq<Byte>)
    requires |payload| <= 4096
    ensures var f := Frame(payload);
            && |f| == 4 + |payload| && f[4..] == payload
            && |payload| == 16777216 * (f[0] as int) + 65536 * (f[1] as int) + 256 * (f[2] as int) + (f[3] as int)
  {
    SizeOfHeader(|payload|);
  }

  // ---------- the two loops ----------

  // One turn of the receiving loop.
  lemma ReceiveTurn(script: seq<Answer>, stream: seq<Byte>, size: nat)
    requires size > 0
    ensures script == [] ==> Receive(script, stream, size) == Transfer(TimedOut, [], stream, [])
    ensures script != [] && script[0].Deadline? ==>
              Receive(script, stream, size) == Transfer(TimedOut, [], stream, script[1..])
    ensures script != [] && (script[0].PollFailed? || script[0].TransferFailed?) ==>
              Receive(script, stream, size) == Transfer(Failed, [], stream, script[1..])
    ensures script != [] && script[0] == Moved(0) ==>
              Receive(script, stream, size) == Transfer(Closed, [], stream, script[1..])
    ensures script != [] && script[0].Again? ==> Receive(script, stream, size) == Receive(script[1..], stream, size)
    ensures script != [] && script[0].Moved? && script[0].n > 0 ==>
              var k := Chunk(script[0].n, size, stream);
              Receive(script, stream, size) == Then(stream[..k], Receive(script[1..], stream[k..], size - k))
  {}

  lemma NothingToReceive(script: seq<Answer>, stream: seq<Byte>)
    ensures Receive(script, stream, 0) == Transfer(Completed, [], stream, script)
  {}

  // What holds of the transfer of a rest holds of the whole.
  predicate Prefix(t: Transfer, stream: seq<Byte>, size: nat) {
    && t.done + t.left == stream && |t.done| <= size && (t.status == Completed <==> |t.done| == size)
    && t.status != InvalidSize
  }

  lemma PrefixThen(stream: seq<Byte>, k: nat, t: Transfer, size: nat)
    requires k <= |stream| && k <= size && Prefix(t, stream[k..], size - k)
    ensures Prefix(Then(stream[..k], t), stream, size)
  {
    assert stream[..k] + t.done + t.left == stream[..k] + stream[k..] == stream;
  }

  lemma {:induction false} ReceiveIsPrefix(script: seq<Answer>, stream: seq<Byte>, size: nat)
    ensures Prefix(Receive(script, stream, size), stream, size)
    decreases |script|
  {
    if size == 0 {
      NothingToReceive(script, stream);
    } else {
      hide Receive;
      ReceiveTurn(script, stream, size);
      if script != [] && script[0].Again? {
        ReceiveIsPrefix(script[1..], stream, size);
      } else if script != [] && script[0].Moved? && script[0].n > 0 {
        var k := Chunk(script[0].n, size, stream);
        ReceiveIsPrefix(script[1..], stream[k..], size - k);
        PrefixThen(stream, k, Receive(script[1..], stream[k..], size - k), size);
      }
    }
  }

  // One turn of the sending loop.
  lemma SendTurn(script: seq<Answer>, source: seq<Byte>)
    requires source != []
    ensures script == [] ==> Send(script, source) == Transfer(TimedOut, [], source, [])
    ensures script != [] && script[0].Deadline? ==> Send(script, source) == Transfer(TimedOut, [], source, script[1..])
    ensures script != [] && (script[0].PollFailed? || script[0].TransferFailed? || script[0] == Moved(0)) ==>
              Send(script, source) == Transfer(Failed, [], source, script[1..])
    ensures script != [] && script[0].Again? ==> Send(script, source) == Send(script[1..], source)
    ensures script != [] && script[0].Moved? && script[0].n > 0 ==>
              var k := Min(script[0].n, |source|);
              Send(script, source) == Then(source[..k], Send(script[1..], source[k..]))
  {}

  lemma NothingToSend(script: seq<Answer>)
    ensures Send(script, []) == Transfer(Completed, [], [], script)
  {}

  lemma {:induction false} SendIsPrefix(script: seq<Answer>, source: seq<Byte>)
    ensures Prefix(Send(script, source), source, |source|)
    decreases |script|
  {
    if source == [] {
      NothingToSend(script);
    } else {
      hide Send;
      SendTurn(script, source);
      if script != [] && script[0].Again? {
        SendIsPrefix(script[1..], source);
      } else if script != [] && script[0].Moved? && script[0].n > 0 {
        var k := Min(script[0].n, |source|);
        SendIsPrefix(script[1..], source[k..]);
        PrefixThen(source, k, Send(script[1..], source[k..]), |source|);
      }
    }
  }

  lemma ThenNoBytes(t: Transfer)
    ensures Then([], t) == t
  {}

  lemma ThenTwice(a: seq<Byte>, b: seq<Byte>, t: Transfer)
    ensures Then(a, Then(b, t)) == Then(a + b, t)
  {}

  lemma ThenNothing(a: seq<Byte>, t: Transfer)
    ensures t.done == [] ==> Then(a, t) == t.(done := a)
  {}

  lemma SliceStep(s: seq<Byte>, offset: nat, k: nat)
    requires offset + k <= |s|
    ensures s[offset..][..k] == s[offset..offset + k]
    ensures s[offset..][k..] == s[offset + k..]
    ensures s[..offset] + s[offset..offset + k] == s[..offset + k]
    ensures s[..k] + s[k..] == s
  {}

  // What writing a frame comes to: status, what has been sent, and the rest of the script.
  function Writing(script: seq<Answer>, sent: seq<Byte>, payload: seq<Byte>): (IoStatus, seq<Byte>, seq<Answer>) {
    var header := Send(script, Header(|payload|));
    if header.status != Completed then (header.status, sent + header.done, header.script)
    else
      var body := Send(header.script, payload);
      (body.status, sent + header.done + body.done, body.script)
  }

  // What reading a frame comes to: status, payload, the rest of the stream and of the script.
  function Reading(script: seq<Answer>, stream: seq<Byte>): (IoStatus, seq<Byte>, seq<Byte>, seq<Answer>) {
    var header := Receive(script, stream, HEADER_SIZE);
    if header.status != Completed || |header.done| != HEADER_SIZE then (header.status, [], header.left, header.script)
    else if !AcceptableSize(Size(header.done)) then (InvalidSize, [], header.left, header.script)
    else
      var body := Receive(header.script, header.left, Size(header.done));
      (body.status, if body.status == Completed then body.done else [], body.left, body.script)
  }

  class Socket {
    var incoming: seq<Byte>
    var sent: seq<Byte>
    var script: seq<Answer>

    constructor (incoming: seq<Byte>, script: seq<Answer>)
      ensures this.incoming == incoming && this.script == script && sent == []
    {
      this.incoming, this.script, sent := incoming, script, [];
    }

    method ReadExact(size: nat) returns (status: IoStatus, bytes: seq<Byte>)
      modifies this`incoming, this`script
      ensures var t := Receive(old(script), old(incoming), size);
              status == t.status && bytes == t.done && incoming == t.left && script == t.script
    {
      hide Receive;
      ghost var whole := Receive(script, incoming, size);
      bytes := [];
      ThenNoBytes(whole);
      while |bytes| < size
        invariant |bytes| <= size
        invariant whole == Then(bytes, Receive(script, incoming, size - |bytes|))
        decreases |script|
      {
        ReceiveTurn(script, incoming, size - |bytes|);
        ThenNothing(bytes, Receive(script, incoming, size - |bytes|));
        if script == [] { return TimedOut, bytes; }
        var answer := script[0];
        script := script[1..];
        match answer {
          case Deadline => return TimedOut, bytes;
          case PollFailed | TransferFailed => return Failed, bytes;
          case Again =>
          case Moved(n) =>
            if n == 0 { return Closed, bytes; }
            var received := Chunk(n, size - |bytes|, incoming);
            ThenTwice(bytes, incoming[..received],
                      Receive(script, incoming[received..], size - |bytes| - received));
            bytes, incoming := bytes + incoming[..received], incoming[received..];
        }
      }
      NothingToReceive(script, incoming);
      ThenNothing(bytes, Receive(script, incoming, 0));
      status := Completed;
    }

    method WriteExact(source: seq<Byte>) returns (status: IoStatus)
      modifies this`sent, this`script
      ensures var t := Send(old(script), source);
              status == t.status && sent == old(sent) + t.done && script == t.script
    {
      hide Send;
      ghost var whole := Send(script, source);
      ThenNoBytes(whole);
      assert source[0..] == source;
      var offset: nat := 0;
      while offset < |source|
        invariant offset <= |source|
        invariant sent == old(sent) + source[..offset]
        invariant whole == Then(source[..offset], Send(script, source[offset..]))
        decreases |script|
      {
        SendTurn(script, source[offset..]);
        ThenNothing(source[..offset], Send(script, source[offset..]));
        if script == [] { return TimedOut; }
        var answer := script[0];
        script := script[1..];
        match answer {
          case Deadline => return TimedOut;
          case PollFailed | TransferFailed => return Failed;
          case Again =>
          case Moved(n) =>
            if n == 0 { return Failed; }
            var k := Min(n, |source| - offset);
            SliceStep(source, offset, k);
            ThenTwice(source[..offset], source[offset..offset + k], Send(script, source[offset + k..]));
            sent, offset := sent + source[offset..offset + k], offset + k;
        }
      }
      NothingToSend(script);
      assert source[offset..] == [] && source[..offset] == source;
      ThenNothing(source, Send(script, []));
      status := Completed;
    }

    /** Sends the frame of a payload of acceptable size: all of it exactly when it reports completion, and otherwise a
        proper prefix. */
    method WriteFrame(payload: seq<Byte>) returns (status: IoStatus)
      modifies this`sent, this`script
      ensures status == InvalidSize <==> |payload| == 0 || |payload| > 4096
      ensures status == InvalidSize ==> sent == old(sent)
      ensures AcceptableSize(|payload|) ==>
                (status, sent, script) == Writing(old(script), old(sent), payload)
      ensures status == Completed ==> sent == old(sent) + Frame(payload)
      ensures status != Completed && status != InvalidSize ==>
                exists k :: 0 <= k < |Frame(payload)| && sent == old(sent) + Frame(payload)[..k]
    {
      if !AcceptableSize(|payload|) { return InvalidSize; }
      ghost var before := sent;
      SendIsPrefix(script, Header(|payload|));
      ghost var part := Send(script, Header(|payload|)).done;
      status := WriteExact(Header(|payload|));
      if status != Completed {
        assert |part| < HEADER_SIZE && Frame(payload)[..|part|] == part;
        return;
      }
      SendIsPrefix(script, payload);
      ghost var rest := Send(script, payload).done;
      status := WriteExact(payload);
      assert sent == before + (Header(|payload|) + rest);
      if status != Completed {
        assert |rest| < |payload| && Frame(payload)[..HEADER_SIZE + |rest|] == Header(|payload|) + rest;
      }
    }

    /** Reads a payload exactly when its whole frame stood at the front of the stream, which is then consumed; nothing
        that is not a frame is ever taken for one, and a partial payload is never handed out. */
    method ReadFrame() returns (status: IoStatus, payload: seq<Byte>)
      modifies this`incoming, this`script
      ensures status == Completed ==> 1 <= |payload| <= 4096 && old(incoming) == Frame(payload) + incoming
      ensures status == InvalidSize ==>
                var b := old(incoming);
                && |b| >= 4
                && var size := 16777216 * (b[0] as int) + 65536 * (b[1] as int) + 256 * (b[2] as int) + (b[3] as int);
                   size == 0 || size > 4096
      ensures status != Completed ==> payload == []
      ensures (status, payload, incoming, script) == Reading(old(script), old(incoming))
    {
      ReceiveIsPrefix(script, incoming, HEADER_SIZE);
      ghost var stream := incoming;
      var header;
      status, header := ReadExact(HEADER_SIZE);
      if status != Completed { return status, []; }
      assert stream[..HEADER_SIZE] == header;
      var size := Size(header);
      if !AcceptableSize(size) { return InvalidSize, []; }
      ReceiveIsPrefix(script, incoming, size);
      HeaderOfSize(header);
      status, payload := ReadExact(size);
      if status != Completed { payload := []; }
    }
  }

  // ---------- what a status tells ----------

  // An answer after which a loop goes on.
  predicate Harmless(a: Answer) { a.Again? || (a.Moved? && a.n > 0) }

  // What an answer that ends a loop ends it with; moving nothing means `zero`.
  function Ending(a: Answer, zero: IoStatus): IoStatus {
    match a
    case Deadline => TimedOut
    case Moved(_) => zero
    case _ => Failed
  }

  // After m harmless answers there is nothing left to do, or the script is used up, or the next answer ends it.
  predicate EndsAt(status: IoStatus, rest: seq<Answer>, script: seq<Answer>, m: nat, zero: IoStatus) {
    && m <= |script| && (forall i :: 0 <= i < m ==> Harmless(script[i]))
    && if status == Completed || status == InvalidSize then rest == script[m..]
       else if m == |script| then status == TimedOut && rest == []
       else !Harmless(script[m]) && rest == script[m + 1..] && status == Ending(script[m], zero)
  }

  lemma EndsLater(status: IoStatus, rest: seq<Answer>, script: seq<Answer>, k: nat, m: nat, zero: IoStatus)
    requires k <= |script| && (forall i :: 0 <= i < k ==> Harmless(script[i]))
    requires EndsAt(status, rest, script[k..], m, zero)
    ensures EndsAt(status, rest, script, k + m, zero)
  {
    assert forall i :: k <= i < k + m ==> script[i] == script[k..][i - k];
    assert script[k..][m..] == script[k + m..];
  }

  lemma ReceiveStops(script: seq<Answer>, stream: seq<Byte>, size: nat)
    requires size == 0 || script == [] || !Harmless(script[0])
    ensures var t := Receive(script, stream, size); EndsAt(t.status, t.script, script, 0, Closed)
  {}

  lemma ReceiveGoesOn(script: seq<Answer>, stream: seq<Byte>, size: nat) returns (k: nat)
    requires size > 0 && script != [] && Harmless(script[0])
    ensures k <= |stream| && k <= size
    ensures Receive(script, stream, size) == Then(stream[..k], Receive(script[1..], stream[k..], size - k))
  {
    hide Receive;
    ReceiveTurn(script, stream, size);
    k := if script[0].Moved? then Chunk(script[0].n, size, stream) else 0;
    assert stream[0..] == stream;
    ThenNoBytes(Receive(script[1..], stream, size));
  }

  lemma {:induction false} ReceiveTells(script: seq<Answer>, stream: seq<Byte>, size: nat) returns (m: nat)
    ensures var t := Receive(script, stream, size); EndsAt(t.status, t.script, script, m, Closed)
    decreases |script|
  {
    hide Receive, EndsAt;
    if size == 0 || script == [] || !Harmless(script[0]) {
      ReceiveStops(script, stream, size);
      m := 0;
    } else {
      var k := ReceiveGoesOn(script, stream, size);
      m := ReceiveTells(script[1..], stream[k..], size - k);
      var t := Receive(script, stream, size);
      EndsLater(t.status, t.script, script, 1, m, Closed);
      m := m + 1;
    }
  }

  lemma SendStops(script: seq<Answer>, source: seq<Byte>)
    requires source == [] || script == [] || !Harmless(script[0])
    ensures var t := Send(script, source); EndsAt(t.status, t.script, script, 0, Failed)
  {}

  lemma SendGoesOn(script: seq<Answer>, source: seq<Byte>) returns (k: nat)
    requires source != [] && script != [] && Harmless(script[0])
    ensures k <= |source| && Send(script, source) == Then(source[..k], Send(script[1..], source[k..]))
  {
    hide Send;
    SendTurn(script, source);
    k := if script[0].Moved? then Min(script[0].n, |source|) else 0;
    assert source[0..] == source;
    ThenNoBytes(Send(script[1..], source));
  }

  lemma {:induction false} SendTells(script: seq<Answer>, source: seq<Byte>) returns (m: nat)
    ensures var t := Send(script, source); EndsAt(t.status, t.script, script, m, Failed)
    decreases |script|
  {
    hide Send, EndsAt;
    if source == [] || script == [] || !Harmless(script[0]) {
      SendStops(script, source);
      m := 0;
    } else {
      var k := SendGoesOn(script, source);
      m := SendTells(script[1..], source[k..]);
      var t := Send(script, source);
      EndsLater(t.status, t.script, script, 1, m, Failed);
      m := m + 1;
    }
  }

  lemma RestOfScript(status: IoStatus, rest: seq<Answer>, script: seq<Answer>, m: nat, zero: IoStatus)
    requires EndsAt(status, rest, script, m, zero) && (status == Completed || status == InvalidSize)
    ensures m <= |script| && rest == script[m..] && (forall i :: 0 <= i < m ==> Harmless(script[i]))
  {}

  lemma InvalidEnds(rest: seq<Answer>, script: seq<Answer>, m: nat)
    requires EndsAt(Completed, rest, script, m, Closed)
    ensures EndsAt(InvalidSize, rest, script, m, Closed)
  {}

  /** The status of a frame that was not read names what ended the reading: the time was up, the peer was gone, or a
      call failed; and what is left of the stream is an end of it. */
  lemma ReadingTells(script: seq<Answer>, stream: seq<Byte>) returns (m: nat)
    ensures var r := Reading(script, stream);
            && EndsAt(r.0, r.3, script, m, Closed)
            && |r.2| <= |stream| && r.2 == stream[|stream| - |r.2|..]
  {
    hide Receive, EndsAt, Size;
    m := ReceiveTells(script, stream, HEADER_SIZE);
    ReceiveIsPrefix(script, stream, HEADER_SIZE);
    var header := Receive(script, stream, HEADER_SIZE);
    if header.status == Completed {
      RestOfScript(header.status, header.script, script, m, Closed);
      if AcceptableSize(Size(header.done)) {
        var n := ReceiveTells(header.script, header.left, Size(header.done));
        ReceiveIsPrefix(header.script, header.left, Size(header.done));
        var body := Receive(header.script, header.left, Size(header.done));
        EndsLater(body.status, body.script, script, m, n, Closed);
        m := m + n;
      } else {
        InvalidEnds(header.script, script, m);
      }
    }
  }

  /** So does the status of a frame that was not written, and there a call that moves nothing is a failure. */
  lemma WritingTells(script: seq<Answer>, sent: seq<Byte>, payload: seq<Byte>) returns (m: nat)
    ensures var w := Writing(script, sent, payload); EndsAt(w.0, w.2, script, m, Failed)
  {
    hide Send, EndsAt, Header;
    m := SendTells(script, Header(|payload|));
    var header := Send(script, Header(|payload|));
    if header.status == Completed {
      RestOfScript(header.status, header.script, script, m, Failed);
      var n := SendTells(header.script, payload);
      var body := Send(header.script, payload);
      EndsLater(body.status, body.script, script, m, n, Failed);
      m := m + n;
    }
  }

  // ---------- round trips ----------

  // No frame is the beginning of another.
  lemma FramesArePrefixFree(p: seq<Byte>, q: seq<Byte>, r: seq<Byte>, s: seq<Byte>)
    requires AcceptableSize(|p|) && AcceptableSize(|q|) && Frame(p) + r == Frame(q) + s
    ensures p == q && r == s
  {
    assert (Frame(p) + r)[..HEADER_SIZE] == Header(|p|) && (Frame(q) + s)[..HEADER_SIZE] == Header(|q|);
    SizeOfHeader(|p|);
    SizeOfHeader(|q|);
    assert (Frame(p) + r)[HEADER_SIZE..] == p + r && (Frame(q) + s)[HEADER_SIZE..] == q + s;
    assert (p + r)[..|p|] == p && (q + s)[..|q|] == q && (p + r)[|p|..] == r && (q + s)[|q|..] == s;
  }

  /** However the frame was cut up on its way, a completed read returns the payload that was written and leaves what
      followed it. */
  lemma ReadBack(payload: seq<Byte>, rest: seq<Byte>, script: seq<Answer>)
    requires AcceptableSize(|payload|) && Reading(script, Frame(payload) + rest).0 == Completed
    ensures Reading(script, Frame(payload) + rest).1 == payload && Reading(script, Frame(payload) + rest).2 == rest
  {
    var stream := Frame(payload) + rest;
    var header := Receive(script, stream, HEADER_SIZE);
    ReceiveIsPrefix(script, stream, HEADER_SIZE);
    var size := Size(header.done);
    ReceiveIsPrefix(header.script, header.left, size);
    HeaderOfSize(header.done);
    var body := Receive(header.script, header.left, size);
    assert stream == Frame(body.done) + body.left;
    FramesArePrefixFree(payload, body.done, rest, body.left);
  }

  /** A truncated frame is never read. */
  lemma TruncatedFrame(payload: seq<Byte>, k: nat, script: seq<Answer>)
    requires AcceptableSize(|payload|) && k < |Frame(payload)|
    ensures Reading(script, Frame(payload)[..k]).0 != Completed
  {
    var stream := Frame(payload)[..k];
    var header := Receive(script, stream, HEADER_SIZE);
    ReceiveIsPrefix(script, stream, HEADER_SIZE);
    if header.status == Completed {
      assert header.done == stream[..HEADER_SIZE] == Header(|payload|);
      SizeOfHeader(|payload|);
      ReceiveIsPrefix(header.script, header.left, |payload|);
    }
  }

  // The number of turns on which something moves.
  function Progress(script: seq<Answer>): nat {
    if script == [] then 0
    else (if script[0].Moved? && script[0].n > 0 then 1 else 0) + Progress(script[1..])
  }

  predicate Healthy(script: seq<Answer>) {
    forall i :: 0 <= i < |script| ==> script[i] == Again || (script[i].Moved? && script[i].n > 0)
  }

  lemma {:induction false} HealthyReceive(script: seq<Answer>, stream: seq<Byte>, size: nat)
    requires Healthy(script) && Progress(script) >= size && |stream| >= size
    ensures var t := Receive(script, stream, size);
            t.status == Completed && Healthy(t.script) && Progress(t.script) + size >= Progress(script)
    decreases |script|
  {
    if size == 0 {
    } else {
      match script[0]
      case Again => HealthyReceive(script[1..], stream, size);
      case Moved(n) =>
        var k := Chunk(n, size, stream);
        HealthyReceive(script[1..], stream[k..], size - k);
    }
  }

  /** Every fragmentation into non-empty pieces that leaves enough turns delivers the payload. */
  lemma EveryFragmentation(payload: seq<Byte>, rest: seq<Byte>, script: seq<Answer>)
    requires AcceptableSize(|payload|) && Healthy(script) && Progress(script) >= |Frame(payload)|
    ensures var r := Reading(script, Frame(payload) + rest); r.0 == Completed && r.1 == payload && r.2 == rest
  {
    var stream := Frame(payload) + rest;
    HealthyReceive(script, stream, HEADER_SIZE);
    var header := Receive(script, stream, HEADER_SIZE);
    ReceiveIsPrefix(script, stream, HEADER_SIZE);
    assert header.done == stream[..HEADER_SIZE] == Header(|payload|);
    SizeOfHeader(|payload|);
    HealthyReceive(header.script, header.left, |payload|);
    ReadBack(payload, rest, script);
  }

  lemma {:induction false} HealthySend(script: seq<Answer>, source: seq<Byte>)
    requires Healthy(script) && Progress(script) >= |source|
    ensures var t := Send(script, source);
            t.status == Completed && Healthy(t.script) && Progress(t.script) + |source| >= Progress(script)
    decreases |script|
  {
    if source == [] {
      NothingToSend(script);
    } else {
      hide Send;
      SendTurn(script, source);
      match script[0]
      case Again => HealthySend(script[1..], source);
      case Moved(n) => HealthySend(script[1..], source[Min(n, |source|)..]);
    }
  }

  /** Over two healthy sides a payload written is the payload read, however each side cuts up the frame. */
  lemma Delivered(payload: seq<Byte>, writer: seq<Answer>, reader: seq<Answer>, rest: seq<Byte>)
    requires AcceptableSize(|payload|) && Healthy(writer) && Healthy(reader)
    requires Progress(writer) >= |Frame(payload)| && Progress(reader) >= |Frame(payload)|
    ensures var w := Writing(writer, [], payload);
            && w.0 == Completed
            && var r := Reading(reader, w.1 + rest); r.0 == Completed && r.1 == payload && r.2 == rest
  {
    HealthySend(writer, Header(|payload|));
    SendIsPrefix(writer, Header(|payload|));
    var header := Send(writer, Header(|payload|));
    HealthySend(header.script, payload);
    SendIsPrefix(header.script, payload);
    var body := Send(header.script, payload);
    assert header.left == [] && body.left == [];
    assert [] + header.done + body.done == Frame(payload);
    EveryFragmentation(payload, rest, reader);
  }
}
