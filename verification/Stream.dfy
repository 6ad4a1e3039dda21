/**
 The chunked streams: cutting input into messages (service/support.go), putting received
 messages back together (service/stream.go), cutting again on the way back
 (service/verify.go), and the encrypting and signing loops (service/encrypt.go,
 service/sign.go).  A message is a value once it is sent.
 */
module Stream {
  import opened Wrappers
  import opened Bytes

  type Message = seq<byte>

  datatype End = Eof | Broken

  datatype Fault = ReadFailed | SendFailed | Canceled | InitFailed | LateOptions | WriteFailed | CloseFailed | Crash

  // ---------- messages and bytes ----------

  function Concat(ms: seq<Message>): seq<byte> {
    if ms == [] then [] else ms[0] + Concat(ms[1..])
  }

  lemma {:induction false} ConcatAppend(ms: seq<Message>, m: Message)
    ensures Concat(ms + [m]) == Concat(ms) + m
  {
    if ms == [] {
      assert ms + [m] == [m];
      assert Concat([m][1..]) == [];
      assert m + [] == m;
    } else {
      assert (ms + [m])[1..] == ms[1..] + [m];
      ConcatAppend(ms[1..], m);
      assert ms[0] + (Concat(ms[1..]) + m) == ms[0] + Concat(ms[1..]) + m;
    }
  }

  /** ms cuts data into non-empty messages of at most size bytes, nothing lost, repeated or
      out of order. */
  ghost predicate Cut(ms: seq<Message>, data: seq<byte>, size: nat) {
    Concat(ms) == data && forall i :: 0 <= i < |ms| ==> 0 < |ms[i]| <= size
  }

  lemma CutMore(ms: seq<Message>, data: seq<byte>, size: nat, m: Message)
    requires Cut(ms, data, size) && 0 < |m| <= size
    ensures Cut(ms + [m], data + m, size)
  {
    ConcatAppend(ms, m);
  }

  /** Half-way: the first n bytes of data are sent as ms, the rest is left. */
  ghost predicate Sending(data: seq<byte>, ms: seq<Message>, size: nat, n: nat, left: seq<byte>) {
    n <= |data| && Cut(ms, data[..n], size) && left == data[n..]
  }

  lemma NothingSent(data: seq<byte>, size: nat)
    ensures Sending(data, [], size, 0, data)
  {
  }

  lemma SendMore(data: seq<byte>, ms: seq<Message>, size: nat, n: nat, left: seq<byte>, k: nat)
    requires Sending(data, ms, size, n, left) && 0 < k <= |left| && k <= size
    ensures Sending(data, ms + [left[..k]], size, n + k, left[k..])
  {
    CutMore(ms, data[..n], size, left[..k]);
    assert data[..n] + left[..k] == data[..n + k];
  }

  /** What was left is m, at most one message, and the rest. */
  lemma SendPiece(data: seq<byte>, ms: seq<Message>, size: nat, n: nat, left: seq<byte>, m: Message, rest: seq<byte>)
    returns (more: seq<Message>, n': nat)
    requires Sending(data, ms, size, n, left) && left == m + rest && |m| <= size
    ensures more == if m == [] then ms else ms + [m]
    ensures n' == n + |m| && Sending(data, more, size, n', rest)
    ensures rest == [] ==> Cut(more, data, size)
  {
    more, n' := ms, n;
    if m != [] {
      SendMore(data, ms, size, n, left, |m|);
      assert left[..|m|] == m && left[|m|..] == rest;
      more, n' := ms + [m], n + |m|;
    }
    if rest == [] {
      SendAll(data, more, size, n', rest);
    }
  }

  lemma SendAll(data: seq<byte>, ms: seq<Message>, size: nat, n: nat, left: seq<byte>)
    requires Sending(data, ms, size, n, left) && left == []
    ensures n == |data| && Cut(ms, data, size)
  {
    assert data[..|data|] == data;
  }

  // ---------- the two ends ----------

  /** Any reader: plan bounds what each call returns (possibly nothing), and the end may come
      with the last bytes or after them. */
  class Source {
    var left: seq<byte>
    var plan: seq<nat>
    const ending: End
    const eager: bool

    constructor (data: seq<byte>, plan: seq<nat>, ending: End, eager: bool)
      ensures left == data && this.ending == ending
    {
      left, this.plan, this.ending, this.eager := data, plan, ending, eager;
    }

    method Read(p: array<byte>) returns (n: nat, end: Option<End>)
      modifies this, p
      ensures n <= p.Length && n <= |old(left)| && p[..n] == old(left)[..n] && left == old(left)[n..]
      ensures end.Some? ==> left == [] && end.value == ending
      ensures end.None? && p.Length > 0 ==> |left| + |plan| < old(|left| + |plan|)
    {
      n := if plan == [] || plan[0] > |left| then |left| else plan[0];
      if n > p.Length {
        n := p.Length;
      }
      for i := 0 to n
        invariant left == old(left) && plan == old(plan) && forall j :: 0 <= j < i ==> p[j] == left[j]
      {
        p[i] := left[i];
      }
      left := left[n..];
      end := if left == [] && (eager || (n == 0 && plan == [])) then Some(ending) else None;
      plan := if plan == [] then [] else plan[1..];
    }
  }

  /** Where messages go; it may refuse after a number of them. */
  class Sink {
    var messages: seq<Message>
    const accepts: Option<nat>

    constructor (accepts: Option<nat>)
      ensures messages == [] && this.accepts == accepts
    {
      messages, this.accepts := [], accepts;
    }

    method Send(m: Message) returns (ok: bool)
      modifies this
      ensures messages == if ok then old(messages) + [m] else old(messages)
      ensures accepts.None? ==> ok
    {
      ok := accepts.None? || |messages| < accepts.value;
      if ok {
        messages := messages + [m];
      }
    }
  }

  // ---------- readFrom ----------

  /** One round: read into the buffer and send what came, if anything. */
  method SendRead(source: Source, buf: array<byte>, sink: Sink, sent: nat, ghost data: seq<byte>,
                  ghost start: seq<Message>, ghost pieces0: seq<Message>)
    returns (end: Option<End>, ok: bool, numBytes: nat, ghost pieces: seq<Message>)
    requires buf.Length > 0 && Sending(data, pieces0, buf.Length, sent, source.left)
    requires sink.messages == start + pieces0
    modifies source, sink, buf
    ensures sink.messages == start + pieces
    ensures numBytes <= |data| && Cut(pieces, data[..numBytes], buf.Length)
    ensures ok && end.None? ==>
              && Sending(data, pieces, buf.Length, numBytes, source.left)
              && |source.left| + |source.plan| < old(|source.left| + |source.plan|)
    ensures ok && end.Some? ==> Cut(pieces, data, buf.Length) && end.value == source.ending
    ensures sink.accepts.None? ==> ok
  {
    hide Concat;
    ghost var left := source.left;
    var n;
    n, end := source.Read(buf);
    ghost var m := buf[..n];
    ghost var more, sent' := SendPiece(data, pieces0, buf.Length, sent, left, m, source.left);
    ok := true;
    if n > 0 {
      ok := sink.Send(buf[..n]);
    }
    pieces, numBytes := if ok then more else pieces0, if ok then sent + n else sent;
    assert start + pieces0 + [m] == start + (pieces0 + [m]);
  }

  /** Cuts the input into messages, reusing one buffer, and ends with one empty message; when
      reading or sending fails there is none. */
  method ReadFrom(source: Source, chunkSize: nat, sink: Sink)
    returns (numBytes: nat, fault: Option<Fault>, ghost pieces: seq<Message>)
    requires chunkSize > 0
    modifies source, sink
    ensures numBytes <= |old(source.left)| && Cut(pieces, old(source.left)[..numBytes], chunkSize)
    ensures fault.None? ==> sink.messages == old(sink.messages) + pieces + [[]]
    ensures fault.Some? ==> sink.messages == old(sink.messages) + pieces
    ensures fault.None? || fault == Some(ReadFailed) ==> Cut(pieces, old(source.left), chunkSize)
    ensures fault.None? ==> source.ending.Eof?
    ensures fault == Some(ReadFailed) ==> source.ending.Broken?
    ensures fault in {None, Some(ReadFailed), Some(SendFailed)}
    ensures sink.accepts.None? ==> fault != Some(SendFailed)
  {
    hide Concat;
    numBytes, pieces := 0, [];
    var buf := new byte[chunkSize];
    ghost var data := source.left;
    NothingSent(data, chunkSize);
    while true
      invariant Sending(data, pieces, chunkSize, numBytes, source.left)
      invariant sink.messages == old(sink.messages) + pieces
      decreases |source.left| + |source.plan|
    {
      var end, ok;
      end, ok, numBytes, pieces := SendRead(source, buf, sink, numBytes, data, old(sink.messages), pieces);
      if !ok {
        return numBytes, Some(SendFailed), pieces;
      }
      if end.Some? {
        if end.value.Eof? {
          break;
        }
        return numBytes, Some(ReadFailed), pieces;
      }
    }
    var ok := sink.Send([]);
    fault := if ok then None else Some(SendFailed);
  }

  // ---------- streamReader ----------

  /** The bytes of the messages before the first empty one. */
  function UpToEmpty(msgs: seq<Message>): seq<byte> {
    if msgs == [] || msgs[0] == [] then [] else msgs[0] + UpToEmpty(msgs[1..])
  }

  /** What a reader with buf buffered and msgs to come delivers before its end. */
  function Delivered(buf: seq<byte>, msgs: seq<Message>): seq<byte> {
    buf + UpToEmpty(msgs)
  }

  /** How it ends: at the first empty message with end-of-file, otherwise as the connection
      does. */
  function EndOf(msgs: seq<Message>, ending: End): End {
    if msgs == [] then ending else if msgs[0] == [] then Eof else EndOf(msgs[1..], ending)
  }

  class StreamReader {
    var buf: seq<byte>
    var msgs: seq<Message>
    const ending: End

    ghost function Rest(): seq<byte>
      reads this
    {
      Delivered(buf, msgs)
    }

    ghost function End(): End
      reads this
    {
      EndOf(msgs, ending)
    }

    constructor (msgs: seq<Message>, ending: End)
      ensures buf == [] && this.msgs == msgs && this.ending == ending
    {
      buf, this.msgs, this.ending := [], msgs, ending;
    }

    method Write(b: Message)
      modifies this`buf
      ensures buf == old(buf) + b
    {
      if |b| == 0 {
        return;
      }
      buf := buf + b;
    }

    method Recv() returns (e: Option<End>)
      modifies this
      ensures old(msgs) == [] ==> e == Some(ending) && buf == old(buf) && msgs == []
      ensures old(msgs) != [] ==> e == None && buf == old(buf) + old(msgs)[0] && msgs == old(msgs)[1..]
    {
      if msgs == [] {
        return Some(ending);
      }
      var b := msgs[0];
      msgs := msgs[1..];
      Write(b);
      return None;
    }

    /** The next bytes, or the end.  A call that asks for nothing still takes a message from an
        empty buffer, and reports no end for an empty one. */
    method Read(p: array<byte>) returns (n: nat, e: Option<End>)
      modifies this, p
      ensures n <= p.Length
      ensures p.Length > 0 && e.None? ==> n > 0 && old(Rest()) == p[..n] + Rest() && End() == old(End())
      ensures p.Length > 0 && e.Some? ==> n == 0 && old(Rest()) == [] && e == Some(old(End()))
      ensures p.Length == 0 && old(buf) != [] ==> e == None && buf == old(buf) && msgs == old(msgs)
      ensures p.Length == 0 && old(buf) == [] && old(msgs) != [] ==>
              e == None && buf == old(msgs)[0] && msgs == old(msgs)[1..]
      ensures p.Length == 0 && old(buf) == [] && old(msgs) == [] ==> e == Some(ending)
    {
      if |buf| == 0 {
        var err := Recv();
        if err.Some? {
          return 0, err;
        }
      }
      n, e := ReadBuffer(p);
    }

    /** Reading the byte buffer: an empty one is at its end, unless nothing is asked for. */
    method ReadBuffer(p: array<byte>) returns (n: nat, e: Option<End>)
      modifies this`buf, p
      ensures n == (if |old(buf)| < p.Length then |old(buf)| else p.Length)
      ensures p[..n] == old(buf)[..n] && buf == old(buf)[n..]
      ensures e == if old(buf) == [] && p.Length > 0 then Some(Eof) else None
    {
      if |buf| == 0 {
        return 0, if p.Length == 0 then None else Some(Eof);
      }
      n := if |buf| < p.Length then |buf| else p.Length;
      for i := 0 to n
        invariant buf == old(buf) && forall j :: 0 <= j < i ==> p[j] == buf[j]
      {
        p[i] := buf[i];
      }
      buf := buf[n..];
      e := None;
    }
  }

  /** The reader of VerifyDetachedStream: the first message is written into it, the others are
      received. */
  method SeedReader(first: Message, msgs: seq<Message>, ending: End) returns (reader: StreamReader)
    ensures fresh(reader) && reader.Rest() == Delivered(first, msgs) && reader.End() == EndOf(msgs, ending)
  {
    reader := new StreamReader(msgs, ending);
    reader.Write(first);
    assert [] + first == first;
  }

  // ---------- readFromStream ----------

  /** Any reader: one that may return bytes together with its end, such as the verifying reader
      of saltpack, or the stream reader itself. */
  datatype Reader = FromSource(source: Source) | FromStream(stream: StreamReader)
  {
    ghost function Parts(): set<object> {
      if FromSource? then {source} else {stream}
    }

    ghost function Rest(): seq<byte>
      reads Parts()
    {
      if FromSource? then source.left else stream.Rest()
    }

    ghost function End(): End
      reads Parts()
    {
      if FromSource? then source.ending else stream.End()
    }

    ghost function Steps(): nat
      reads Parts()
    {
      if FromSource? then |source.left| + |source.plan| else |stream.Rest()|
    }

    method Read(p: array<byte>) returns (n: nat, e: Option<End>)
      requires p.Length > 0
      modifies Parts(), p
      ensures n <= p.Length
      ensures e.None? ==> old(Rest()) == p[..n] + Rest() && End() == old(End()) && Steps() < old(Steps())
      ensures e.Some? ==> old(Rest()) == p[..n] && e.value == old(End())
    {
      match this {
        case FromSource(r) =>
          ghost var left := r.left;
          n, e := r.Read(p);
          assert left == left[..n] + left[n..];
        case FromStream(r) => n, e := r.Read(p);
      }
    }
  }

  /** One round: read into the buffer and send what came, if anything. */
  method Forward(reader: Reader, buf: array<byte>, sink: Sink, ghost data: seq<byte>, ghost start: seq<Message>,
                 ghost pieces0: seq<Message>, ghost sent0: nat)
    returns (end: Option<End>, ok: bool, ghost pieces: seq<Message>, ghost sent: nat)
    requires buf.Length > 0 && Sending(data, pieces0, buf.Length, sent0, reader.Rest())
    requires sink.messages == start + pieces0
    modifies reader.Parts(), sink, buf
    ensures sink.messages == start + pieces
    ensures sent <= |data| && Cut(pieces, data[..sent], buf.Length)
    ensures ok && end.None? ==>
              && Sending(data, pieces, buf.Length, sent, reader.Rest())
              && reader.End() == old(reader.End()) && reader.Steps() < old(reader.Steps())
    ensures ok && end.Some? ==> Cut(pieces, data, buf.Length) && end.value == old(reader.End())
    ensures sink.accepts.None? ==> ok
  {
    hide Concat;
    hide UpToEmpty;
    hide EndOf;
    ghost var left := reader.Rest();
    var n;
    n, end := reader.Read(buf);
    ghost var m, rest := buf[..n], if end.None? then reader.Rest() else [];
    assert end.Some? ==> m + [] == m;
    ghost var more, sent' := SendPiece(data, pieces0, buf.Length, sent0, left, m, rest);
    ok := true;
    if n != 0 {
      ok := sink.Send(buf[..n]);
    }
    pieces, sent := if ok then more else pieces0, if ok then sent' else sent0;
    assert start + pieces0 + [m] == start + (pieces0 + [m]);
  }

  /** Reads to the end through one buffer, sending what it reads, and finishes with one empty
      message; on a failure or a cancelled call there is none. */
  method ReadFromStream(reader: Reader, size: nat, sink: Sink, cancelAfter: Option<nat>)
    returns (fault: Option<Fault>, ghost pieces: seq<Message>, ghost sent: nat)
    requires size > 0
    modifies reader.Parts(), sink
    ensures sent <= |old(reader.Rest())| && Cut(pieces, old(reader.Rest())[..sent], size)
    ensures fault.None? ==> sink.messages == old(sink.messages) + pieces + [[]]
    ensures fault.Some? ==> sink.messages == old(sink.messages) + pieces
    ensures fault.None? || fault == Some(ReadFailed) ==> Cut(pieces, old(reader.Rest()), size)
    ensures fault.None? ==> old(reader.End()).Eof?
    ensures fault == Some(ReadFailed) ==> old(reader.End()).Broken?
    ensures fault in {None, Some(ReadFailed), Some(SendFailed), Some(Canceled)}
    ensures sink.accepts.None? ==> fault != Some(SendFailed)
    ensures cancelAfter.None? ==> fault != Some(Canceled)
  {
    hide Concat;
    pieces, sent := [], 0;
    NothingSent(reader.Rest(), size);
    var buf := new byte[size];
    ghost var data := reader.Rest();
    var rounds := 0;
    while true
      invariant Sending(data, pieces, size, sent, reader.Rest())
      invariant reader.End() == old(reader.End())
      invariant sink.messages == old(sink.messages) + pieces
      decreases reader.Steps()
    {
      if cancelAfter.Some? && rounds >= cancelAfter.value {
        return Some(Canceled), pieces, sent;
      }
      rounds := rounds + 1;
      var end, ok;
      end, ok, pieces, sent := Forward(reader, buf, sink, data, old(sink.messages), pieces, sent);
      if !ok {
        return Some(SendFailed), pieces, sent;
      }
      if end.Some? {
        if end.value.Broken? {
          return Some(ReadFailed), pieces, sent;
        }
        ok := sink.Send([]);
        return if ok then None else Some(SendFailed), pieces, sent;
      }
    }
  }

  // ---------- end to end ----------

  lemma {:induction false} NonEmptyMessages(pieces: seq<Message>, after: seq<Message>, ending: End)
    requires forall i :: 0 <= i < |pieces| ==> pieces[i] != []
    requires after == [] || after[0] == []
    ensures UpToEmpty(pieces + after) == Concat(pieces)
    ensures EndOf(pieces + after, ending) == if after == [] then ending else Eof
  {
    if pieces == [] {
      assert pieces + after == after;
    } else {
      assert (pieces + after)[1..] == pieces[1..] + after;
      NonEmptyMessages(pieces[1..], after, ending);
    }
  }

  /** An empty message ends the stream where it stands, whatever follows and however the
      connection ends; sending it is as good as closing. */
  lemma EmptyMessageEnds(pieces: seq<Message>, data: seq<byte>, size: nat, more: seq<Message>, ending: End)
    requires Cut(pieces, data, size)
    ensures Delivered([], pieces + [[]] + more) == data == Delivered([], pieces)
    ensures EndOf(pieces + [[]] + more, ending) == Eof == EndOf(pieces, Eof)
  {
    assert pieces + [[]] + more == pieces + ([[]] + more);
    NonEmptyMessages(pieces, [[]] + more, ending);
    NonEmptyMessages(pieces, [], Eof);
    assert pieces + [] == pieces;
  }

  /** Everything received is delivered exactly when nothing but empty messages follows the
      first empty one. */
  lemma {:induction false} AllDeliveredIff(msgs: seq<Message>)
    ensures UpToEmpty(msgs) == Concat(msgs) <==>
              forall i, j :: 0 <= i < j < |msgs| && msgs[i] == [] ==> msgs[j] == []
  {
    if msgs == [] {
    } else if msgs[0] == [] {
      ConcatEmptyIff(msgs);
      if Concat(msgs) == [] {
        assert forall j :: 0 <= j < |msgs| ==> msgs[j] == [];
      } else {
        var j :| 0 <= j < |msgs| && msgs[j] != [];
        assert 0 < j && msgs[0] == [];
      }
    } else {
      var rest := msgs[1..];
      AllDeliveredIff(rest);
      SameFront(msgs[0], UpToEmpty(rest), Concat(rest));
      if i, j :| 0 <= i < j < |msgs| && msgs[i] == [] && msgs[j] != [] {
        assert rest[i - 1] == [] && rest[j - 1] != [];
      }
      if i, j :| 0 <= i < j < |rest| && rest[i] == [] && rest[j] != [] {
        assert msgs[i + 1] == [] && msgs[j + 1] != [];
      }
    }
  }

  lemma SameFront(m: seq<byte>, a: seq<byte>, b: seq<byte>)
    ensures m + a == m + b <==> a == b
  {
    assert (m + a)[|m|..] == a && (m + b)[|m|..] == b;
  }

  lemma {:induction false} ConcatEmptyIff(msgs: seq<Message>)
    ensures Concat(msgs) == [] <==> forall i :: 0 <= i < |msgs| ==> msgs[i] == []
  {
    if msgs == [] {
    } else {
      ConcatEmptyIff(msgs[1..]);
      if forall i :: 0 <= i < |msgs| ==> msgs[i] == [] {
        assert msgs[0] == [];
        assert forall i :: 0 <= i < |msgs[1..]| ==> msgs[1..][i] == [];
      }
      if Concat(msgs) == [] {
        assert forall i :: 0 < i < |msgs| ==> msgs[i] == msgs[1..][i - 1];
      }
    }
  }

  /** VerifyDetachedStream writes the first message straight into the reader, so an empty first
      message does not end the stream there; it makes a difference exactly when bytes follow. */
  lemma FirstMessageMayBeEmpty(first: Message, msgs: seq<Message>)
    ensures Delivered(first, msgs) == Delivered([], [first] + msgs) <==> first != [] || UpToEmpty(msgs) == []
  {
    assert ([first] + msgs)[1..] == msgs;
  }

  /** A client reads its input, the server reads the messages and sends back what it reads.
      After an empty message the client closes its side; when its input breaks, it does not,
      and the server's stream breaks in the end. */
  method Relay(source: Source, chunkSize: nat, size: nat) returns (back: seq<Message>, fault: Option<Fault>)
    requires chunkSize > 0 && size > 0
    modifies source
    ensures source.ending.Eof? ==>
              fault == None && |back| > 0 && back[|back| - 1] == [] && Cut(back[..|back| - 1], old(source.left), size)
    ensures source.ending.Broken? ==> fault == Some(ReadFailed) && Cut(back, old(source.left), size)
  {
    var client := new Sink(None);
    var server := new Sink(None);
    ghost var data := source.left;
    var n, readFault, pieces := ReadFrom(source, chunkSize, client);
    var incoming := if readFault.None? then client.messages[..|client.messages| - 1] else client.messages;
    assert incoming == pieces == pieces + [];
    var reader := new StreamReader(incoming, if readFault.None? then Eof else Broken);
    NonEmptyMessages(pieces, [], reader.ending);
    ghost var out;
    ghost var sent;
    fault, out, sent := ReadFromStream(FromStream(reader), size, server, None);
    back := server.messages;
    assert back == if fault.None? then out + [[]] else out;
    assert fault.None? ==> back[..|back| - 1] == out;
  }

  // ---------- the encrypting and signing loops ----------

  /** options: some field other than the data is set. */
  datatype Request = Request(options: bool, data: Message)

  /** The saltpack writer and the buffer it writes to.  outputs[i] is what the i-th write puts
      in the buffer (None: the write fails or is short; nothing past the end). */
  class Packer {
    var buf: seq<byte>
    var count: nat
    const outputs: seq<Option<seq<byte>>>
    const closing: Option<seq<byte>>
    ghost var writes: seq<Message>
    ghost var produced: seq<byte>

    constructor (header: seq<byte>, outputs: seq<Option<seq<byte>>>, closing: Option<seq<byte>>)
      ensures buf == produced == header && count == 0 && writes == []
      ensures this.outputs == outputs && this.closing == closing
    {
      buf, count, this.outputs, this.closing := header, 0, outputs, closing;
      writes, produced := [], header;
    }

    method Write(b: Message) returns (ok: bool)
      modifies this
      ensures ok == Output(outputs, old(count)).Some?
      ensures ok ==> count == old(count) + 1 && writes == old(writes) + [b]
      ensures ok ==> buf == old(buf) + Output(outputs, old(count)).value
      ensures ok ==> produced == old(produced) + Output(outputs, old(count)).value
      ensures !ok ==> writes == old(writes) && produced == old(produced)
    {
      var out := Output(outputs, count);
      if out.None? {
        return false;
      }
      buf := buf + out.value;
      count := count + 1;
      writes, produced := writes + [b], produced + out.value;
      return true;
    }

    method Close() returns (ok: bool)
      modifies this
      ensures ok == closing.Some?
      ensures ok ==> buf == old(buf) + closing.value && produced == old(produced) + closing.value
      ensures !ok ==> buf == old(buf) && produced == old(produced)
      ensures writes == old(writes)
    {
      if closing.None? {
        return false;
      }
      buf := buf + closing.value;
      produced := produced + closing.value;
      return true;
    }

    method Reset()
      modifies this`buf
      ensures buf == []
    {
      buf := [];
    }
  }

  function Output(outputs: seq<Option<seq<byte>>>, i: nat): Option<seq<byte>> {
    if i < |outputs| then outputs[i] else Some([])
  }

  /** Everything the writer puts out for n writes. */
  function Packed(header: seq<byte>, outputs: seq<Option<seq<byte>>>, n: nat): seq<byte> {
    if n == 0 then header
    else Packed(header, outputs, n - 1) + match Output(outputs, n - 1) { case Some(out) => out case None => [] }
  }

  /** What write number i puts out. */
  function PutOut(outputs: seq<Option<seq<byte>>>, i: nat): Message {
    if i < |outputs| && outputs[i].Some? then outputs[i].value else []
  }

  function Outs(outputs: seq<Option<seq<byte>>>, n: nat): seq<Message> {
    seq(n, i requires 0 <= i < n => PutOut(outputs, i))
  }

  lemma NoBadWrite(requests: seq<Request>, outputs: seq<Option<seq<byte>>>)
    ensures (forall i :: 0 <= i < |outputs| ==> outputs[i].Some?) ==> !BadWrite(requests, outputs)
  {
  }

  lemma {:induction false} PackedMeans(header: seq<byte>, outputs: seq<Option<seq<byte>>>, n: nat)
    ensures Packed(header, outputs, n) == header + Concat(Outs(outputs, n))
  {
    if n == 0 {
      assert header + [] == header;
    } else {
      var outs := Outs(outputs, n - 1);
      PackedMeans(header, outputs, n - 1);
      assert Outs(outputs, n) == outs + [PutOut(outputs, n - 1)];
      ConcatAppend(outs, PutOut(outputs, n - 1));
      assert header + (Concat(outs) + PutOut(outputs, n - 1)) == header + Concat(outs) + PutOut(outputs, n - 1);
    }
  }

  /** The data in the requests, in order; a request without data writes nothing. */
  function Writes(requests: seq<Request>): seq<Message> {
    if requests == [] then []
    else
      var last := requests[|requests| - 1];
      Writes(requests[..|requests| - 1]) + if last.data == [] then [] else [last.data]
  }

  /** A stream with nothing wrong in it. */
  ghost predicate Sound(requests: seq<Request>, ending: End, header: Option<seq<byte>>,
                        outputs: seq<Option<seq<byte>>>, closing: Option<seq<byte>>) {
    && ending.Eof? && requests != [] && header.Some? && closing.Some?
    && (forall i :: 0 < i < |requests| ==> !requests[i].options)
    && !BadWrite(requests, outputs)
  }

  ghost predicate BadWrite(requests: seq<Request>, outputs: seq<Option<seq<byte>>>) {
    exists j :: 0 <= j < |Writes(requests)| && Output(outputs, j).None?
  }

  lemma WritesStep(requests: seq<Request>, i: nat)
    requires i < |requests|
    ensures Writes(requests[..i + 1]) == Writes(requests[..i]) + if requests[i].data == []
            then [] else [requests[i].data]
  {
    assert requests[..i + 1][..i] == requests[..i];
  }

  lemma {:induction false} WritesGrow(requests: seq<Request>, i: nat)
    requires i <= |requests|
    ensures Writes(requests[..i]) <= Writes(requests)
    decreases |requests| - i
  {
    if i < |requests| {
      WritesStep(requests, i);
      WritesGrow(requests, i + 1);
    } else {
      assert requests[..i] == requests;
    }
  }

  /** The data of all requests. */
  function Plain(requests: seq<Request>): seq<byte> {
    if requests == [] then [] else Plain(requests[..|requests| - 1]) + requests[|requests| - 1].data
  }

  lemma {:induction false} WritesArePlain(requests: seq<Request>)
    ensures Concat(Writes(requests)) == Plain(requests)
  {
    if requests == [] {
    } else {
      var front, last := requests[..|requests| - 1], requests[|requests| - 1];
      WritesArePlain(front);
      if last.data == [] {
        assert Writes(requests) == Writes(front);
      } else {
        ConcatAppend(Writes(front), last.data);
      }
    }
  }

  /** After i requests: the writer got their data, and all it put out is sent or buffered. */
  ghost predicate Packing(requests: seq<Request>, header: seq<byte>, outputs: seq<Option<seq<byte>>>, i: nat,
                          pieces: seq<Message>, buf: seq<byte>, produced: seq<byte>, writes: seq<Message>, count: nat) {
    && i <= |requests|
    && Concat(pieces) + buf == produced == Packed(header, outputs, count)
    && writes == Writes(requests[..i]) && count == |writes|
    && (forall k :: 0 <= k < |pieces| ==> pieces[k] != [])
    && (forall k :: 0 < k < i ==> !requests[k].options)
    && (forall j :: 0 <= j < count ==> Output(outputs, j).Some?)
  }

  lemma PackStarts(requests: seq<Request>, header: seq<byte>, outputs: seq<Option<seq<byte>>>)
    ensures Packing(requests, header, outputs, 0, [], header, header, [], 0)
  {
    assert Concat([]) + header == header;
  }

  /** One request taken in: without data nothing changes, with data the writer is called and
      the buffer flushed. */
  lemma PackMore(requests: seq<Request>, header: seq<byte>, outputs: seq<Option<seq<byte>>>, i: nat,
                 pieces: seq<Message>, buf: seq<byte>, produced: seq<byte>, writes: seq<Message>, count: nat)
    requires Packing(requests, header, outputs, i, pieces, buf, produced, writes, count)
    requires i < |requests| && (i > 0 ==> !requests[i].options)
    ensures requests[i].data == [] ==>
              Packing(requests, header, outputs, i + 1, pieces, buf, produced, writes, count)
    ensures requests[i].data != [] && Output(outputs, count).Some? ==>
              var out := Output(outputs, count).value;
              Packing(requests, header, outputs, i + 1, Flushed(pieces, buf + out), [], produced + out,
                      writes + [requests[i].data], count + 1)
    ensures requests[i].data != [] && Output(outputs, count).None? ==>
              BadWrite(requests, outputs)
  {
    WritesStep(requests, i);
    WritesGrow(requests, i + 1);
    if requests[i].data != [] && Output(outputs, count).Some? {
      var out := Output(outputs, count).value;
      FlushedConcat(pieces, buf + out);
      assert Concat(pieces) + (buf + out) == produced + out;
      assert Packed(header, outputs, count + 1) == produced + out;
      assert produced + out + [] == produced + out;
    }
  }

  function Flushed(pieces: seq<Message>, buf: seq<byte>): seq<Message> {
    if buf == [] then pieces else pieces + [buf]
  }

  lemma FlushedConcat(pieces: seq<Message>, buf: seq<byte>)
    ensures Concat(Flushed(pieces, buf)) == Concat(pieces) + buf
  {
    ConcatAppend(pieces, buf);
  }

  /** A stream that broke off: what was sent is a prefix of what the writer put out for the
      first of the writes. */
  ghost predicate Partly(requests: seq<Request>, header: Option<seq<byte>>, outputs: seq<Option<seq<byte>>>,
                         pieces: seq<Message>, writes: seq<Message>) {
    pieces == [] || (header.Some? && writes <= Writes(requests)
        && Concat(pieces) <= Packed(header.value, outputs, |writes|))
  }

  lemma PackingIsPart(requests: seq<Request>, header: seq<byte>, outputs: seq<Option<seq<byte>>>, i: nat,
                      pieces: seq<Message>, buf: seq<byte>, produced: seq<byte>, writes: seq<Message>, count: nat)
    requires Packing(requests, header, outputs, i, pieces, buf, produced, writes, count)
    ensures Partly(requests, Some(header), outputs, pieces, writes)
  {
    WritesGrow(requests, i);
  }

  /** Sends what the buffer holds, if anything, and empties it. */
  method Flush(stream: Packer, sink: Sink) returns (ok: bool)
    modifies stream`buf, sink
    ensures ok ==> stream.buf == []
    ensures sink.messages == if ok then Flushed(old(sink.messages), old(stream.buf)) else old(sink.messages)
    ensures sink.accepts.None? ==> ok
  {
    ok := true;
    if |stream.buf| > 0 {
      ok := sink.Send(stream.buf);
      if ok {
        stream.Reset();
      }
    }
  }

  /** One request's data: written, and what the buffer then holds is sent. */
  method PackData(requests: seq<Request>, header: seq<byte>, i: nat, stream: Packer, sink: Sink,
                  ghost start: seq<Message>, ghost pieces: seq<Message>)
    returns (fault: Option<Fault>, ghost more: seq<Message>)
    requires Packing(requests, header, stream.outputs, i, pieces, stream.buf, stream.produced, stream.writes,
             stream.count)
    requires i < |requests| && (i > 0 ==> !requests[i].options) && sink.messages == start + pieces
    modifies stream, sink
    ensures sink.messages == start + more
    ensures fault.None? ==>
              Packing(requests, header, stream.outputs, i + 1, more, stream.buf, stream.produced, stream.writes,
                  stream.count)
    ensures fault.Some? ==> more == pieces
    ensures fault.Some? && sink.accepts.None? ==> BadWrite(requests, stream.outputs)
    ensures fault != Some(Crash)
  {
    PackMore(requests, header, stream.outputs, i, pieces, stream.buf, stream.produced, stream.writes, stream.count);
    more := pieces;
    var b := requests[i].data;
    if |b| > 0 {
      var ok := stream.Write(b);
      if !ok {
        return Some(WriteFailed), more;
      }
      ghost var buf := stream.buf;
      ok := Flush(stream, sink);
      if !ok {
        return Some(SendFailed), more;
      }
      more := Flushed(pieces, buf);
    }
    fault := None;
  }

  /** The writer is closed and the buffer sent. */
  method PackEnd(stream: Packer, sink: Sink, ghost start: seq<Message>, ghost pieces: seq<Message>)
    returns (fault: Option<Fault>, ghost more: seq<Message>)
    requires sink.messages == start + pieces && forall k :: 0 <= k < |pieces| ==> pieces[k] != []
    modifies stream, sink
    ensures sink.messages == start + more && forall k :: 0 <= k < |more| ==> more[k] != []
    ensures fault.None? ==>
              && stream.closing.Some?
              && Concat(more) == Concat(pieces) + old(stream.buf) + stream.closing.value
    ensures fault.Some? ==> more == pieces && (sink.accepts.None? ==> stream.closing.None?)
    ensures fault != Some(Crash)
  {
    more := pieces;
    ghost var before := stream.buf;
    var ok := stream.Close();
    if !ok {
      return Some(CloseFailed), more;
    }
    ghost var buf := stream.buf;
    ok := Flush(stream, sink);
    if !ok {
      return Some(SendFailed), more;
    }
    more := Flushed(pieces, buf);
    FlushedConcat(pieces, buf);
    assert Concat(pieces) + before + stream.closing.value == Concat(pieces) + (before + stream.closing.value);
    fault := None;
  }

  /** The loop: requests are taken in one by one until the stream ends. */
  method PackAll(requests: seq<Request>, ending: End, header: Option<seq<byte>>,
                    outputs: seq<Option<seq<byte>>>, closing: Option<seq<byte>>, sink: Sink, cancelAfter: Option<nat>)
    returns (fault: Option<Fault>, ghost pieces: seq<Message>, ghost writes: seq<Message>)
    modifies sink
    ensures sink.messages == old(sink.messages) + pieces && forall k :: 0 <= k < |pieces| ==> pieces[k] != []
    ensures fault.None? ==> Sound(requests, ending, header, outputs, closing) && writes == Writes(requests)
    ensures fault.None? ==> Concat(pieces) == Packed(header.value, outputs, |writes|) + closing.value
    ensures fault.Some? ==> Partly(requests, header, outputs, pieces, writes)
    ensures sink.accepts.None? && cancelAfter.None? && Sound(requests, ending, header, outputs, closing) ==> fault.None?
    ensures fault == Some(Crash) ==> requests == [] && ending.Eof?
    ensures requests == [] && ending.Eof? && cancelAfter.None? ==> fault == Some(Crash)
  {
    var init, i := false, 0;
    var stream: Packer? := null;
    pieces, writes := [], [];
    while true
      invariant i <= |requests| && (init <==> i > 0) && (init <==> stream != null)
      invariant sink.messages == old(sink.messages) + pieces
      invariant stream == null ==> pieces == [] && writes == []
      invariant stream != null ==>
                && fresh(stream) && header.Some? && stream.outputs == outputs
                && stream.closing == closing
      invariant stream != null ==> writes == stream.writes && Packing(requests, header.value, outputs, i,
                  pieces, stream.buf, stream.produced, stream.writes, stream.count)
      decreases |requests| - i
    {
      if stream != null {
        PackingIsPart(requests, header.value, outputs, i, pieces, stream.buf, stream.produced, writes, stream.count);
      }
      if cancelAfter.Some? && i >= cancelAfter.value {
        return Some(Canceled), pieces, writes;
      }
      if i == |requests| {
        if ending.Eof? {
          break;
        }
        return Some(ReadFailed), pieces, writes;
      }
      var req := requests[i];
      if !init {
        init := true;
        if header.None? {
          return Some(InitFailed), pieces, writes;
        }
        stream := new Packer(header.value, outputs, closing);
        PackStarts(requests, header.value, outputs);
      } else if req.options {
        return Some(LateOptions), pieces, writes;
      }
      fault, pieces := PackData(requests, header.value, i, stream, sink, old(sink.messages), pieces);
      if fault.Some? {
        return;
      }
      writes := stream.writes;
      i := i + 1;
    }
    if stream == null {
      return Some(Crash), pieces, writes;
    }
    PackingIsPart(requests, header.value, outputs, i, pieces, stream.buf, stream.produced, writes, stream.count);
    assert requests[..|requests|] == requests;
    fault, pieces := PackEnd(stream, sink, old(sink.messages), pieces);
  }

  /** The loop of EncryptStream and SignStream.  It sends exactly what the writer puts out, in
      order and never an empty message; it succeeds exactly on sound streams, and a stream
      that ends before its first request crashes it. */
  method PackStream(requests: seq<Request>, ending: End, header: Option<seq<byte>>,
                    outputs: seq<Option<seq<byte>>>, closing: Option<seq<byte>>, sink: Sink, cancelAfter: Option<nat>)
    returns (fault: Option<Fault>, ghost pieces: seq<Message>, ghost writes: seq<Message>)
    modifies sink
    ensures sink.messages == old(sink.messages) + pieces && forall k :: 0 <= k < |pieces| ==> pieces[k] != []
    ensures fault.None? ==> Sound(requests, ending, header, outputs, closing) && writes == Writes(requests)
    ensures fault.None? ==> Concat(pieces) == Packed(header.value, outputs, |writes|) + closing.value
    ensures fault.Some? ==> Partly(requests, header, outputs, pieces, writes)
    ensures sink.accepts.None? && cancelAfter.None? && Sound(requests, ending, header, outputs, closing) ==> fault.None?
    ensures fault == Some(Crash) ==> requests == [] && ending.Eof?
    ensures requests == [] && ending.Eof? && cancelAfter.None? ==> fault == Some(Crash)
    ensures fault.None? ==>
              && ending.Eof? && requests != [] && header.Some? && closing.Some?
              && (forall i :: 0 < i < |requests| ==> !requests[i].options)
              && Concat(writes) == Plain(requests)
              && Concat(pieces) == header.value + Concat(Outs(outputs, |writes|)) + closing.value
    ensures sink.accepts.None? && cancelAfter.None? && ending.Eof? && requests != [] && header.Some? && closing.Some?
            && (forall i :: 0 < i < |requests| ==> !requests[i].options)
            && (forall i :: 0 <= i < |outputs| ==> outputs[i].Some?) ==>
              fault.None?
  {
    hide Concat;
    hide Packed;
    hide Writes;
    hide Plain;
    NoBadWrite(requests, outputs);
    fault, pieces, writes := PackAll(requests, ending, header, outputs, closing, sink, cancelAfter);
    WritesArePlain(requests);
    if fault.None? {
      PackedMeans(header.value, outputs, |writes|);
    }
  }
}
