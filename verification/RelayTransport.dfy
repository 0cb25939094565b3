/** Framing between runWorker and the worker process in duck-rkp/duck_rkp.cpp: whole buffers moved over
    a stream socket whose calls may be interrupted or move fewer bytes than asked. */
module RelayTransport {
  import opened Cbor
  import opened RelayRequest

  const MAGIC := 0x44524b50
  const INVALID_REQUEST := 1
  const TRANSPORT := 3
  const TIMEOUT := 5
  const SIGALRM := 14

  type uint32 = n: int | 0 <= n < 0x1_0000_0000

  /** What the kernel does in one send or recv call: it is interrupted, moves up to `n` bytes, or fails. */
  datatype Outcome = Interrupted | Count(n: nat) | Failed

  /** No call fails and none reports end of file. */
  predicate Clean(schedule: seq<Outcome>) {
    forall o <- schedule :: o.Interrupted? || (o.Count? && o.n > 0)
  }

  /** How many calls of the schedule move something. */
  function Moves(schedule: seq<Outcome>): nat {
    if schedule == [] then 0
    else (if schedule[0].Count? then 1 else 0) + Moves(schedule[1..])
  }

  predicate Enough(schedule: seq<Outcome>, bytes: nat) {
    Clean(schedule) && Moves(schedule) >= bytes
  }

  class Pipe {
    var bytes: seq<byte>

    constructor ()
      ensures bytes == []
    {
      bytes := [];
    }
  }

  /** One end of the socket pair, with the outcomes its next calls will have. */
  class SocketEnd {
    const outgoing: Pipe
    const incoming: Pipe
    var schedule: seq<Outcome>

    constructor (outgoing: Pipe, incoming: Pipe, schedule: seq<Outcome>)
      ensures this.outgoing == outgoing && this.incoming == incoming && this.schedule == schedule
    {
      this.outgoing, this.incoming, this.schedule := outgoing, incoming, schedule;
    }

    /** One send call from position `done` of the buffer: the number of bytes moved,
        or -1 after an interruption, or 0 when it moved none or failed. */
    method Send(buffer: array<byte>, done: nat) returns (count: int)
      requires schedule != [] && done < buffer.Length
      modifies this, outgoing
      ensures schedule == old(schedule)[1..]
      ensures -1 <= count <= buffer.Length - done
      ensures count == -1 <==> old(schedule)[0].Interrupted?
      ensures count == 0 ==> old(schedule)[0].Failed? || old(schedule)[0] == Count(0)
      ensures outgoing.bytes == old(outgoing.bytes) + if count > 0 then buffer[done..done + count] else []
    {
      var outcome := schedule[0];
      schedule := schedule[1..];
      if outcome.Interrupted? {
        return -1;
      }
      if outcome.Failed? {
        return 0;
      }
      count := if outcome.n < buffer.Length - done then outcome.n else buffer.Length - done;
      outgoing.bytes := outgoing.bytes + buffer[done..done + count];
    }

    /** One recv call to position `done` of the buffer; 0 also at end of file. */
    method Recv(buffer: array<byte>, done: nat) returns (count: int)
      requires schedule != [] && done < buffer.Length
      modifies this, incoming, buffer
      ensures schedule == old(schedule)[1..]
      ensures -1 <= count <= buffer.Length - done && count <= |old(incoming.bytes)|
      ensures count == -1 <==> old(schedule)[0].Interrupted?
      ensures count == 0 ==> old(schedule)[0].Failed? || old(schedule)[0] == Count(0) || old(incoming.bytes) == []
      ensures count <= 0 ==> buffer[..] == old(buffer[..]) && incoming.bytes == old(incoming.bytes)
      ensures count > 0 ==>
                && incoming.bytes == old(incoming.bytes)[count..]
                && buffer[..] == Overwritten(old(buffer[..]), done, old(incoming.bytes)[..count])
    {
      var outcome := schedule[0];
      schedule := schedule[1..];
      if outcome.Interrupted? {
        return -1;
      }
      if outcome.Failed? {
        return 0;
      }
      count := if outcome.n < buffer.Length - done then outcome.n else buffer.Length - done;
      count := if count < |incoming.bytes| then count else |incoming.bytes|;
      forall k | 0 <= k < count {
        buffer[done + k] := incoming.bytes[k];
      }
      assert buffer[..] == Overwritten(old(buffer[..]), done, incoming.bytes[..count]);
      incoming.bytes := incoming.bytes[count..];
    }

    /** transfer() when writing: sends a prefix of the buffer, all of it exactly when it succeeds. A clean
        schedule with one moving call per byte always suffices, and at most that many moving calls are used up. */
    method TransferOut(buffer: array<byte>) returns (ok: bool, ghost moved: nat)
      modifies this, outgoing
      ensures moved <= buffer.Length && (ok <==> moved == buffer.Length)
      ensures outgoing.bytes == old(outgoing.bytes) + buffer[..moved]
      ensures Enough(old(schedule), buffer.Length) ==>
                Enough(schedule, Moves(old(schedule)) - buffer.Length) && ok
    {
      var done := 0;
      moved := 0;
      while done < buffer.Length
        invariant moved == done <= buffer.Length
        invariant outgoing.bytes == old(outgoing.bytes) + buffer[..done]
        invariant Enough(old(schedule), buffer.Length) ==>
                    Clean(schedule) && Moves(schedule) + done >= Moves(old(schedule))
        decreases |schedule|
      {
        if schedule == [] {
          return false, moved;
        }
        var count := Send(buffer, done);
        if count == -1 {
          continue;
        }
        if count <= 0 {
          return false, moved;
        }
        assert buffer[..done + count] == buffer[..done] + buffer[done..done + count];
        done := done + count;
        moved := done;
      }
      ok := true;
    }

    /** transfer() when reading: fills the front of the buffer from the front of the stream, and all of it
        exactly when it succeeds, which it does if as many bytes are waiting and the schedule suffices. */
    method TransferIn(buffer: array<byte>) returns (ok: bool, ghost moved: nat)
      modifies this, incoming, buffer
      ensures moved <= buffer.Length && (ok <==> moved == buffer.Length)
      ensures Received(old(buffer[..]), buffer[..], old(incoming.bytes), incoming.bytes, moved)
      ensures Enough(old(schedule), buffer.Length) ==>
                && Enough(schedule, Moves(old(schedule)) - buffer.Length)
                && (|old(incoming.bytes)| >= buffer.Length ==> ok)
    {
      var done := 0;
      moved := 0;
      while done < buffer.Length
        invariant moved == done <= buffer.Length
        invariant Received(old(buffer[..]), buffer[..], old(incoming.bytes), incoming.bytes, done)
        invariant Enough(old(schedule), buffer.Length) ==>
                    Clean(schedule) && Moves(schedule) + done >= Moves(old(schedule))
        decreases |schedule|
      {
        if schedule == [] {
          return false, moved;
        }
        ghost var buffered, waiting := buffer[..], incoming.bytes;
        var count := Recv(buffer, done);
        if count == -1 {
          continue;
        }
        if count <= 0 {
          return false, moved;
        }
        ReceivedMore(old(buffer[..]), buffered, old(incoming.bytes), waiting, done, buffer[..], count);
        done := done + count;
        moved := done;
      }
      ok := true;
    }
  }

  function Overwritten(buffer: seq<byte>, at: nat, data: seq<byte>): seq<byte>
    requires at + |data| <= |buffer|
  {
    buffer[..at] + data + buffer[at + |data|..]
  }

  /** `moved` bytes went from the front of `sent` to the front of the buffer. */
  predicate Received(before: seq<byte>, buffer: seq<byte>, sent: seq<byte>, left: seq<byte>, moved: nat) {
    && moved <= |buffer| == |before| && moved <= |sent|
    && buffer == sent[..moved] + before[moved..] && left == sent[moved..]
  }

  lemma ReceivedMore(before: seq<byte>, buffer: seq<byte>, sent: seq<byte>, left: seq<byte>, moved: nat,
                     after: seq<byte>, count: nat)
    requires Received(before, buffer, sent, left, moved)
    requires moved + count <= |buffer| && count <= |left|
    requires after == Overwritten(buffer, moved, left[..count])
    ensures Received(before, after, sent, left[count..], moved + count)
  {
    assert sent[..moved + count] == sent[..moved] + left[..count];
    assert buffer[..moved] == sent[..moved];
    assert buffer[moved + count..] == before[moved + count..];
  }

  // ---------------------------------------------------------------- frames

  /** Two words, the size of the payload, each in network byte order, and the payload. */
  function Frame(first: uint32, second: uint32, payload: seq<byte>): (bytes: seq<byte>)
    ensures |bytes| == 12 + |payload|
  {
    BigEndian(first, 4) + BigEndian(second, 4) + BigEndian(|payload|, 4) + payload
  }

  function Word(bytes: seq<byte>, i: nat): (n: uint32)
    requires 4 * i + 4 <= |bytes|
  {
    Powers();
    Value(bytes[4 * i..4 * i + 4])
  }

  lemma WordsOfFrame(first: uint32, second: uint32, payload: seq<byte>, rest: seq<byte>)
    requires |payload| < 0x1_0000_0000
    ensures var bytes := Frame(first, second, payload) + rest;
            && Word(bytes, 0) == first && Word(bytes, 1) == second && Word(bytes, 2) == |payload|
            && bytes[12..12 + |payload|] == payload && bytes[12 + |payload|..] == rest
  {
    var bytes := Frame(first, second, payload) + rest;
    Powers();
    ValueOfBigEndian(first, 4);
    ValueOfBigEndian(second, 4);
    ValueOfBigEndian(|payload|, 4);
    assert bytes[0..4] == BigEndian(first, 4);
    assert bytes[4..8] == BigEndian(second, 4);
    assert bytes[8..12] == BigEndian(|payload|, 4);
    assert bytes[12..12 + |payload|] == payload;
  }

  /** What the vendor side answers to an accepted request. */
  datatype Answer = Answer(status: uint32, detail: uint32, payload: seq<byte>)

  predicate FitsBuffer(answer: Answer) {
    |answer.payload| <= BUFFER_SIZE - 8
  }

  /** The request that a worker reads from what it was sent, if it accepts one. */
  predicate Accepts(input: seq<byte>) {
    && |input| >= 12
    && Word(input, 0) == MAGIC && 0 < Word(input, 2) <= MAX_REQUEST - 4
    && |input| >= 12 + Word(input, 2)
    && IsValid(Word(input, 1), input[12..12 + Word(input, 2)])
  }

  predicate WholeRequest(input: seq<byte>) {
    |input| >= 12 && |input| >= 12 + Word(input, 2)
  }

  /** What a worker writes back: nothing without a full header. */
  function WorkerReply(input: seq<byte>, answer: Answer): seq<byte> {
    if |input| < 12 then []
    else if Accepts(input) then Frame(answer.status, answer.detail, answer.payload)
    else Frame(INVALID_REQUEST, 0, [])
  }

  /** The worker sees exactly the backend and payload that were framed, and takes them
      iff they pass validation and the payload has at most MAX_REQUEST - 4 bytes. */
  lemma WorkerSeesTheRequest(backend: uint32, payload: seq<byte>)
    requires |payload| < 0x1_0000_0000
    ensures var input := Frame(MAGIC, backend, payload);
            && Word(input, 1) == backend && Word(input, 2) == |payload|
            && input[12..] == payload && WholeRequest(input)
            && (Accepts(input) <==> IsValid(backend, payload) && |payload| <= MAX_REQUEST - 4)
  {
    var input := Frame(MAGIC, backend, payload);
    WordsOfFrame(MAGIC, backend, payload, []);
    assert input + [] == input;
  }

  method ToArray(bytes: seq<byte>) returns (buffer: array<byte>)
    ensures fresh(buffer) && buffer[..] == bytes
  {
    buffer := new byte[|bytes|](i requires 0 <= i < |bytes| => bytes[i]);
  }

  method SendAll(end: SocketEnd, bytes: seq<byte>) returns (ok: bool)
    requires end.outgoing != end.incoming
    modifies end, end.outgoing
    ensures old(end.outgoing.bytes) <= end.outgoing.bytes <= old(end.outgoing.bytes) + bytes
    ensures ok <==> end.outgoing.bytes == old(end.outgoing.bytes) + bytes
    ensures Enough(old(end.schedule), |bytes|) ==>
              ok && Enough(end.schedule, Moves(old(end.schedule)) - |bytes|)
  {
    var buffer := ToArray(bytes);
    ghost var moved;
    ok, moved := end.TransferOut(buffer);
    assert bytes == bytes[..moved] + bytes[moved..];
    assert old(end.outgoing.bytes) + bytes == end.outgoing.bytes + bytes[moved..];
  }

  method ReceiveAll(end: SocketEnd, size: nat) returns (ok: bool, bytes: seq<byte>)
    requires end.outgoing != end.incoming
    modifies end, end.incoming
    ensures ok ==> size <= |old(end.incoming.bytes)| && bytes == old(end.incoming.bytes)[..size]
                   && end.incoming.bytes == old(end.incoming.bytes)[size..]
    ensures Enough(old(end.schedule), size) ==>
              && Enough(end.schedule, Moves(old(end.schedule)) - size)
              && (|old(end.incoming.bytes)| >= size ==> ok)
    ensures |old(end.incoming.bytes)| < size ==> !ok
  {
    var buffer := new byte[size](_ => 0);
    ghost var moved;
    ok, moved := end.TransferIn(buffer);
    bytes := buffer[..];
  }

  /** reply: the header, and then the payload if there is one. Whatever happens, it sends no more than its frame. */
  method Reply(end: SocketEnd, status: uint32, detail: uint32, payload: seq<byte>) returns (ok: bool)
    requires end.outgoing != end.incoming && |payload| < 0x1_0000_0000
    modifies end, end.outgoing
    ensures old(end.outgoing.bytes) <= end.outgoing.bytes <= old(end.outgoing.bytes) + Frame(status, detail, payload)
    ensures ok <==> end.outgoing.bytes == old(end.outgoing.bytes) + Frame(status, detail, payload)
    ensures Enough(old(end.schedule), 12 + |payload|) ==> ok
  {
    var header := BigEndian(status, 4) + BigEndian(detail, 4) + BigEndian(|payload|, 4);
    ghost var before := end.outgoing.bytes;
    assert Frame(status, detail, payload) == header + payload;
    assert before + (header + payload) == (before + header) + payload;
    ok := SendAll(end, header);
    if ok && |payload| > 0 {
      ok := SendAll(end, payload);
    }
  }

  lemma WordsOfHeader(input: seq<byte>)
    requires |input| >= 12
    ensures forall i | 0 <= i < 3 :: Word(input[..12], i) == Word(input, i)
  {
    forall i | 0 <= i < 3 ensures Word(input[..12], i) == Word(input, i) {
      assert input[..12][4 * i..4 * i + 4] == input[4 * i..4 * i + 4];
    }
  }

  /** What a worker may write back in any case: the beginning of a refusal or, to an acceptable request, of the
      answer. */
  predicate MayReply(input: seq<byte>, answer: Answer, written: seq<byte>) {
    || written <= Frame(INVALID_REQUEST, 0, [])
    || (Accepts(input) && written <= Frame(answer.status, answer.detail, answer.payload))
  }

  lemma WrittenPart(before: seq<byte>, after: seq<byte>, frame: seq<byte>)
    requires before <= after <= before + frame
    ensures after[|before|..] <= frame
  {
  }

  /** The reading half of serve(): whether there was a header, whether all that it announces could be read if it
      had to be, and whether the request is accepted. */
  method ReadRequest(end: SocketEnd) returns (gotHeader: bool, whole: bool, accepted: bool)
    requires end.outgoing != end.incoming
    modifies end, end.incoming
    ensures accepted ==> gotHeader && whole && Accepts(old(end.incoming.bytes))
    ensures gotHeader ==> |old(end.incoming.bytes)| >= 12
    ensures gotHeader && whole ==> (accepted <==> Accepts(old(end.incoming.bytes)))
    ensures Enough(old(end.schedule), 12 + MAX_REQUEST) && |old(end.incoming.bytes)| >= 12 ==>
              && gotHeader && (accepted <==> Accepts(old(end.incoming.bytes)))
              && (WholeRequest(old(end.incoming.bytes)) ==> whole)
              && Enough(end.schedule, Moves(old(end.schedule)) - (12 + MAX_REQUEST))
  {
    ghost var input := end.incoming.bytes;
    var header;
    gotHeader, header := ReceiveAll(end, 12);
    if !gotHeader {
      return false, false, false;
    }
    WordsOfHeader(input);
    var backend, size := Word(header, 1), Word(header, 2);
    if Word(header, 0) != MAGIC || size == 0 || size > MAX_REQUEST - 4 {
      return true, true, false;
    }
    var payload;
    whole, payload := ReceiveAll(end, size);
    accepted := false;
    if whole {
      assert payload == input[12..12 + size];
      accepted := ValidRequest(backend, payload);
    }
  }

  /** The worker process, with the answer that the vendor side would give. It never writes anything but a refusal
      or, to an acceptable request, the answer. It succeeds when it read a whole request, or a header it refuses,
      and wrote its reply. */
  method Serve(end: SocketEnd, answer: Answer) returns (ok: bool)
    requires end.outgoing != end.incoming && FitsBuffer(answer)
    modifies end, end.outgoing, end.incoming
    ensures old(end.outgoing.bytes) <= end.outgoing.bytes
    ensures MayReply(old(end.incoming.bytes), answer, end.outgoing.bytes[|old(end.outgoing.bytes)|..])
    ensures ok ==> end.outgoing.bytes == old(end.outgoing.bytes) + WorkerReply(old(end.incoming.bytes), answer)
    ensures Enough(old(end.schedule), 24 + MAX_REQUEST + BUFFER_SIZE) && |old(end.incoming.bytes)| >= 12 ==>
              end.outgoing.bytes == old(end.outgoing.bytes) + WorkerReply(old(end.incoming.bytes), answer)
    ensures Enough(old(end.schedule), 24 + MAX_REQUEST + BUFFER_SIZE) && WholeRequest(old(end.incoming.bytes)) ==> ok
    ensures |old(end.incoming.bytes)| < 12 ==> !ok && end.outgoing.bytes == old(end.outgoing.bytes)
  {
    ghost var before := end.outgoing.bytes;
    var gotHeader, whole, accepted := ReadRequest(end);
    if !gotHeader {
      return false;
    }
    if accepted {
      ok := Reply(end, answer.status, answer.detail, answer.payload);
      WrittenPart(before, end.outgoing.bytes, Frame(answer.status, answer.detail, answer.payload));
    } else {
      ok := Reply(end, INVALID_REQUEST, 0, []);
      WrittenPart(before, end.outgoing.bytes, Frame(INVALID_REQUEST, 0, []));
      ok := ok && whole;
    }
  }

  function ErrorReply(status: uint32, detail: uint32): seq<byte> {
    Frame(status, detail, [])
  }

  /** The first half of runWorker: header, then payload. */
  method SendRequest(end: SocketEnd, backend: uint32, payload: seq<byte>) returns (ok: bool)
    requires end.outgoing != end.incoming && |payload| < 0x1_0000_0000
    modifies end, end.outgoing
    ensures ok ==> end.outgoing.bytes == old(end.outgoing.bytes) + Frame(MAGIC, backend, payload)
    ensures Enough(old(end.schedule), 12 + |payload|) ==>
              ok && Enough(end.schedule, Moves(old(end.schedule)) - (12 + |payload|))
  {
    var header := BigEndian(MAGIC, 4) + BigEndian(backend, 4) + BigEndian(|payload|, 4);
    assert Frame(MAGIC, backend, payload) == header + payload;
    ok := SendAll(end, header);
    if ok {
      ghost var sent := end.outgoing.bytes;
      ok := SendAll(end, payload);
      assert sent + payload == old(end.outgoing.bytes) + (header + payload);
    }
  }

  /** A whole frame that fits the caller's buffer is waiting. */
  predicate WholeFrame(input: seq<byte>) {
    |input| >= 12 && Word(input, 2) <= BUFFER_SIZE - 8 && |input| >= 12 + Word(input, 2)
  }

  /** The second half of runWorker: a header, and as many bytes as it announces; whatever is waiting, it returns it
      unchanged or fails. */
  method ReceiveResponse(end: SocketEnd) returns (ok: bool, response: seq<byte>)
    requires end.outgoing != end.incoming
    modifies end, end.incoming
    ensures ok ==> WholeFrame(old(end.incoming.bytes))
                   && response == old(end.incoming.bytes)[..12 + Word(old(end.incoming.bytes), 2)]
    ensures Enough(old(end.schedule), 12 + BUFFER_SIZE) && WholeFrame(old(end.incoming.bytes)) ==> ok
  {
    ghost var input := end.incoming.bytes;
    var header;
    ok, header := ReceiveAll(end, 12);
    if !ok {
      return false, [];
    }
    WordsOfHeader(input);
    var size := Word(header, 2);
    if size > BUFFER_SIZE - 8 {
      return false, [];
    }
    var body;
    ok, body := ReceiveAll(end, size);
    response := header + body;
    if ok {
      assert input[12..][..size] == input[12..12 + size];
      assert input[..12] + input[12..12 + size] == input[..12 + size];
    }
  }

  /** The beginning of a frame that holds as much as it announces is the frame. */
  lemma WholePrefix(input: seq<byte>, first: uint32, second: uint32, payload: seq<byte>)
    requires |payload| < 0x1_0000_0000 && input <= Frame(first, second, payload) && WholeFrame(input)
    ensures input[..12 + Word(input, 2)] == Frame(first, second, payload)
  {
    var frame := Frame(first, second, payload);
    WordsOfFrame(first, second, payload, []);
    assert frame + [] == frame;
    assert input[8..12] == frame[8..12];
  }

  lemma FrameIsWhole(first: uint32, second: uint32, payload: seq<byte>)
    requires |payload| <= BUFFER_SIZE - 8
    ensures WholeFrame(Frame(first, second, payload))
  {
    WordsOfFrame(first, second, payload, []);
    assert Frame(first, second, payload) + [] == Frame(first, second, payload);
  }

  function Refusal(): seq<byte> {
    ErrorReply(INVALID_REQUEST, 0)
  }

  predicate Refuses(reply: seq<byte>) {
    SaysOnly(reply, 1, 0)
  }

  predicate Answers(reply: seq<byte>, answer: Answer) {
    reply == Frame(answer.status, answer.detail, answer.payload)
  }

  /** A frame of status and detail without a payload. */
  predicate SaysOnly(reply: seq<byte>, status: uint32, detail: uint32) {
    reply == Frame(status, detail, [])
  }

  /** What waitpid says of the worker: its exit code, the signal that ended it (its alarm, or the caller's own kill
      after a failed exchange), or an error number. */
  datatype Ending = Exited(code: uint32) | Signaled(signal: uint32) | Unknown(errno: uint32)

  function StatusOf(ending: Ending): uint32 {
    if ending == Signaled(SIGALRM) then TIMEOUT else TRANSPORT
  }

  function DetailOf(ending: Ending): uint32 {
    match ending
    case Exited(_) => 0
    case Signaled(signal) => signal
    case Unknown(errno) => errno
  }

  /** What the caller gets when the worker did not end well or the exchange failed. */
  function Failure(ending: Ending): seq<byte> {
    ErrorReply(StatusOf(ending), DetailOf(ending))
  }

  /** The worker serves what was sent, and the caller reads what the worker wrote, but believes it only if the worker
      exited with code 0. */
  method AwaitReply(end: SocketEnd, worker: SocketEnd, answer: Answer, ending: Ending) returns (response: seq<byte>)
    requires end.outgoing == worker.incoming && end.incoming == worker.outgoing
    requires end != worker && end.outgoing != end.incoming && FitsBuffer(answer)
    requires WholeRequest(end.outgoing.bytes) && end.incoming.bytes == []
    modifies end, worker, end.outgoing, end.incoming
    ensures ending != Exited(0) ==> response == Failure(ending)
    ensures response == Refusal() || response == Failure(ending)
            || (Accepts(old(end.outgoing.bytes)) && response == Frame(answer.status, answer.detail, answer.payload))
    ensures ending == Exited(0) && Enough(old(end.schedule), 12 + BUFFER_SIZE)
            && Enough(old(worker.schedule), 24 + MAX_REQUEST + BUFFER_SIZE) ==>
              response == WorkerReply(old(end.outgoing.bytes), answer)
  {
    ghost var request := end.outgoing.bytes;
    var _ := Serve(worker, answer);
    ghost var replied := end.incoming.bytes;
    FromNothing(WorkerReply(request, answer));
    assert replied[0..] == replied;
    var ok;
    ok, response := ReceiveResponse(end);
    if !ok || ending != Exited(0) {
      response := Failure(ending);
    }
    RepliedFrame(replied, response, ok && ending == Exited(0), request, answer, ending);
  }

  /** A valid request is sent, and its reply awaited. */
  method Exchange(end: SocketEnd, worker: SocketEnd, backend: uint32, payload: seq<byte>, answer: Answer,
                  ending: Ending)
      returns (response: seq<byte>)
    requires end.outgoing == worker.incoming && end.incoming == worker.outgoing
    requires end != worker && end.outgoing != end.incoming && FitsBuffer(answer)
    requires end.outgoing.bytes == [] && end.incoming.bytes == [] && IsValid(backend, payload)
    modifies end, worker, end.outgoing, end.incoming
    ensures ending != Exited(0) ==> response == Failure(ending)
    ensures response == Refusal() || response == Failure(ending)
            || (|payload| <= MAX_REQUEST - 4 && response == Frame(answer.status, answer.detail, answer.payload))
    ensures ending == Exited(0) && Enough(old(end.schedule), 24 + MAX_REQUEST + BUFFER_SIZE)
            && Enough(old(worker.schedule), 24 + MAX_REQUEST + BUFFER_SIZE) ==>
              response == if |payload| <= MAX_REQUEST - 4
                          then Frame(answer.status, answer.detail, answer.payload) else Refusal()
  {
    var sent := SendRequest(end, backend, payload);
    if !sent {
      return Failure(ending);
    }
    FromNothing(Frame(MAGIC, backend, payload));
    WorkerSeesTheRequest(backend, payload);
    response := AwaitReply(end, worker, answer, ending);
  }

  /** The error of an ending: a timeout for the alarm, otherwise a transport error with the signal or error number. */
  predicate SaysError(reply: seq<byte>, ending: Ending) {
    match ending
    case Signaled(signal) => SaysOnly(reply, if signal == 14 then 5 else 3, signal)
    case Unknown(errno) => SaysOnly(reply, 3, errno)
    case Exited(_) => SaysOnly(reply, 3, 0)
  }

  /** runWorker, with the worker process run on the other end. For every schedule of short counts, interruptions and
      failures on both ends and every ending of the worker the caller gets the vendor's frame for a valid request, a
      refusal (status 1), or the error of the ending: status 5 if it was the worker's alarm, 3 otherwise. */
  method RunWorker(end: SocketEnd, worker: SocketEnd, backend: uint32, payload: seq<byte>, answer: Answer,
                   ending: Ending)
      returns (response: seq<byte>)
    requires end.outgoing == worker.incoming && end.incoming == worker.outgoing
    requires end != worker && end.outgoing != end.incoming && FitsBuffer(answer)
    requires end.outgoing.bytes == [] && end.incoming.bytes == []
    modifies end, worker, end.outgoing, end.incoming
    ensures Refuses(response) || SaysError(response, ending)
            || (IsValid(backend, payload) && |payload| <= MAX_REQUEST - 4 && Answers(response, answer))
    ensures !IsValid(backend, payload) ==> Refuses(response)
    ensures IsValid(backend, payload) && ending != Exited(0) ==> SaysError(response, ending)
    ensures ending == Exited(0) && Enough(old(end.schedule), 24 + MAX_REQUEST + BUFFER_SIZE)
            && Enough(old(worker.schedule), 24 + MAX_REQUEST + BUFFER_SIZE) ==>
              if IsValid(backend, payload) && |payload| <= MAX_REQUEST - 4 then Answers(response, answer)
              else Refuses(response)
  {
    var valid := ValidRequest(backend, payload);
    if !valid {
      return Refusal();
    }
    response := Exchange(end, worker, backend, payload, answer, ending);
  }

  lemma FromNothing(frame: seq<byte>)
    ensures [] + frame == frame
  {
  }

  /** What the caller makes of what the worker wrote. */
  lemma RepliedFrame(replied: seq<byte>, response: seq<byte>, ok: bool, request: seq<byte>, answer: Answer,
                     ending: Ending)
    requires FitsBuffer(answer) && MayReply(request, answer, replied)
    requires if ok then WholeFrame(replied) && response == replied[..12 + Word(replied, 2)]
             else response == Failure(ending)
    ensures response == Refusal() || response == Failure(ending)
            || (Accepts(request) && response == Frame(answer.status, answer.detail, answer.payload))
    ensures replied == Frame(INVALID_REQUEST, 0, []) ==> WholeFrame(replied) && (ok ==> response == replied)
    ensures replied == Frame(answer.status, answer.detail, answer.payload) ==>
              WholeFrame(replied) && (ok ==> response == replied)
  {
    FrameIsWhole(INVALID_REQUEST, 0, []);
    FrameIsWhole(answer.status, answer.detail, answer.payload);
    if ok {
      if replied <= Frame(INVALID_REQUEST, 0, []) {
        WholePrefix(replied, INVALID_REQUEST, 0, []);
      }
      if replied <= Frame(answer.status, answer.detail, answer.payload) {
        WholePrefix(replied, answer.status, answer.detail, answer.payload);
      }
    }
  }
}
