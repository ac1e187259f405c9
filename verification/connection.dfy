/** One connection cycle of the daemon: `process` (src/network.c:33-80) with
 *  its bounded read loop `sso_read` (src/network.c:320-344) over the shared
 *  input buffer `so_buffer`, zeroed by MEMSET_BUFF (src/helpers.h:17).
 *
 *  json-c's parser is an oracle from the bytes up to the first NUL to a
 *  document (or a failure); json_object_put's return value, the outcome of
 *  setsockopt, and the handlers' NVML answers are parameters.
 */
module Connection {
  import opened Options
  import opened Status
  import opened Socket
  import opened Envelope
  import opened Json
  import opened Outcomes
  import opened Handlers
  import opened Dispatch
  import Strip

  const PARSE_FAILED: string := "Failed parsing of JSON, view daemon logs for error code..."
  const ACTION_MISSING: string := "Invalid JSON schema: 'action' field does not exist in $ (root) jobj"
  const ACTION_INVALID: string := "Invalid JSON schema: 'action' field does have a valid value"

  /** `n` zero bytes. */
  function Zeros(n: nat): (z: seq<byte>)
    ensures |z| == n && forall k :: 0 <= k < n ==> z[k] == 0
  {
    seq(n, _ => 0)
  }

  // ------------------------------------------------------------ sso_read

  /** What sso_read leaves: its return value, the bytes it stored from the
   *  start of the buffer, the sizes it asked read(2) for, and the events
   *  still pending. */
  datatype Received = Received(count: int, data: seq<byte>, asks: seq<nat>, rest: seq<ReadEvent>)

  /** sso_read over a `size`-byte buffer whose first |got| bytes are
   *  already filled, after asking read(2) for `asked`: each read asks for
   *  the room that is left, at `buffer + total_bytes`; a read of 0 ends the
   *  loop with the running total, a read of -1 ends it with -1 (and
   *  MEMSET_BUFF). */
  function Receive(events: seq<ReadEvent>, size: nat, got: seq<byte>, asked: seq<nat>): (r: Received)
    requires |got| <= size
    // The total never exceeds the buffer, and the bytes already stored stay
    // at the front.
    ensures r.count == -1 ==> r.data == []
    ensures r.count != -1 ==> r.count == |r.data| && got <= r.data && |r.data| <= size
    // The next read asks for exactly the room left; no read asks for more
    // than that, or for nothing.
    ensures asked <= r.asks
    ensures |got| < size ==> |r.asks| > |asked| && r.asks[|asked|] == size - |got|
    ensures |got| == size ==> r.asks == asked && r.count == size
    ensures forall k :: |asked| <= k < |r.asks| ==> 0 < r.asks[k] <= size - |got|
    decreases size - |got|
  {
    if |got| == size then Received(|got|, got, asked, events)
    else
      var want := size - |got|;
      var step := ReadStep(events, want);
      if step.count == 0 then Received(|got|, got, asked + [want], step.rest)
      else if step.count == -1 then Received(-1, [], asked + [want], step.rest)
      else Receive(step.rest, size, got + step.data, asked + [want])
  }

  /** read(2) storing `data` after the `got` bytes already stored. */
  lemma Stored(got: seq<byte>, data: seq<byte>, original: seq<byte>)
    requires |got| + |data| <= |original|
    ensures Spliced(Spliced(original, 0, got), |got|, data) == Spliced(original, 0, got + data)
  {
    var before := Spliced(original, 0, got);
    assert before[..|got|] == got;
    assert before[|got| + |data|..] == original[|got| + |data|..];
  }

  /** MEMSET_BUFF after a failed read zeroes what was stored, and more. */
  lemma ZeroedOver(got: seq<byte>, original: seq<byte>, size: nat)
    requires |got| <= size <= |original|
    ensures Spliced(Spliced(original, 0, got), 0, Zeros(size)) == Spliced(original, 0, Zeros(size))
  {
  }

  /** Each element smaller than the one before. */
  predicate Shrinking(s: seq<nat>)
  {
    forall k :: 0 < k < |s| ==> s[k] < s[k - 1]
  }

  /** Each read after the first asks for the room left once the bytes of the
   *  earlier reads are stored: the asks shrink strictly, by what each read
   *  delivered. */
  lemma {:induction false} ReceiveAsksShrink(events: seq<ReadEvent>, size: nat, got: seq<byte>, asked: seq<nat>)
    requires |got| <= size
    requires Shrinking(asked) && (asked != [] ==> size - |got| < asked[|asked| - 1])
    ensures Shrinking(Receive(events, size, got, asked).asks)
    decreases size - |got|
  {
    if |got| < size {
      var want := size - |got|;
      var step := ReadStep(events, want);
      var asked' := asked + [want];
      assert Shrinking(asked') by {
        forall k | 0 < k < |asked'| ensures asked'[k] < asked'[k - 1] {
          if k < |asked| {
            assert asked'[k] == asked[k] && asked'[k - 1] == asked[k - 1];
          }
        }
      }
      if step.count != 0 && step.count != -1 {
        ReceiveAsksShrink(step.rest, size, got + step.data, asked');
      }
    }
  }

  /** The buffer after MEMSET_BUFF and sso_read: what was read, then zeros;
   *  all zeros when the read failed. */
  function Filled(r: Received, size: nat): (buffer: seq<byte>)
    requires r.count != -1 ==> |r.data| <= size
    ensures |buffer| == size
  {
    if r.count == -1 then Zeros(size) else r.data + Zeros(size - |r.data|)
  }

  /** The bytes up to the first NUL, which strlen and json-c read; None when
   *  there is no NUL within the buffer. */
  function CString(buffer: seq<byte>): (text: Option<seq<byte>>)
    ensures text.Some? <==> 0 in buffer
    ensures text.Some? ==>
              text.value <= buffer && |text.value| < |buffer| && buffer[|text.value|] == 0
              && 0 !in text.value
  {
    if 0 in buffer then Some(buffer[..Strip.TerminatorIndex(buffer, 0)]) else None
  }

  /** A read that stops short of the buffer's end leaves a terminator right
   *  after the data, so the text is at most the bytes read; a read that
   *  fills the buffer with non-NUL bytes leaves none. */
  lemma Terminated(r: Received, size: nat)
    requires r.count != -1 ==> |r.data| <= size
    ensures r.count != -1 && |r.data| < size ==>
              Filled(r, size)[|r.data|] == 0
              && CString(Filled(r, size)).Some? && |CString(Filled(r, size)).value| <= |r.data|
    ensures r.count != -1 && |r.data| == size ==> (CString(Filled(r, size)).None? <==> 0 !in r.data)
  {
    if r.count != -1 {
      var buffer := Filled(r, size);
      if |r.data| < size {
        assert buffer[|r.data|] == 0;
      } else {
        assert buffer == r.data;
      }
    }
  }

  // ------------------------------------------------------------ one cycle

  /** The texts written for a sequence of responses, one write each. */
  function Texts(rs: seq<Response>): (ts: seq<string>)
    ensures |ts| == |rs| && forall k :: 0 <= k < |rs| ==> ts[k] == Envelope.Envelope(rs[k])
  {
    seq(|rs|, k requires 0 <= k < |rs| => Envelope.Envelope(rs[k]))
  }

  /** The INVALID_JSON_SCHEMA reply for a bad `action`, then `if
   *  (json_object_put(jobj) != 0) WTF(...)`: a non-zero put exits with
   *  gl_nvml_result. */
  function Rejected(description: string, putResult: int, result: NvmlReturn): Outcome
  {
    Outcome([Reply(INVALID_JSON_SCHEMA, description)], [], if putResult != 0 then Exited(result) else Returned)
  }

  /** What process does with the parsed request. */
  function Served(parsed: Option<Document>, env: Env, putResult: int, result: NvmlReturn): Outcome
  {
    match parsed
    case None => Outcome([Reply(JSON_PARSING_FAILED, PARSE_FAILED)], [], Returned)
    case Some(doc) =>
      if "action" !in doc then Rejected(ACTION_MISSING, putResult, result)
      else if doc["action"].text.None? then Rejected(ACTION_INVALID, putResult, result)
      else AssignTask(doc["action"].text.value, doc, env)
  }

  /** The buffer once process has read the request. */
  function BufferAfter(events: seq<ReadEvent>, timeoutSet: bool): (buffer: seq<byte>)
    ensures |buffer| == SO_INPUT_BUFFER_SIZE
  {
    if timeoutSet then Filled(Receive(events, SO_INPUT_BUFFER_SIZE, [], []), SO_INPUT_BUFFER_SIZE)
    else Zeros(SO_INPUT_BUFFER_SIZE)
  }

  /** process as written.  `timeoutSet` is whether setsockopt succeeded,
   *  `parse` stands for json_tokener_parse_verbose, `putResult` for what
   *  json_object_put returns, `result` for gl_nvml_result on entry. */
  function Cycle(events: seq<ReadEvent>, timeoutSet: bool, parse: seq<byte> -> Option<Document>,
                 env: Env, putResult: int, result: NvmlReturn): Outcome
  {
    if !timeoutSet then Outcome([], [], Returned)
    else
      var r := Receive(events, SO_INPUT_BUFFER_SIZE, [], []);
      if r.count < 0 then Outcome([], [], Returned)
      else
        // PRINTLN("%s", so_buffer) and the parser read up to the first NUL;
        // without one they read past the buffer.
        match CString(BufferAfter(events, timeoutSet))
        case None => Outcome([], [], Undefined)
        case Some(text) => Served(parse(text), env, putResult, result)
  }

  /** A failed setsockopt or a failed read ends the cycle silently. */
  lemma CycleSilentFailures(events: seq<ReadEvent>, timeoutSet: bool, parse: seq<byte> -> Option<Document>,
                            env: Env, putResult: int, result: NvmlReturn)
    requires !timeoutSet || Receive(events, SO_INPUT_BUFFER_SIZE, [], []).count < 0
    ensures Cycle(events, timeoutSet, parse, env, putResult, result) == Outcome([], [], Returned)
  {
  }

  /** Once the request is read, process hands the text up to the first NUL
   *  to the parser and serves what it returns; a read that stops short of
   *  the buffer's end always leaves such a NUL. */
  lemma CycleServes(events: seq<ReadEvent>, parse: seq<byte> -> Option<Document>,
                    env: Env, putResult: int, result: NvmlReturn)
    requires Receive(events, SO_INPUT_BUFFER_SIZE, [], []).count >= 0
    ensures var r := Receive(events, SO_INPUT_BUFFER_SIZE, [], []);
            var text := CString(BufferAfter(events, true));
            var o := Cycle(events, true, parse, env, putResult, result);
            (text.Some? ==> text.value <= r.data && o == Served(parse(text.value), env, putResult, result))
            && (text.None? ==> o.halt == Undefined && r.count == SO_INPUT_BUFFER_SIZE)
            && (r.count < SO_INPUT_BUFFER_SIZE ==> BufferAfter(events, true)[r.count] == 0 && text.Some?)
  {
    var r := Receive(events, SO_INPUT_BUFFER_SIZE, [], []);
    Terminated(r, SO_INPUT_BUFFER_SIZE);
    var buffer := BufferAfter(events, true);
    if CString(buffer).Some? {
      var text := CString(buffer).value;
      if |text| <= |r.data| {
        assert text == buffer[..|text|] == r.data[..|text|];
      }
    }
  }

  /** A request that does not parse gets one JSON_PARSING_FAILED reply,
   *  with no data, and nothing is dispatched. */
  lemma ParseFailureReplied(env: Env, putResult: int, result: NvmlReturn)
    ensures Served(None, env, putResult, result) == Outcome([Reply(JSON_PARSING_FAILED, PARSE_FAILED)], [], Returned)
    ensures Served(None, env, putResult, result).written[0].data == None
  {
  }

  /** A request without a string `action` gets one INVALID_JSON_SCHEMA reply
   *  and is not dispatched; then, json_object_put returning non-zero, the
   *  daemon exits with gl_nvml_result. */
  lemma ActionRejected(doc: Document, env: Env, putResult: int, result: NvmlReturn)
    requires "action" !in doc || doc["action"].text.None?
    ensures var o := Served(Some(doc), env, putResult, result);
            |o.written| == 1 && o.written[0].status == Some(INVALID_JSON_SCHEMA) && o.written[0].data == None
            && o.calls == []
            && o.halt == (if putResult != 0 then Exited(result) else Returned)
  {
  }

  /** A request with a string `action` is dispatched. */
  lemma ActionDispatched(doc: Document, env: Env, putResult: int, result: NvmlReturn)
    requires "action" in doc && doc["action"].text.Some?
    ensures Served(Some(doc), env, putResult, result) == AssignTask(doc["action"].text.value, doc, env)
  {
  }

  /** Every cycle writes at most one response. */
  lemma CycleRespondsOnce(events: seq<ReadEvent>, timeoutSet: bool, parse: seq<byte> -> Option<Document>,
                          env: Env, putResult: int, result: NvmlReturn)
    ensures |Cycle(events, timeoutSet, parse, env, putResult, result).written| <= 1
  {
    if timeoutSet && Receive(events, SO_INPUT_BUFFER_SIZE, [], []).count >= 0 {
      var text := CString(BufferAfter(events, true));
      if text.Some? {
        var parsed := parse(text.value);
        if parsed.Some? && "action" in parsed.value && parsed.value["action"].text.Some? {
          var doc := parsed.value;
          assert |AssignTask(doc["action"].text.value, doc, env).written| <= 1;
        }
      }
    }
  }

  /** A peer that fills the whole buffer with non-NUL bytes: nothing
   *  terminates the text that is logged and parsed. */
  lemma FullBufferUndefined(parse: seq<byte> -> Option<Document>, env: Env, putResult: int, result: NvmlReturn)
    ensures var full: seq<byte> := seq(SO_INPUT_BUFFER_SIZE, _ => 'x' as int);
            Cycle([Chunk(full)], true, parse, env, putResult, result).halt == Undefined
  {
    var full: seq<byte> := seq(SO_INPUT_BUFFER_SIZE, _ => 'x' as int);
    var r := Receive([Chunk(full)], SO_INPUT_BUFFER_SIZE, [], []);
    assert ReadStep([Chunk(full)], SO_INPUT_BUFFER_SIZE).data == full;
    assert r.data == full;
    Terminated(r, SO_INPUT_BUFFER_SIZE);
    assert 0 !in full by {
      forall k | 0 <= k < |full| ensures full[k] != 0 { }
    }
  }

  // ------------------------------------------------ the cycle as meant

  /** What process does with the parsed request, as evidently intended: the
   *  value of json_object_put is not taken for a failure, and the request
   *  is dispatched as intended. */
  function ServedIntended(parsed: Option<Document>, env: Env): (o: Outcome)
    ensures o.halt != Undefined && |o.written| <= 1
  {
    match parsed
    case None => Outcome([Reply(JSON_PARSING_FAILED, PARSE_FAILED)], [], Returned)
    case Some(doc) =>
      if "action" !in doc then Outcome([Reply(INVALID_JSON_SCHEMA, ACTION_MISSING)], [], Returned)
      else if doc["action"].text.None? then Outcome([Reply(INVALID_JSON_SCHEMA, ACTION_INVALID)], [], Returned)
      else AssignTaskIntended(doc["action"].text.value, doc, env)
  }

  /** process as evidently intended: sso_read is given one byte less than
   *  the buffer, so a terminator always follows the request. */
  function CycleIntended(events: seq<ReadEvent>, timeoutSet: bool, parse: seq<byte> -> Option<Document>,
                         env: Env): (o: Outcome)
    // No request leads to undefined behaviour, and none gets more than one
    // response.
    ensures o.halt != Undefined && |o.written| <= 1
  {
    if !timeoutSet then Outcome([], [], Returned)
    else
      var r := Receive(events, SO_INPUT_BUFFER_SIZE - 1, [], []);
      if r.count < 0 then Outcome([], [], Returned)
      else
        var buffer := Filled(r, SO_INPUT_BUFFER_SIZE);
        Terminated(r, SO_INPUT_BUFFER_SIZE);
        ServedIntended(parse(CString(buffer).value), env)
  }

  /** json_object_put returns 1 when it frees the request, as it does here:
   *  as written, a request without a string `action` makes the daemon exit
   *  after its reply; as intended, the cycle returns. */
  lemma RejectedActionExits(doc: Document, env: Env, result: NvmlReturn)
    requires "action" !in doc || doc["action"].text.None?
    ensures Served(Some(doc), env, 1, result).halt == Exited(result)
    ensures ServedIntended(Some(doc), env).halt == Returned
    ensures Served(Some(doc), env, 1, result).written == ServedIntended(Some(doc), env).written
  {
  }

  /** The global state process works on. */
  class Daemon {
    /** so_buffer: NULL until the first request, then SO_INPUT_BUFFER_SIZE
     *  bytes for the rest of the run. */
    var soBuffer: array?<byte>
    /** gl_nvml_result */
    var nvmlResult: NvmlReturn

    predicate Valid()
      reads this
    {
      soBuffer != null ==> soBuffer.Length == SO_INPUT_BUFFER_SIZE
    }

    /** The state right after NVML was initialised with `result`. */
    constructor (result: NvmlReturn)
      ensures Valid() && soBuffer == null && nvmlResult == result
    {
      soBuffer := null;
      nvmlResult := result;
    }

    /** MEMSET_BUFF(buff, len): zeroes the first `len` bytes of so_buffer,
     *  whatever buffer it is handed. */
    method MemsetBuff(buff: array<byte>, len: nat)
      requires soBuffer != null && len <= soBuffer.Length
      modifies soBuffer
      ensures soBuffer[..] == Spliced(old(soBuffer[..]), 0, Zeros(len))
      ensures buff != soBuffer ==> buff[..] == old(buff[..])
    {
      forall k | 0 <= k < len {
        soBuffer[k] := 0;
      }
      assert soBuffer[..] == Zeros(len) + old(soBuffer[..])[len..];
    }

    /** sso_read(client_fd, so_buffer, size). */
    method SsoRead(client: Client, size: nat) returns (total: int)
      requires soBuffer != null && size <= soBuffer.Length
      modifies client, soBuffer
      ensures var r := Receive(old(client.pending), size, [], []);
              total == r.count && client.pending == r.rest
              && client.requested == old(client.requested) + r.asks && client.sent == old(client.sent)
      ensures total >= 0 ==> soBuffer[..] == Spliced(old(soBuffer[..]), 0, Receive(old(client.pending), size, [], []).data)
      ensures total == -1 ==> soBuffer[..] == Spliced(old(soBuffer[..]), 0, Zeros(size))
    {
      total := 0;
      ghost var original := soBuffer[..];
      ghost var got: seq<byte> := [];
      ghost var asked: seq<nat> := [];
      ghost var whole := Receive(client.pending, size, [], []);
      while total < size
        invariant 0 <= total <= size && total == |got|
        invariant soBuffer[..] == Spliced(original, 0, got)
        invariant client.requested == old(client.requested) + asked && client.sent == old(client.sent)
        invariant whole == Receive(client.pending, size, got, asked)
        decreases size - total
      {
        var want := size - total;
        ghost var step := ReadStep(client.pending, want);
        ghost var before := soBuffer[..];
        var count := client.Read(soBuffer, total, want);
        asked := asked + [want];
        if count == 0 || count == -1 {
          SplicedNothing(before, total);
        }
        if count == 0 {
          break;
        }
        if count == -1 {
          MemsetBuff(soBuffer, size);
          ZeroedOver(got, original, size);
          total := -1;
          break;
        }
        Stored(got, step.data, original);
        got := got + step.data;
        total := total + count;
      }
    }

    /** process(client_fd, tv_timeout). */
    method Process(client: Client, timeoutSet: bool, parse: seq<byte> -> Option<Document>, env: Env, putResult: int)
      returns (halt: Halt)
      requires Valid()
      modifies this, soBuffer, client
      ensures Valid() && soBuffer != null
      // so_buffer is allocated by the first cycle and kept by every later one.
      ensures old(soBuffer) != null ==> soBuffer == old(soBuffer)
      ensures old(soBuffer) == null ==> fresh(soBuffer)
      ensures soBuffer[..] == BufferAfter(old(client.pending), timeoutSet)
      // Without the timeout nothing is read; otherwise the reads are sso_read's.
      ensures !timeoutSet ==> client.pending == old(client.pending) && client.requested == old(client.requested)
      ensures timeoutSet ==>
                var r := Receive(old(client.pending), SO_INPUT_BUFFER_SIZE, [], []);
                client.pending == r.rest && client.requested == old(client.requested) + r.asks
      ensures var c := Cycle(old(client.pending), timeoutSet, parse, env, putResult, old(nvmlResult));
              halt == c.halt && client.sent == old(client.sent) + Texts(c.written)
              && nvmlResult == ResultAfter(old(nvmlResult), c.calls)
    {
      if soBuffer == null {
        soBuffer := new byte[SO_INPUT_BUFFER_SIZE];
      }
      MemsetBuff(soBuffer, SO_INPUT_BUFFER_SIZE);
      if !timeoutSet {
        return Returned;
      }
      var received := SsoRead(client, SO_INPUT_BUFFER_SIZE);
      if received < 0 {
        return Returned;
      }
      var text := CString(soBuffer[..]);
      if text.None? {
        return Undefined;
      }
      halt := Serve(client, parse(text.value), env, putResult);
    }

    /** The rest of process, once the request has been parsed (or not). */
    method Serve(client: Client, parsed: Option<Document>, env: Env, putResult: int) returns (halt: Halt)
      modifies this`nvmlResult, client
      ensures var o := Served(parsed, env, putResult, old(nvmlResult));
              halt == o.halt && client.sent == old(client.sent) + Texts(o.written)
              && nvmlResult == ResultAfter(old(nvmlResult), o.calls)
      ensures client.pending == old(client.pending) && client.requested == old(client.requested)
    {
      if parsed.None? {
        Respond(client, Reply(JSON_PARSING_FAILED, PARSE_FAILED));
        return Returned;
      }
      var doc := parsed.value;
      if "action" !in doc || doc["action"].text.None? {
        ActionRejected(doc, env, putResult, nvmlResult);
        var description := if "action" !in doc then ACTION_MISSING else ACTION_INVALID;
        Respond(client, Reply(INVALID_JSON_SCHEMA, description));
        if putResult != 0 {
          return Exited(nvmlResult);
        }
        return Returned;
      }
      var o := AssignTask(doc["action"].text.value, doc, env);
      ActionDispatched(doc, env, putResult, nvmlResult);
      if o.written != [] {
        Respond(client, o.written[0]);
        assert Texts(o.written) == [Envelope.Envelope(o.written[0])];
      }
      nvmlResult := ResultAfter(nvmlResult, o.calls);
      halt := o.halt;
    }
  }
}
