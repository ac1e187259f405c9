/** The two request handlers that do work (src/network.c):
 *  nvmlDeviceGetThermalSettings_handler, an early-return chain of field
 *  checks and NVML calls, and nvmlDeviceGetDetailsAll_handler, a loop over
 *  the devices that skips and counts the ones whose queries fail.
 *
 *  NVML is an oracle: a probe record holds the status each call would
 *  return and the values it would fill in.  The text the thermal handler
 *  formats from the settings is opaque (`body`); the device entries of
 *  DetailsAll are formatted in full, because their shape is what goes wrong.
 */
module Handlers {
  import opened Options
  import opened Status
  import opened Envelope
  import opened Json
  import opened Outcomes

  // ------------------------------------------------------------ thermal

  const UUID_MISSING: string := "Invalid JSON schema: 'uuid' field does not exist in $ (root) jobj"
  const UUID_INVALID: string := "Invalid JSON schema: 'uuid' field does have a valid value"
  const SENSOR_MISSING: string := "Invalid JSON schema: 'sensorIndex' field does not exist in $ (root) jobj"
  const SENSOR_INVALID: string := "Invalid JSON schema: 'sensorIndex' field does have a valid value"

  /** What NVML answers to the thermal handler: the status of
   *  nvmlDeviceGetHandleByUUID, the status of nvmlDeviceGetThermalSettings,
   *  and the data text formatted from the settings it fills in. */
  datatype ThermalProbe = ThermalProbe(handleStatus: NvmlReturn, settingsStatus: NvmlReturn, body: string)

  /** The request passes the handler's four field checks.  `errnoEinval`
   *  is whether errno holds EINVAL after json_object_get_int. */
  predicate ThermalFieldsValid(doc: Document, errnoEinval: bool)
  {
    "uuid" in doc && doc["uuid"].text.Some? && "sensorIndex" in doc
    && !(errnoEinval && ToUint32(doc["sensorIndex"].asInt) == 0)
  }

  /** nvmlDeviceGetThermalSettings_handler (network.c:215-309). */
  function Thermal(doc: Document, errnoEinval: bool, probe: ThermalProbe): (o: Outcome)
    // The four field checks come first; failing one writes a single
    // INVALID_JSON_SCHEMA reply and calls nothing.
    ensures o.calls == [] <==> !ThermalFieldsValid(doc, errnoEinval)
    ensures o.calls == [] ==>
              o.halt == Returned && |o.written| == 1
              && o.written[0].status == Some(INVALID_JSON_SCHEMA) && o.written[0].data == None
    // Then the device is resolved by the requested UUID, and only on success
    // are the settings of the requested sensor read.
    ensures |o.calls| <= 2
    ensures o.calls != [] ==> o.calls[0] == Called(GetHandleByUuid(doc["uuid"].text.value), probe.handleStatus)
    ensures |o.calls| == 2 ==>
              IsOk(probe.handleStatus)
              && o.calls[1] == Called(GetThermalSettings(ToUint32(doc["sensorIndex"].asInt)), probe.settingsStatus)
    // Exactly one response, or an exit with the fatal status of the last call.
    ensures o.halt != Undefined
    ensures o.halt.Returned? <==> |o.written| == 1
    ensures o.halt.Exited? ==> o.written == []
    ensures o.halt.Exited? ==>
              o.calls != [] && o.halt.code == o.calls[|o.calls| - 1].status && IsFatal(o.halt.code)
              && (|o.calls| == 1 ==> o.halt.code != NVML_ERROR_NOT_FOUND)
              && (|o.calls| == 2 ==> o.halt.code != NVML_ERROR_UNKNOWN)
    // After a call, the reply carries that call's status name, and data
    // exactly when the settings were read successfully.
    ensures o.calls != [] && o.halt.Returned? ==>
              o.written[0].status == Some(ReturnName(o.calls[|o.calls| - 1].status))
    ensures o.halt.Returned? ==>
              (o.written[0].data.Some? <==> |o.calls| == 2 && IsOk(o.calls[1].status))
    ensures o.halt.Returned? && o.written[0].data.Some? ==> o.written[0].data == Some(probe.body)
  {
    if "uuid" !in doc then Outcome([Reply(INVALID_JSON_SCHEMA, UUID_MISSING)], [], Returned)
    else if doc["uuid"].text.None? then Outcome([Reply(INVALID_JSON_SCHEMA, UUID_INVALID)], [], Returned)
    else if "sensorIndex" !in doc then Outcome([Reply(INVALID_JSON_SCHEMA, SENSOR_MISSING)], [], Returned)
    else
      var sensorIndex := ToUint32(doc["sensorIndex"].asInt);
      if errnoEinval && sensorIndex == 0 then
        Outcome([Reply(INVALID_JSON_SCHEMA, SENSOR_INVALID)], [], Returned)
      else
        var h := probe.handleStatus;
        var c0 := Called(GetHandleByUuid(doc["uuid"].text.value), h);
        if IsError(h) || h == NVML_ERROR_NOT_FOUND then
          Outcome([Reply(ReturnName(h), "Couldn't resolve UUID")], [c0], Returned)
        else if IsFatal(h) then Outcome([], [c0], Exited(h))
        else
          var s := probe.settingsStatus;
          var c1 := Called(GetThermalSettings(sensorIndex), s);
          if IsError(s) || s == NVML_ERROR_UNKNOWN then
            Outcome([Reply(ReturnName(s), "Couldn't match sensor")], [c0, c1], Returned)
          else if IsFatal(s) then Outcome([], [c0, c1], Exited(s))
          else
            Outcome([Response(Some(probe.body), Some(ReturnName(s)), Some("Successfully retrieved data!"))],
                    [c0, c1], Returned)
  }

  // ------------------------------------------------------------ details

  /** What NVML answers about device `i`: the status of each of the five
   *  queries (for the two string queries, the status NVML reports when the
   *  length it is given suffices) and the values they fill in. */
  datatype DeviceProbe = DeviceProbe(
    handleStatus: NvmlReturn,
    uuidStatus: NvmlReturn, uuid: string,
    nameStatus: NvmlReturn, name: string,
    versionStatus: NvmlReturn, version: string,
    modeStatus: NvmlReturn, mode: nat, defaultMode: nat)

  /** The status of nvmlDeviceGetCount_v2, the count it fills in, and the
   *  answers for each device index. */
  datatype DetailsProbe = DetailsProbe(countStatus: NvmlReturn, count: nat, device: nat -> DeviceProbe)

  /** The stack arrays `uuid` and `name` hold 128 bytes ... */
  const STRING_BUFFER_BYTES: nat := 128
  /** ... but the length the handler tells NVML they have is 256. */
  const STRING_LENGTH_PASSED: nat := 256

  /** A string query into a `capacity`-byte array with `length` passed as
   *  its size: NVML refuses with INSUFFICIENT_SIZE when the value and its
   *  terminator exceed `length`, and otherwise writes them, past the end
   *  of the array when they exceed `capacity`. */
  datatype CopyOut = CopyOut(status: NvmlReturn, overflow: bool)

  function StringQuery(capacity: nat, length: nat, reported: NvmlReturn, value: string): (c: CopyOut)
    ensures c.overflow <==> IsOk(reported) && capacity < |value| + 1 <= length
    ensures !c.overflow ==> (IsOk(c.status) <==> IsOk(reported) && |value| + 1 <= length)
  {
    if IsOk(reported) && |value| + 1 > length then CopyOut(NVML_ERROR_INSUFFICIENT_SIZE, false)
    else if IsOk(reported) && |value| + 1 > capacity then CopyOut(reported, true)
    else CopyOut(reported, false)
  }

  /** Passing the array's own size never writes past it. */
  lemma StringQueryInBounds(capacity: nat, reported: NvmlReturn, value: string)
    ensures !StringQuery(capacity, capacity, reported, value).overflow
  {
  }

  /** As written, a 200-character UUID reported successfully is written
   *  past the end of the 128-byte array. */
  lemma StringQueryOverflows()
    ensures StringQuery(STRING_BUFFER_BYTES, STRING_LENGTH_PASSED, NVML_SUCCESS, seq(200, _ => 'x')).overflow
  {
  }

  /** The decimal digits of `n`, as %d prints a non-negative int. */
  function Decimal(n: nat): (s: string)
    ensures |s| >= 1 && forall i :: 0 <= i < |s| ==> '0' <= s[i] <= '9'
  {
    if n < 10 then ["0123456789"[n]] else Decimal(n / 10) + ["0123456789"[n % 10]]
  }

  /** The strings appended one after another, as strcat does. */
  function Concat(parts: seq<string>): string
  {
    if parts == [] then "" else Concat(parts[..|parts| - 1]) + parts[|parts| - 1]
  }

  /** The text sprintf'd into `device_buff` for one device (network.c:183-197):
   *  a comma, then the device's object. */
  function DeviceEntry(d: DeviceProbe): string
  {
    "," + DeviceObject(d)
  }

  /** The device's object, as its pieces. */
  function DeviceObject(d: DeviceProbe): string
  {
    Concat(["{\"uuid\":\"", d.uuid, "\",\"name\":\"", d.name, "\",\"gsp_version\":\"", d.version,
            "\",\"gsp_mode\":", Decimal(d.mode), ",\"gsp_default-mode\":", Decimal(d.defaultMode), "}"])
  }


  /** How the five queries about one device end. */
  datatype DeviceResult =
    | Entry(calls: seq<Called>, text: string)
    | Skipped(calls: seq<Called>)
    | Aborted(calls: seq<Called>, code: NvmlReturn)
    | Overflowed(calls: seq<Called>)

  /** The last call failed: skip the device on a recoverable status, abort
   *  on a fatal one. */
  function Stop(calls: seq<Called>): DeviceResult
    requires calls != []
  {
    var s := calls[|calls| - 1].status;
    if IsError(s) then Skipped(calls) else Aborted(calls, s)
  }

  /** One query of the device loop: the call with the status it returned,
   *  and whether it wrote past the array it filled. */
  datatype Query = Query(call: Called, overflow: bool)

  /** Query `k` (0 to 4) about device `i`, in the order the loop makes
   *  them, with `length` the size passed for the UUID and name arrays. */
  function QueryAt(i: nat, d: DeviceProbe, length: nat, k: nat): Query
    requires k < 5
  {
    if k == 0 then Query(Called(GetHandleByIndex(i), d.handleStatus), false)
    else if k == 1 then
      var u := StringQuery(STRING_BUFFER_BYTES, length, d.uuidStatus, d.uuid);
      Query(Called(GetUuid(i), u.status), u.overflow)
    else if k == 2 then
      var n := StringQuery(STRING_BUFFER_BYTES, length, d.nameStatus, d.name);
      Query(Called(GetName(i), n.status), n.overflow)
    else if k == 3 then Query(Called(GetGspFirmwareVersion(i), d.versionStatus), false)
    else Query(Called(GetGspFirmwareMode(i), d.modeStatus), false)
  }

  /** The five queries about device `i`. */
  function DeviceQueries(i: nat, d: DeviceProbe, length: nat): seq<Query>
  {
    seq(5, k requires 0 <= k < 5 => QueryAt(i, d, length, k))
  }

  /** The calls of a list of queries. */
  function CallsOf(queries: seq<Query>): seq<Called>
  {
    seq(|queries|, j requires 0 <= j < |queries| => queries[j].call)
  }

  /** Makes queries k .. 4 about device `i` after the calls `made`,
   *  stopping at the first one that overflows or does not succeed, and
   *  yields the device's entry when all succeed. */
  function Walk(i: nat, d: DeviceProbe, length: nat, k: nat, made: seq<Called>): DeviceResult
    requires k <= 5
    decreases 5 - k
  {
    if k == 5 then Entry(made, DeviceEntry(d))
    else
      var q := QueryAt(i, d, length, k);
      var now := made + [q.call];
      if q.overflow then Overflowed(now)
      else if !IsOk(q.call.status) then Stop(now)
      else Walk(i, d, length, k + 1, now)
  }

  /** The walk makes a prefix of the remaining queries, each but the last
   *  successful. */
  lemma {:induction false} WalkPrefix(i: nat, d: DeviceProbe, length: nat, k: nat, made: seq<Called>)
    requires k <= 5
    ensures var r := Walk(i, d, length, k, made);
            var queries := DeviceQueries(i, d, length)[k..];
            |made| <= |r.calls| <= |made| + |queries|
            && r.calls == made + CallsOf(queries)[..|r.calls| - |made|]
            && (queries != [] ==> |r.calls| > |made|)
            && (forall j :: |made| <= j < |r.calls| - 1 ==> IsOk(r.calls[j].status))
    decreases 5 - k
  {
    if k < 5 {
      var queries := DeviceQueries(i, d, length)[k..];
      var q := QueryAt(i, d, length, k);
      assert queries == [q] + DeviceQueries(i, d, length)[k + 1..];
      assert CallsOf(queries) == [q.call] + CallsOf(queries[1..]);
      if !q.overflow && IsOk(q.call.status) {
        WalkPrefix(i, d, length, k + 1, made + [q.call]);
      }
    }
  }

  /** The walk ends in the entry only after all remaining queries succeed. */
  lemma {:induction false} WalkEntry(i: nat, d: DeviceProbe, length: nat, k: nat, made: seq<Called>)
    requires k <= 5
    ensures var r := Walk(i, d, length, k, made);
            r.Entry? ==> |r.calls| == |made| + 5 - k && r.text == DeviceEntry(d)
                         && (k < 5 ==> IsOk(r.calls[|r.calls| - 1].status))
    decreases 5 - k
  {
    if k < 5 {
      var q := QueryAt(i, d, length, k);
      if !q.overflow && IsOk(q.call.status) {
        WalkEntry(i, d, length, k + 1, made + [q.call]);
      }
    }
  }

  /** A failed query skips the device on a recoverable status and aborts
   *  with the status on a fatal one. */
  lemma {:induction false} WalkFails(i: nat, d: DeviceProbe, length: nat, k: nat, made: seq<Called>)
    requires k <= 5
    ensures var r := Walk(i, d, length, k, made);
            (r.Skipped? ==> |r.calls| > |made| && IsError(r.calls[|r.calls| - 1].status))
            && (r.Aborted? ==> |r.calls| > |made| && r.code == r.calls[|r.calls| - 1].status && IsFatal(r.code))
    decreases 5 - k
  {
    if k < 5 {
      var q := QueryAt(i, d, length, k);
      var now := made + [q.call];
      if q.overflow {
      } else if !IsOk(q.call.status) {
        assert Walk(i, d, length, k, made) == Stop(now);
        assert now[|now| - 1] == q.call;
      } else {
        WalkFails(i, d, length, k + 1, now);
      }
    }
  }

  /** Only the UUID and name queries (the second and third) can overflow. */
  lemma {:induction false} WalkOverflows(i: nat, d: DeviceProbe, length: nat, k: nat, made: seq<Called>)
    requires k <= 5
    ensures var r := Walk(i, d, length, k, made);
            r.Overflowed? ==> k < |r.calls| - |made| + k <= 3 && |r.calls| - |made| + k >= 2
    decreases 5 - k
  {
    if k < 5 {
      var q := QueryAt(i, d, length, k);
      if !q.overflow && IsOk(q.call.status) {
        WalkOverflows(i, d, length, k + 1, made + [q.call]);
      }
    }
  }

  /** The body of the device loop (network.c:137-199) for device `i`: the
   *  five queries, each failure either skipping the device (recoverable
   *  status) or ending the process (fatal status). */
  function QueryDevice(i: nat, d: DeviceProbe, length: nat): DeviceResult
  {
    Walk(i, d, length, 0, [])
  }

  /** The device's queries are made in order, each only after the one
   *  before it succeeded; a recoverable failure skips the device, a fatal
   *  one ends the process, and after five successes its entry is
   *  appended. */
  lemma QueryDeviceOrder(i: nat, d: DeviceProbe, length: nat)
    ensures var r := QueryDevice(i, d, length);
            1 <= |r.calls| <= 5
            && r.calls == CallsOf(DeviceQueries(i, d, length))[..|r.calls|]
            && (forall j :: 0 <= j < |r.calls| - 1 ==> IsOk(r.calls[j].status))
  {
    WalkPrefix(i, d, length, 0, []);
    assert DeviceQueries(i, d, length)[0..] == DeviceQueries(i, d, length);
  }

  /** How the device's queries end: after five successes its entry is
   *  appended; a recoverable failure skips it; a fatal one ends the
   *  process; only the UUID or name query can overflow. */
  lemma QueryDeviceEnds(i: nat, d: DeviceProbe, length: nat)
    ensures var r := QueryDevice(i, d, length);
            r.calls != []
            && (r.Entry? ==> |r.calls| == 5 && IsOk(r.calls[4].status) && r.text == DeviceEntry(d))
            && (r.Skipped? ==> IsError(r.calls[|r.calls| - 1].status))
            && (r.Aborted? ==> r.code == r.calls[|r.calls| - 1].status && IsFatal(r.code))
            && (r.Overflowed? ==> 2 <= |r.calls| <= 3)
  {
    WalkEntry(i, d, length, 0, []);
    WalkFails(i, d, length, 0, []);
    WalkOverflows(i, d, length, 0, []);
  }

  /** The state of the device loop: the entries appended, failure_count,
   *  the calls made, and how it stopped early if it did. */
  datatype Tally = Tally(entries: seq<string>, failures: nat, calls: seq<Called>, stopped: Option<Halt>)

  /** One more device through the loop, unless it has stopped already. */
  function Advance(t: Tally, r: DeviceResult): Tally
  {
    if t.stopped.Some? then t
    else match r
      case Entry(cs, text) => Tally(t.entries + [text], t.failures, t.calls + cs, None)
      case Skipped(cs) => Tally(t.entries, t.failures + 1, t.calls + cs, None)
      case Aborted(cs, code) => Tally(t.entries, t.failures, t.calls + cs, Some(Exited(code)))
      case Overflowed(cs) => Tally(t.entries, t.failures, t.calls + cs, Some(Undefined))
  }

  /** The loop over a list of device results, in order. */
  function Fold(rs: seq<DeviceResult>): Tally
  {
    if rs == [] then Tally([], 0, [], None)
    else Advance(Fold(rs[..|rs| - 1]), rs[|rs| - 1])
  }

  /** What the queries about devices 0 .. n-1 yield. */
  function Results(p: DetailsProbe, length: nat, n: nat): (rs: seq<DeviceResult>)
    ensures |rs| == n
  {
    seq(n, i requires 0 <= i < n => QueryDevice(i, p.device(i), length))
  }

  /** The loop after devices 0 .. n-1, stopping at the first device whose
   *  query is fatal or overflows. */
  function Survey(p: DetailsProbe, length: nat, n: nat): Tally
  {
    Fold(Results(p, length, n))
  }

  /** One more device: the survey of n+1 devices advances that of n by the
   *  result of device n. */
  lemma SurveyStep(p: DetailsProbe, length: nat, n: nat)
    ensures Survey(p, length, n + 1) == Advance(Survey(p, length, n), QueryDevice(n, p.device(n), length))
  {
    assert Results(p, length, n + 1)[..n] == Results(p, length, n);
  }

  /** Every device the loop gets through is either appended or counted as a
   *  failure: entries plus failure_count is the number of devices. */
  lemma {:induction false} FoldAccounts(rs: seq<DeviceResult>)
    ensures Fold(rs).stopped.None? ==> |Fold(rs).entries| + Fold(rs).failures == |rs|
  {
    if rs != [] {
      FoldAccounts(rs[..|rs| - 1]);
    }
  }

  lemma SurveyAccounts(p: DetailsProbe, length: nat, n: nat)
    ensures var t := Survey(p, length, n);
            t.stopped.None? ==> |t.entries| + t.failures == n
  {
    FoldAccounts(Results(p, length, n));
  }

  /** A device result as QueryDeviceEnds describes it: at least one call,
   *  and an abort carries the fatal status of the last one. */
  predicate WellEnded(r: DeviceResult)
  {
    r.calls != [] && (r.Aborted? ==> r.code == r.calls[|r.calls| - 1].status && IsFatal(r.code))
  }

  /** A loop over well-ended results stops early only by exiting with the
   *  fatal status of the last call made, or by an overflow. */
  lemma {:induction false} FoldStops(rs: seq<DeviceResult>)
    requires forall j :: 0 <= j < |rs| ==> WellEnded(rs[j])
    ensures var t := Fold(rs);
            t.stopped.Some? ==>
              (t.calls != [] && t.stopped != Some(Returned)
               && (t.stopped.value.Exited? ==>
                     IsFatal(t.stopped.value.code) && t.stopped.value.code == t.calls[|t.calls| - 1].status))
  {
    if rs != [] {
      var t := Fold(rs[..|rs| - 1]);
      FoldStops(rs[..|rs| - 1]);
      if t.stopped.None? {
        var r := rs[|rs| - 1];
        assert (t.calls + r.calls)[|t.calls + r.calls| - 1] == r.calls[|r.calls| - 1];
      }
    }
  }

  /** The device loop stops early only by exiting with the fatal status of
   *  the last call made, or by an overflow. */
  lemma SurveyStops(p: DetailsProbe, length: nat, n: nat)
    ensures var t := Survey(p, length, n);
            t.stopped.Some? ==>
              (t.calls != [] && t.stopped != Some(Returned)
               && (t.stopped.value.Exited? ==>
                     IsFatal(t.stopped.value.code) && t.stopped.value.code == t.calls[|t.calls| - 1].status))
  {
    var rs := Results(p, length, n);
    forall j | 0 <= j < n ensures WellEnded(rs[j]) {
      QueryDeviceEnds(j, p.device(j), length);
    }
    FoldStops(rs);
  }

  /** Once the loop has stopped, later results change nothing. */
  lemma {:induction false} FoldStopped(rs: seq<DeviceResult>, n: nat)
    requires n <= |rs| && Fold(rs[..n]).stopped.Some?
    ensures Fold(rs) == Fold(rs[..n])
  {
    if n < |rs| {
      assert rs[..|rs| - 1][..n] == rs[..n];
      FoldStopped(rs[..|rs| - 1], n);
    } else {
      assert rs[..n] == rs;
    }
  }

  /** Once the device loop has stopped, later devices change nothing. */
  lemma SurveyStopped(p: DetailsProbe, length: nat, n: nat, m: nat)
    requires n <= m && Survey(p, length, n).stopped.Some?
    ensures Survey(p, length, m) == Survey(p, length, n)
  {
    assert Results(p, length, m)[..n] == Results(p, length, n);
    FoldStopped(Results(p, length, m), n);
  }

  /** "{"count": N, "data": [" (network.c:134). */
  function DetailsHeader(count: nat): string
  {
    "{\"count\": " + Decimal(count) + ", \"data\": ["
  }



  /** `buffer[len] = "]}"` stores one byte taken from the literal's address
   *  (`closeByte`) over the terminator; the next byte is still zero from
   *  calloc, so strlen stops right after it, or at it when it is zero. */
  function ClosedAsWritten(text: string, closeByte: char): string
  {
    if closeByte == '\0' then text else text + [closeByte]
  }

  lemma ConcatSnoc(parts: seq<string>, s: string)
    ensures Concat(parts + [s]) == Concat(parts) + s
  {
    assert (parts + [s])[..|parts|] == parts;
  }

  const DETAILS_COUNT_FAILED: string := "Couldn't get count of devices"
  const DETAILS_PARTIAL: string := "Failed to get details for some GPUs."
  const DETAILS_COMPLETE: string := "Successfully successfully generated device list."

  /** What the handler does once the count is known, given how the loop
   *  ended and the data text it built. */
  function DetailsEnd(countCall: Called, t: Tally, data: string): Outcome
  {
    if t.stopped.Some? then Outcome([], [countCall] + t.calls, t.stopped.value)
    else
      var status := if t.failures > 0 then NVML_ERROR_UNKNOWN else NVML_SUCCESS;
      var desc := if t.failures > 0 then DETAILS_PARTIAL else DETAILS_COMPLETE;
      Outcome([Response(Some(data), Some(ReturnName(status)), Some(desc))], [countCall] + t.calls, Returned)
  }

  /** nvmlDeviceGetDetailsAll_handler as written (network.c:122-213). */
  function DetailsAllSpec(p: DetailsProbe, closeByte: char): Outcome
  {
    var c := Called(GetCount, p.countStatus);
    if IsError(p.countStatus) then Outcome([Reply(ReturnName(p.countStatus), DETAILS_COUNT_FAILED)], [c], Returned)
    else if IsFatal(p.countStatus) then Outcome([], [c], Exited(p.countStatus))
    else
      var t := Survey(p, STRING_LENGTH_PASSED, p.count);
      DetailsEnd(c, t, ClosedAsWritten(DetailsHeader(p.count) + Concat(t.entries), closeByte))
  }

  /** The device loop (network.c:136-200). */
  method SurveyDevices(p: DetailsProbe, length: nat) returns (entries: string, failureCount: nat, calls: seq<Called>, stopped: Option<Halt>)
    ensures var t := Survey(p, length, p.count);
            stopped == t.stopped && calls == t.calls && failureCount == t.failures
            && entries == Concat(t.entries)
  {
    entries := "";
    failureCount := 0;
    calls := [];
    ghost var t := Tally([], 0, [], None);
    var i := 0;
    while i < p.count
      invariant i <= p.count
      invariant t == Survey(p, length, i) && t.stopped.None?
      invariant failureCount == t.failures && calls == t.calls
      invariant entries == Concat(t.entries)
    {
      var r := QueryDevice(i, p.device(i), length);
      SurveyStep(p, length, i);
      ghost var before := t;
      t := Advance(t, r);
      calls := calls + r.calls;
      match r {
        case Entry(_, text) =>
          ConcatSnoc(before.entries, text);
          entries := entries + text;
        case Skipped(_) =>
          failureCount := failureCount + 1;
        case Aborted(_, code) =>
          SurveyStopped(p, length, i + 1, p.count);
          return entries, failureCount, calls, Some(Exited(code));
        case Overflowed(_) =>
          SurveyStopped(p, length, i + 1, p.count);
          return entries, failureCount, calls, Some(Undefined);
      }
      i := i + 1;
    }
    stopped := None;
  }

  method DetailsAll(p: DetailsProbe, closeByte: char) returns (o: Outcome)
    ensures o == DetailsAllSpec(p, closeByte)
  {
    var countCall := Called(GetCount, p.countStatus);
    if IsError(p.countStatus) {
      return Outcome([Reply(ReturnName(p.countStatus), DETAILS_COUNT_FAILED)], [countCall], Returned);
    }
    if IsFatal(p.countStatus) {
      return Outcome([], [countCall], Exited(p.countStatus));
    }
    var entries, failureCount, calls, stopped := SurveyDevices(p, STRING_LENGTH_PASSED);
    if stopped.Some? {
      return Outcome([], [countCall] + calls, stopped.value);
    }
    var buffer := DetailsHeader(p.count) + entries;
    // buffer[len] = "]}"
    if closeByte != '\0' {
      buffer := buffer + [closeByte];
    }
    var status := if failureCount > 0 then NVML_ERROR_UNKNOWN else NVML_SUCCESS;
    var desc := if failureCount > 0 then DETAILS_PARTIAL else DETAILS_COMPLETE;
    o := Outcome([Response(Some(buffer), Some(ReturnName(status)), Some(desc))], [countCall] + calls, Returned);
  }

  /** The thermal handler answers with INVALID_JSON_SCHEMA or with the name
   *  of an NVML status, never with one of the other protocol statuses. */
  lemma ThermalStatusNames(doc: Document, errnoEinval: bool, probe: ThermalProbe)
    ensures var o := Thermal(doc, errnoEinval, probe);
            o.halt.Returned? ==>
              o.written[0].status != Some(UNDEFINED_INVALID_ACTION)
              && o.written[0].status != Some(JSON_PARSING_FAILED)
              && o.written[0].status != Some(AUTHORIZATION_FAILED)
  {
    var o := Thermal(doc, errnoEinval, probe);
    ProtocolStatusesDistinct();
    if o.calls != [] && o.halt.Returned? {
      var name := ReturnName(o.calls[|o.calls| - 1].status);
      ReturnNameIsNvml(o.calls[|o.calls| - 1].status);
      assert name[0] == 'N';
    }
  }

  /** How the handler ends: a recoverable count failure is reported and a
   *  fatal one exits; otherwise, unless a device stopped the loop, it sends
   *  one reply whose status is NVML_ERROR_UNKNOWN exactly when a device was
   *  skipped, every device being either listed or counted as a failure. */
  lemma DetailsAllOutcome(p: DetailsProbe, closeByte: char)
    ensures var o := DetailsAllSpec(p, closeByte);
            var t := Survey(p, STRING_LENGTH_PASSED, p.count);
            o.calls != [] && o.calls[0] == Called(GetCount, p.countStatus)
            && (IsError(p.countStatus) ==>
                  o.halt == Returned && |o.calls| == 1 && |o.written| == 1
                  && o.written[0].status == Some(ReturnName(p.countStatus)) && o.written[0].data == None)
            && (IsFatal(p.countStatus) ==> o.written == [] && o.halt == Exited(p.countStatus) && |o.calls| == 1)
            && (IsOk(p.countStatus) && t.stopped.None? ==>
                  o.halt == Returned && |o.written| == 1 && |t.entries| + t.failures == p.count
                  && (o.written[0].status == Some(UnknownName) <==> t.failures > 0)
                  && (t.failures == 0 ==> o.written[0].status == Some("NVML_SUCCESS")))
            && (IsOk(p.countStatus) && t.stopped.Some? ==>
                  o.written == [] && o.halt == t.stopped.value && !o.halt.Returned?
                  && (o.halt.Exited? ==> IsFatal(o.halt.code) && o.halt.code == o.calls[|o.calls| - 1].status))
  {
    TiersPartition(p.countStatus);
    var t := Survey(p, STRING_LENGTH_PASSED, p.count);
    SurveyAccounts(p, STRING_LENGTH_PASSED, p.count);
    SurveyStops(p, STRING_LENGTH_PASSED, p.count);
    ReturnNameExamples();
    if t.stopped.Some? && t.calls != [] {
      var c := Called(GetCount, p.countStatus);
      assert ([c] + t.calls)[|[c] + t.calls| - 1] == t.calls[|t.calls| - 1];
    }
  }

  // ----------------------------------------- the shape of the data text

  /** What every appended entry looks like: a leading comma, and a closing
   *  brace right after the last digit of gsp_default-mode. */
  predicate EntryShaped(e: string)
  {
    |e| >= 3 && e[0] == ',' && e[|e| - 1] == '}' && '0' <= e[|e| - 2] <= '9'
  }

  lemma DeviceEntryShaped(d: DeviceProbe)
    ensures EntryShaped(DeviceEntry(d))
  {
    var parts := ["{\"uuid\":\"", d.uuid, "\",\"name\":\"", d.name, "\",\"gsp_version\":\"", d.version,
                  "\",\"gsp_mode\":", Decimal(d.mode), ",\"gsp_default-mode\":", Decimal(d.defaultMode), "}"];
    var digits := Decimal(d.defaultMode);
    assert parts[..10][..9] == parts[..9];
    assert Concat(parts[..10]) == Concat(parts[..9]) + digits;
    var front := Concat(parts[..9]);
    assert DeviceObject(d) == front + digits + "}";
    var e := DeviceEntry(d);
    assert e == "," + front + digits + "}";
    assert e[|e| - 2] == digits[|digits| - 1];
  }

  /** The entries of a loop over results whose entries are shaped are
   *  shaped. */
  lemma {:induction false} FoldEntriesShaped(rs: seq<DeviceResult>)
    requires forall j :: 0 <= j < |rs| && rs[j].Entry? ==> EntryShaped(rs[j].text)
    ensures forall k :: 0 <= k < |Fold(rs).entries| ==> EntryShaped(Fold(rs).entries[k])
  {
    if rs != [] {
      FoldEntriesShaped(rs[..|rs| - 1]);
    }
  }

  /** Every entry the device loop appends is shaped. */
  lemma SurveyEntriesShaped(p: DetailsProbe, length: nat, n: nat)
    ensures var t := Survey(p, length, n);
            forall k :: 0 <= k < |t.entries| ==> EntryShaped(t.entries[k])
  {
    var rs := Results(p, length, n);
    forall j | 0 <= j < n && rs[j].Entry? ensures EntryShaped(rs[j].text) {
      QueryDeviceEnds(j, p.device(j), length);
      DeviceEntryShaped(p.device(j));
    }
    FoldEntriesShaped(rs);
  }

  /** strcat'd pieces begin with the first piece. */
  lemma {:induction false} ConcatStarts(parts: seq<string>)
    requires parts != [] && parts[0] != []
    ensures Concat(parts) != [] && Concat(parts)[0] == parts[0][0]
  {
    if |parts| > 1 {
      assert parts[..|parts| - 1][0] == parts[0];
      ConcatStarts(parts[..|parts| - 1]);
    } else {
      assert parts[..0] == [];
    }
  }

  /** The header ends by opening the array, after a space. */
  lemma HeaderOpens(count: nat)
    ensures var h := DetailsHeader(count);
            |h| >= 2 && h[|h| - 1] == '[' && h[|h| - 2] == ' '
  {
  }

  /** strcat'd shaped entries start and end like shaped entries. */
  lemma ConcatShaped(entries: seq<string>)
    requires entries != []
    requires forall k :: 0 <= k < |entries| ==> EntryShaped(entries[k])
    ensures var body := Concat(entries);
            |body| >= 2 && body[0] == ',' && body[|body| - 1] == '}' && '0' <= body[|body| - 2] <= '9'
  {
    var last := entries[|entries| - 1];
    assert EntryShaped(last) && EntryShaped(entries[0]);
    assert Concat(entries) == Concat(entries[..|entries| - 1]) + last;
    ConcatStarts(entries);
  }

  /** Whatever byte is stored after a text whose last two characters are
   *  not ']', the result does not end in "]}". */
  lemma ClosedAsWrittenUnclosed(text: string, closeByte: char)
    requires |text| >= 2 && text[|text| - 1] != ']' && text[|text| - 2] != ']'
    ensures var x := ClosedAsWritten(text, closeByte);
            |x| >= 2 && (x[|x| - 2] != ']' || x[|x| - 1] != '}')
  {
    if closeByte != '\0' {
      assert (text + [closeByte])[|text| - 1] == text[|text| - 1];
    }
  }

  /** The data text as written, built from shaped entries after a header
   *  that opens the array, never ends in "]}" whatever byte `buffer[len] =
   *  "]}"` stores; and as soon as there is an entry the array opens with
   *  "[,". */
  lemma UnclosedText(header: string, entries: seq<string>, closeByte: char)
    requires |header| >= 2 && header[|header| - 1] == '[' && header[|header| - 2] != ']'
    requires forall k :: 0 <= k < |entries| ==> EntryShaped(entries[k])
    ensures var x := ClosedAsWritten(header + Concat(entries), closeByte);
            |x| >= 2 && (x[|x| - 2] != ']' || x[|x| - 1] != '}')
            && (entries != [] ==> header + "," <= x)
  {
    var body := Concat(entries);
    var text := header + body;
    if entries != [] {
      ConcatShaped(entries);
      assert text[|header|] == body[0];
      assert text[|text| - 1] == body[|body| - 1];
      assert text[|text| - 2] == body[|body| - 2];
    } else {
      assert text == header;
    }
    ClosedAsWrittenUnclosed(text, closeByte);
  }

  /** As written the JSON array of the reply is never closed, and it opens
   *  with "[," as soon as a device is listed. */
  lemma DetailsDataUnclosed(p: DetailsProbe, closeByte: char)
    requires IsOk(p.countStatus) && Survey(p, STRING_LENGTH_PASSED, p.count).stopped.None?
    ensures var o := DetailsAllSpec(p, closeByte);
            var t := Survey(p, STRING_LENGTH_PASSED, p.count);
            |o.written| == 1 && o.written[0].data.Some?
            && var x := o.written[0].data.value;
               |x| >= 2 && (x[|x| - 2] != ']' || x[|x| - 1] != '}')
               && (t.entries != [] ==> DetailsHeader(p.count) + "," <= x)
  {
    TiersPartition(p.countStatus);
    var t := Survey(p, STRING_LENGTH_PASSED, p.count);
    SurveyEntriesShaped(p, STRING_LENGTH_PASSED, p.count);
    HeaderOpens(p.count);
    UnclosedText(DetailsHeader(p.count), t.entries, closeByte);
  }

  // ------------------------------------------------ the handler as meant

  /** Objects joined by commas: what goes between the brackets of a JSON
   *  array. */
  function Joined(objects: seq<string>): string
  {
    if objects == [] then ""
    else if |objects| == 1 then objects[0]
    else Joined(objects[..|objects| - 1]) + "," + objects[|objects| - 1]
  }

  /** An entry without its leading comma. */
  function Uncomma(e: string): string
  {
    if e != [] && e[0] == ',' then e[1..] else e
  }

  /** The objects of a list of entries. */
  function Objects(entries: seq<string>): (objects: seq<string>)
    ensures |objects| == |entries|
  {
    seq(|entries|, k requires 0 <= k < |entries| => Uncomma(entries[k]))
  }

  /** Comma-led entries strcat'd together are a comma followed by their
   *  objects joined by commas. */
  lemma {:induction false} ConcatIsCommaJoined(entries: seq<string>)
    requires forall k :: 0 <= k < |entries| ==> entries[k] != [] && entries[k][0] == ','
    ensures entries != [] ==> Concat(entries) == "," + Joined(Objects(entries))
  {
    if |entries| > 1 {
      var init := entries[..|entries| - 1];
      var last := entries[|entries| - 1];
      var objects := Objects(entries);
      ConcatIsCommaJoined(init);
      assert objects[..|objects| - 1] == Objects(init);
      assert last == "," + objects[|objects| - 1];
      assert Joined(objects) == Joined(Objects(init)) + "," + objects[|objects| - 1];
      assert Concat(entries) == Concat(init) + last;
    } else if |entries| == 1 {
      assert entries[..0] == [];
      assert entries[0] == "," + Uncomma(entries[0]);
    }
  }

  /** nvmlDeviceGetDetailsAll_handler as evidently intended: the UUID and
   *  name queries are told the 128 bytes their arrays have, and the data
   *  is the device objects, separated by commas, in a JSON array closed by
   *  "]}". */
  function DetailsAllIntended(p: DetailsProbe): Outcome
  {
    var c := Called(GetCount, p.countStatus);
    if IsError(p.countStatus) then Outcome([Reply(ReturnName(p.countStatus), DETAILS_COUNT_FAILED)], [c], Returned)
    else if IsFatal(p.countStatus) then Outcome([], [c], Exited(p.countStatus))
    else
      var t := Survey(p, STRING_BUFFER_BYTES, p.count);
      DetailsEnd(c, t, DetailsHeader(p.count) + Joined(Objects(t.entries)) + "]}")
  }

  /** Told the true size of its array, no query writes past it. */
  lemma {:induction false} WalkInBounds(i: nat, d: DeviceProbe, k: nat, made: seq<Called>)
    requires k <= 5
    ensures !Walk(i, d, STRING_BUFFER_BYTES, k, made).Overflowed?
    decreases 5 - k
  {
    if k < 5 {
      var q := QueryAt(i, d, STRING_BUFFER_BYTES, k);
      StringQueryInBounds(STRING_BUFFER_BYTES, d.uuidStatus, d.uuid);
      StringQueryInBounds(STRING_BUFFER_BYTES, d.nameStatus, d.name);
      if !q.overflow && IsOk(q.call.status) {
        WalkInBounds(i, d, k + 1, made + [q.call]);
      }
    }
  }

  /** A loop over results none of which overflows never stops undefined. */
  lemma {:induction false} FoldDefined(rs: seq<DeviceResult>)
    requires forall j :: 0 <= j < |rs| ==> !rs[j].Overflowed?
    ensures Fold(rs).stopped != Some(Undefined)
  {
    if rs != [] {
      FoldDefined(rs[..|rs| - 1]);
    }
  }

  /** The intended handler is always defined, and its data closes the JSON
   *  array the header opens: the objects of the listed devices separated by
   *  commas, then "]}"; the
   *  entries as written are the same objects each led by a comma. */
  lemma DetailsIntendedWellFormed(p: DetailsProbe)
    ensures DetailsAllIntended(p).halt != Undefined
    ensures var o := DetailsAllIntended(p);
            var t := Survey(p, STRING_BUFFER_BYTES, p.count);
            IsOk(p.countStatus) && t.stopped.None? ==>
              o.written[0].data == Some(DetailsHeader(p.count) + Joined(Objects(t.entries)) + "]}")
              && (t.entries != [] ==> Concat(t.entries) == "," + Joined(Objects(t.entries)))
  {
    var rs := Results(p, STRING_BUFFER_BYTES, p.count);
    forall j | 0 <= j < p.count ensures !rs[j].Overflowed? {
      WalkInBounds(j, p.device(j), 0, []);
    }
    FoldDefined(rs);
    SurveyEntriesShaped(p, STRING_BUFFER_BYTES, p.count);
    ConcatIsCommaJoined(Survey(p, STRING_BUFFER_BYTES, p.count).entries);
  }

  /** One device reporting a 200-character UUID: as written NVML may write
   *  it past the 128-byte array (the behaviour is undefined); told the
   *  true size, NVML refuses with INSUFFICIENT_SIZE and the device is
   *  skipped and counted. */
  lemma LongUuidExample()
    ensures var d := DeviceProbe(NVML_SUCCESS, NVML_SUCCESS, seq(200, _ => 'x'), NVML_SUCCESS, "gpu",
                                 NVML_SUCCESS, "1", NVML_SUCCESS, 0, 0);
            var p := DetailsProbe(NVML_SUCCESS, 1, _ => d);
            DetailsAllSpec(p, '\0').halt == Undefined
            && DetailsAllIntended(p).halt == Returned
            && Survey(p, STRING_BUFFER_BYTES, 1).failures == 1
  {
    var d := DeviceProbe(NVML_SUCCESS, NVML_SUCCESS, seq(200, _ => 'x'), NVML_SUCCESS, "gpu",
                         NVML_SUCCESS, "1", NVML_SUCCESS, 0, 0);
    var p := DetailsProbe(NVML_SUCCESS, 1, _ => d);
    var c0 := Called(GetHandleByIndex(0), NVML_SUCCESS);
    assert QueryAt(0, d, STRING_LENGTH_PASSED, 1).overflow;
    assert QueryDevice(0, d, STRING_LENGTH_PASSED) == Overflowed([c0, Called(GetUuid(0), NVML_SUCCESS)]);
    assert Results(p, STRING_LENGTH_PASSED, 1) == [QueryDevice(0, d, STRING_LENGTH_PASSED)];
    assert QueryAt(0, d, STRING_BUFFER_BYTES, 1).call.status == NVML_ERROR_INSUFFICIENT_SIZE;
    FatalCodes();
    assert QueryDevice(0, d, STRING_BUFFER_BYTES) == Skipped([c0, Called(GetUuid(0), NVML_ERROR_INSUFFICIENT_SIZE)]);
    assert Results(p, STRING_BUFFER_BYTES, 1) == [QueryDevice(0, d, STRING_BUFFER_BYTES)];
  }
}
