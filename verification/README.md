# envyd request engine, in Dafny

envyd is a small daemon. It serves NVML (NVIDIA Management Library) queries to local clients over a Unix-domain socket. Each connection goes through one cycle:

- `process` zeroes a shared 8 KiB input buffer and fills it with `sso_read`, a bounded read loop.
- It parses the buffer as JSON and checks the `action` member.
- `assign_task` sends the action through a chain of string compares to a handler.
- A handler checks the request's fields, asks NVML, and answers with one `RESPOND`: a fixed three-field JSON envelope (`data`, `status`, `description`).
- Fatal NVML statuses end the whole process through `WTF`, which exits with the last NVML status.

This project models that engine and proves what it does. There are four parts.

- **Connection cycle** (`connection.dfy`, `socket.dfy`).
  - `Connection.Receive` is `sso_read`, a function over a script of read(2) replies.
  - `Connection.Daemon` holds `process`'s global state: `so_buffer` as an `array<byte>` and `gl_nvml_result`.
  - Its methods `MemsetBuff`, `SsoRead`, `Process` and `Serve` update that state in place.
  - Each method is proved against the functions `Receive`, `BufferAfter`, `Cycle` and `Served`.
  - `Socket.Client` is the accepted connection. It records the sizes asked of read(2) and the texts written.
- **Dispatch and handlers** (`dispatch.dfy`, `handlers.dfy`, `outcome.dfy`).
  - `Dispatch.AssignTask` is the compare chain.
  - `Handlers.Thermal` is the thermal-settings handler's early-return chain.
  - `Handlers.SurveyDevices` and `Handlers.DetailsAll` are the device-list handler's skip-and-count loop.
  - An `Outcomes.Outcome` is the responses written, the NVML calls made (each with the status it returned), and how control ends: returned, exited with a code, or undefined behaviour.
- **Envelope and authorization gate** (`envelope.dfy`, `gate.dfy`).
  - `Envelope.Respond` sizes, formats and writes the envelope. The texts are decoded back to prove a round trip.
  - `Gate.CheckAuthorization` is the `CHECK_AUTHORIZATION` decision chain.
- **Status tiers and lookup tables** (`status.dfy`, `enums.dfy`, `tables.dfy`, `strip.dfy`).
  - The OK/ERROR/FATAL tiers.
  - Every string-to-enum if-chain and enum-to-string switch, as one first-match lookup over an ordered table (`Tables.Lookup`). Each table is proved closed: distinct keys, distinct values, and a fallback that is not a listed value.
  - `rstrip`, as an in-place method over an `array<char>`.

`src/helpers.h` repeats three to-string switches (`src/helpers.h:80-213`) as `static` copies. They are textually identical to `src/helpers.c:227-360` apart from the `static` keyword and whitespace, so one table models both copies. The same holds for the restricted-API and power-scope string-to-enum maps (`src/helpers.h:57-78`, `src/helpers.c:91-99` and `186-197`).

Several external effects become parameters:

- json-c's parser is a parameter: a function from the bytes before the first NUL to an optional `Json.Document`.
- A `Json.Member` carries what `json_object_get_string` and `json_object_get_int` return. Whether `errno` is EINVAL after the latter is a boolean parameter.
- NVML is a probe record: the status each call returns and the values it fills in.
- The return value of `json_object_put` and the success of `setsockopt` are also parameters.
- The byte that `buffer[len] = "]}"` stores (the low byte of a pointer) is the parameter `closeByte`.

Where the code does something its authors evidently did not mean, the model does what the code does. A corrected definition sits beside it, and a lemma shows where the two differ (see Findings).

Where the intended design and the code differ, the model follows the code. For example, a memory-info request is meant to return the device's memory totals, but its handler (`src/network.c:117-120`) is an empty stub, so here it writes nothing.

## Model

| member | source | states |
|---|---|---|
| Status.TierOf | src/helpers.h:22-44 | OK exactly for NVML_SUCCESS; FATAL exactly for a code that is neither success nor one of those listed by ERROR |
| Status.TiersPartition | src/helpers.h:22-44 | every code satisfies exactly one of OK, ERROR, FATAL, in agreement with TierOf |
| Status.FatalCodes | src/helpers.h:23-44 | success is OK and not ERROR; UNINITIALIZED, ALREADY_INITIALIZED, NOT_FOUND, DRIVER_NOT_LOADED, TIMEOUT, IRQ_ISSUE, LIBRARY_NOT_FOUND, FUNCTION_NOT_FOUND, CORRUPTED_INFOROM, DEPRECATED and UNKNOWN are FATAL |
| Status.ReturnName | src/helpers.c:227-292 | total; "NVML_ERROR_UNKNOWN" exactly for codes no case lists; any other name reads back to the one code it came from |
| Status.ReturnNamesClosed | src/helpers.h:80-145 | the switch lists every code once and every name once, and none of the names is the default's |
| Status.ReturnNameListed | src/helpers.c:227-292 | each listed code maps to the name of its own case |
| Status.ReturnNamesDistinct | src/helpers.h:80-145 | two different listed codes get different names |
| Status.ReturnNameIsNvml | src/helpers.c:227-292 | every name the switch returns, default included, begins with NVML_ |
| Status.ReturnNameExamples | src/helpers.h:142-143 | NVML_SUCCESS maps to "NVML_SUCCESS"; NVML_ERROR_UNKNOWN itself is unlisted and gets the default name |
| Status.ThermalControllerName | src/helpers.c:294-335 | each listed controller gets its own name, which reads back to it; anything else gets NVML_THERMAL_CONTROLLER_UNKNOWN |
| Status.ThermalTargetName | src/helpers.c:337-360 | each listed target gets its own name, which reads back to it; anything else gets NVML_THERMAL_TARGET_UNKNOWN |
| Status.ThermalNamesClosed | src/helpers.h:147-213 | both thermal switches list every value once and every name once, never their default's name |
| Enums.RestrictedApiToEnum | src/helpers.c:91-99 | RESTRICTED_API_COUNT exactly for unlisted strings; any other result's spelling is the input |
| Enums.RestrictedApiListed | src/helpers.h:57-65 | each listed spelling yields its own constant |
| Enums.ClockIdToEnum | src/helpers.c:101-115 | CLOCK_ID_COUNT exactly for unlisted strings; any other result's spelling is the input |
| Enums.ClockIdListed | src/helpers.c:101-115 | each listed spelling yields its own constant |
| Enums.ClockTypeToEnum | src/helpers.c:117-131 | CLOCK_COUNT exactly for unlisted strings; any other result's spelling is the input |
| Enums.ClockTypeListed | src/helpers.c:117-131 | each listed spelling yields its own constant |
| Enums.PstateToEnum | src/helpers.c:133-184 | PSTATE_UNKNOWN exactly for unlisted strings; any other result's spelling is the input |
| Enums.PstatesClosed | src/helpers.c:133-184 | the sixteen spellings and sixteen states are pairwise distinct, none is the sentinel |
| Enums.PstateListed | src/helpers.c:133-184 | each listed spelling yields its own constant |
| Enums.PowerScopeToEnum | src/helpers.c:186-197 | CHAR_MAX exactly for strings other than the three spellings; any other result's spelling is the input |
| Enums.PowerScopeListed | src/helpers.h:67-78 | each of the three spellings yields its own scope |
| Enums.ThresholdToEnum | src/helpers.c:199-225 | TEMPERATURE_THRESHOLD_COUNT exactly for unlisted strings; any other result's spelling is the input |
| Enums.ThresholdListed | src/helpers.c:199-225 | each listed spelling yields its own constant |
| Enums.ExactSpellingsOnly | src/helpers.h:67-78 | comparison is exact and case-sensitive: lower case or a trailing space is not recognised |
| Strip.TerminatorIndex | src/helpers.c:29-30 | the index of the first NUL, with no NUL before it |
| Strip.KeptLength | src/helpers.c:33-39 | the index just past the last non-filler; everything from it on is a filler |
| Strip.KeptLengthStep | src/helpers.c:33-39 | one more character moves the kept length to the end unless it is a filler |
| Strip.RStripInPlace | src/helpers.c:23-45 | the buffer afterwards is the old one with exactly the trailing run of fillers of its C string set to NUL, and its C string is RStrip of the old one |
| Strip.StrippedString | src/helpers.c:41-44 | zeroing the trailing run leaves a buffer whose C string is the stripped string |
| Strip.RStripShape | src/helpers.c:23-45 | the result is a prefix, every dropped character is a filler, and the result does not end in one |
| Strip.RStripIdempotent | src/helpers.c:23-45 | stripping twice is stripping once |
| Strip.RStripExtremes | src/helpers.c:41-44 | no trailing filler: unchanged; only fillers: empty |
| Strip.RStripExamples | src/helpers.c:12-18 | only space, CR and LF are fillers: a tab and interior spaces are kept |
| Envelope.ProtocolStatusesDistinct | src/network.h:18-21 | the four protocol statuses are four different strings |
| Envelope.NullIsLiteralNull | src/network.h:33-44 | a NULL field is the literal null, a present one is quoted (two characters longer), and equal fields come from equal values |
| Envelope.FirstCharacter | src/network.h:42-44 | a field starts with n when NULL and with a quote otherwise |
| Envelope.EnvelopeLength | src/network.h:36-45 | the text is the three lengths plus 40 fixed characters plus two quotes per present status or description |
| Envelope.EnvelopeFits | src/network.h:36-41 | the text and its terminator always fit in the len - 1 bytes snprintf may write: no truncation |
| Envelope.SnprintfStored | src/network.h:41 | snprintf stores the whole text, or size - 1 characters, always fewer than size |
| Envelope.Respond | src/network.h:35-50 | exactly one write of exactly the envelope text; nothing else about the client changes |
| Envelope.DecodeEnvelopeRoundTrip | src/network.h:41-45 | the three fields decode back from the text when status and description hold no quote and data is not the text null |
| Envelope.HeadRoundTrip | src/network.h:41-43 | the data and status fields decode back from their part of the text |
| Envelope.EnvelopeAmbiguous | src/network.h:41-44 | without escaping, two different responses can produce the same text |
| Json.ToUint32 | src/network.c:237 | the int32 to uint32 conversion: below 2^32, congruent modulo 2^32, zero only for zero |
| Socket.ReadStep | src/network.c:326 | read(2) returns the bytes it delivered or -1 with none, never more than asked |
| Socket.Client.Read | src/network.c:326 | the delivered bytes are stored at the offset and the rest of the buffer is unchanged; the ask is recorded |
| Socket.Client.Write | src/network.h:46 | one text is appended to what was sent |
| Gate.CheckAuthorization | src/network.h:52-72 | INSECURE: no-op; bearer missing or not a string: one INVALID_JSON_SCHEMA reply and the handler ends; accepted: silent pass; rejected: AUTHORIZATION_FAILED reply and the handler goes on |
| Gate.CheckAuthorizationIntended | src/network.h:52-73 | the handler goes on exactly when INSECURE or the bearer is accepted, silently; otherwise one reply without data |
| Gate.GateFallsThrough | src/network.h:69-72 | as written every string bearer proceeds; the two gates write the same replies and differ exactly on rejected bearers |
| Gate.RejectedBearerProceeds | src/network.h:69-72 | a forged bearer gets AUTHORIZATION_FAILED and still proceeds; the intended gate stops it |
| Handlers.Thermal | src/network.c:215-309 | field checks in order, with one INVALID_JSON_SCHEMA reply and no NVML call on failure; then UUID resolution and, only on success, the settings query for the requested sensor; one reply carrying the last status's name, with data exactly on success, or exit with a fatal status (never NOT_FOUND at resolution, never UNKNOWN at the settings query) |
| Handlers.ThermalStatusNames | src/network.c:246-308 | the thermal handler never answers UNDEFINED_INVALID_ACTION, JSON_PARSING_FAILED or AUTHORIZATION_FAILED |
| Handlers.StringQuery | src/network.c:146-156 | a string query writes past its array exactly when NVML succeeds and the value fits the passed length but not the array |
| Handlers.StringQueryInBounds | src/network.c:146-156 | passing the array's own size never writes past it |
| Handlers.StringQueryOverflows | src/network.c:146-147 | with 256 passed for 128 bytes, a 200-character UUID is written past the array |
| Handlers.Decimal | src/network.c:190-191 | %d of a non-negative value is a non-empty run of digits |
| Handlers.WalkPrefix | src/network.c:137-181 | a device's queries are a prefix of the five, in order, each but the last successful |
| Handlers.WalkEntry | src/network.c:183-199 | the entry is appended only after all five queries succeed |
| Handlers.WalkFails | src/network.c:139-181 | a failed query skips the device on a recoverable status, and aborts on a fatal one with that status |
| Handlers.WalkOverflows | src/network.c:146-156 | only the UUID or name query can overflow |
| Handlers.QueryDeviceOrder | src/network.c:137-181 | one to five calls, in loop order, each but the last successful |
| Handlers.QueryDeviceEnds | src/network.c:137-199 | entry after five successes; skip on ERROR; exit on FATAL with that status; overflow only at call 2 or 3 |
| Handlers.SurveyStep | src/network.c:136 | the loop over n+1 devices is the loop over n advanced by device n |
| Handlers.FoldAccounts | src/network.c:135-200 | unless stopped, entries plus failures equals the number of devices |
| Handlers.SurveyAccounts | src/network.c:135-200 | entries plus failure_count equals device_count when the loop runs to the end |
| Handlers.FoldStops | src/network.c:144-181 | the loop stops early only by an overflow or by exiting with the fatal status of the last call |
| Handlers.SurveyStops | src/network.c:144-181 | the device loop stops early only by an overflow or by exiting with the fatal status of the last call |
| Handlers.FoldStopped | src/network.c:144 | after a stop, later results change nothing |
| Handlers.SurveyStopped | src/network.c:144 | after a stop, later devices change nothing |
| Handlers.SurveyDevices | src/network.c:135-200 | the loop's appended text, failure_count, calls and early stop are those of the device survey |
| Handlers.DetailsAll | src/network.c:122-213 | the handler's outcome is DetailsAllSpec (count query, loop, unclosed data, status by failures) |
| Handlers.DetailsAllOutcome | src/network.c:122-213 | count first; a recoverable count failure is reported and a fatal one exits; otherwise one reply whose status is NVML_ERROR_UNKNOWN exactly when a device failed (else NVML_SUCCESS), with entries plus failures equal to the count; or a stop with no reply |
| Handlers.DeviceEntryShaped | src/network.c:184-197 | each device entry starts with a comma and ends with a digit and a closing brace |
| Handlers.FoldEntriesShaped | src/network.c:199 | a loop over shaped entries appends shaped entries |
| Handlers.SurveyEntriesShaped | src/network.c:183-199 | every appended device entry is shaped |
| Handlers.ConcatStarts | src/network.c:199 | strcat'd pieces begin with the first piece |
| Handlers.HeaderOpens | src/network.c:134 | the header ends with a space and an opening bracket |
| Handlers.ConcatShaped | src/network.c:199 | strcat'd shaped entries start with a comma and end with a digit and a brace |
| Handlers.ClosedAsWrittenUnclosed | src/network.c:206-207 | whatever byte the assignment stores, the text does not end in "]}" |
| Handlers.UnclosedText | src/network.c:134-207 | the data text as written never ends in "]}", and opens its array with "[," once a device is listed |
| Handlers.DetailsDataUnclosed | src/network.c:206-211 | the handler's reply data as written never closes the JSON array, and begins "[," when a device is listed |
| Handlers.ConcatIsCommaJoined | src/network.c:184-199 | comma-led entries strcat'd are a comma followed by their objects joined by commas |
| Handlers.WalkInBounds | src/network.c:146-156 | told the array's true size, no query writes past it |
| Handlers.FoldDefined | src/network.c:136-200 | with no overflows the loop never stops undefined |
| Handlers.DetailsIntendedWellFormed | src/network.c:122-213 | the intended handler is never undefined; its data is the header, the device objects joined by commas, and "]}" |
| Handlers.LongUuidExample | src/network.c:146-147 | a 200-character UUID: undefined as written; skipped and counted as intended |
| Dispatch.Route | src/network.c:88-114 | the first three names match exactly; every name except those three and the memory-info name goes to memory info; only the memory-info name is unresolved; DetailsAll is never chosen |
| Dispatch.ActionNamesClosed | src/network.c:88-110 | the five action names are distinct, go to distinct actions, and none goes to Unresolved |
| Dispatch.RouteIntended | src/network.c:88-114 | unresolved exactly for names other than the five, each resolved action reads back to its name |
| Dispatch.ActionNamesListed | src/network.c:88-110 | each of the five names goes to its own action |
| Dispatch.RouteDiverges | src/network.c:104 | the chain as written and as intended agree exactly on the first three names |
| Dispatch.AssignTask | src/network.c:85-115 | temperature, threshold and unknown names write nothing; thermal settings runs its handler; UNDEFINED_INVALID_ACTION exactly for the memory-info name; never the device count; at most one reply, never undefined |
| Dispatch.AssignTaskIntended | src/network.c:85-120 | temperature, threshold and memory info write nothing; thermal settings and the device list run their handlers; every unknown name is answered UNDEFINED_INVALID_ACTION without an NVML call |
| Dispatch.DetailsAllUnreachable | src/network.c:104-110 | asked for the device list, the daemon as written is silent; as intended it asks NVML for the count first |
| Connection.Zeros | src/helpers.h:17 | n zero bytes |
| Connection.Receive | src/network.c:320-344 | total never exceeds the size and earlier bytes stay in front; each read asks for the room left; -1 leaves no data; a full buffer asks nothing more |
| Connection.Stored | src/network.c:326 | storing a read's bytes after the earlier ones is storing them all together |
| Connection.ZeroedOver | src/network.c:333-336 | MEMSET_BUFF after a failed read zeroes what was stored |
| Connection.ReceiveAsksShrink | src/network.c:325-341 | each read asks for strictly less than the one before |
| Connection.Filled | src/network.c:39-47 | the buffer after zeroing and reading has the full size |
| Connection.CString | src/network.c:53-55 | the text read up to the first NUL (Strip.TerminatorIndex) exists exactly when there is a NUL, and is a NUL-free prefix followed by that NUL |
| Connection.Terminated | src/network.c:39-47 | a read shorter than the buffer leaves a NUL right after the data; a full read leaves none exactly when no byte was NUL |
| Connection.CycleSilentFailures | src/network.c:42-51 | a failed setsockopt or a failed read ends the cycle with no reply and no call |
| Connection.CycleServes | src/network.c:47-81 | the parser gets the text up to the first NUL, a prefix of what was read; undefined exactly without a NUL, which needs a full buffer |
| Connection.ParseFailureReplied | src/network.c:55-60 | a failed parse gets one JSON_PARSING_FAILED reply without data, and nothing is dispatched |
| Connection.ActionRejected | src/network.c:62-79 | a missing or non-string action gets one INVALID_JSON_SCHEMA reply, no dispatch, then an exit when json_object_put is non-zero |
| Connection.ActionDispatched | src/network.c:72-82 | a string action is dispatched by assign_task |
| Connection.CycleRespondsOnce | src/network.c:33-83 | every cycle writes at most one response |
| Connection.FullBufferUndefined | src/network.c:39-55 | 8192 non-NUL bytes leave the logged and parsed text unterminated |
| Connection.ServedIntended | src/network.c:55-83 | with put's result not taken as a failure, never undefined, at most one reply |
| Connection.CycleIntended | src/network.c:33-83 | reading one byte less than the buffer, no request is undefined and none gets more than one reply |
| Connection.RejectedActionExits | src/network.c:62-79 | with put returning 1, a rejected action exits as written and returns as intended, after the same reply |
| Connection.Daemon.MemsetBuff | src/helpers.h:17 | the first len bytes of so_buffer become zero, whatever buffer is passed; any other buffer is unchanged |
| Connection.Daemon.SsoRead | src/network.c:320-344 | return value, asks and remaining input are those of Receive; the buffer holds the data read, or zeros after a failure |
| Connection.Daemon.Process | src/network.c:33-83 | so_buffer is allocated by the first cycle and kept by later ones, and afterwards holds what was read; the client's remaining input and read sizes are sso_read's (untouched when setsockopt fails); the halt, the texts written and gl_nvml_result are those of Cycle |
| Connection.Daemon.Serve | src/network.c:55-83 | the halt, the texts written and gl_nvml_result are those of Served; nothing more is read from the client |

## Left out

- src/main.c, the accept loop, signal handling, NVML initialisation and shutdown, and `bind_socket_with_address` (src/network.c:16-30) are not part of this model; they are process and socket plumbing.
- src/network/network.c and src/network/network.h are not part of this model; they are an earlier, unused draft.
- `bytes_to_denominator` (src/helpers.c:87-89) is left out: floating-point division.
- The `sizeDenominator_t` units (src/helpers.h:46-51) are left out. Their only use is as the divisor of `bytes_to_denominator`.
- Logging (`PRINTLN`, `PRINTLN_SO`, `_logl` and the log macros) is left out: output only.
- `WTF` is modelled as an exit with `gl_nvml_result`. The call to `nvmlShutdown` before the exit, and the truncation of the exit status to 8 bits by the operating system, are left out.
- The temperature and temperature-threshold branches only log, and the memory-info handler is empty. They are modelled as writing nothing.
- Handlers.Thermal: the data text is the opaque `body`. The snprintf into a 2048-byte array (src/network.c:261-306) is not formatted, so the model does not show that the controller and target names in it come from `Status.ThermalControllerName` and `Status.ThermalTargetName`.
- Handlers.DetailsAllSpec: does not bound the 512-byte `device_buff` or the 524288-byte result buffer. An entry with long strings, or several hundred devices, could overflow them.
- Handlers.Decimal: `%d` of an `unsigned int` greater than 2^31 - 1 prints a negative number. The model prints the value itself.
- Envelope.Respond: a short or failed write(2), and a failing calloc, are not modelled. The client receives the whole text.
- json-c's parser and getters are parameters. Reference counting is modelled only by the value `json_object_put` returns.
- NVML, `setsockopt`, `is_authorized` and `errno` are parameters (probe records and booleans).
- Allocation and freeing (`malloc`, `calloc`, `free`) are not modelled beyond `so_buffer` being allocated once.
- The daemon serves one connection at a time, so nothing here is concurrent.

## Findings

| source | as written | input that shows it | evidently intended | confidence | as-written member | corrected member |
|---|---|---|---|---|---|---|
| src/network.c:104 | `strcmp(action, "nvmlDeviceGetMemoryInfo_v2")` has no `== 0`, so it holds for every other name | action `nvmlDeviceGetDetailsAll`, or any unknown name: the memory-info stub runs and nothing is written; `nvmlDeviceGetMemoryInfo_v2` is answered UNDEFINED_INVALID_ACTION | exact match like the other compares, so the device list is reachable and unknown names are rejected | high; not executed | Dispatch.RouteDiverges | Dispatch.RouteIntended |
| src/network.h:70-72 | after a rejected bearer the macro writes AUTHORIZATION_FAILED and leaves its do-while normally | bearer `forged` with an `is_authorized` that rejects it: the handler goes on | `return` after the reply, as the two earlier checks do | high; not executed | Gate.RejectedBearerProceeds | Gate.CheckAuthorizationIntended |
| src/network.c:47 | sso_read may fill all 8192 bytes of `so_buffer` | a peer sending 8192 non-NUL bytes: the buffer has no terminator, and the logging and the parser read past it | read at most 8191 bytes so that a NUL always follows | high; not executed | Connection.FullBufferUndefined | Connection.CycleIntended |
| src/network.c:147 | `nvmlDeviceGetUUID` and `nvmlDeviceGetName` (line 156) are told 256 bytes for 128-byte arrays | a device whose UUID NVML reports as 200 characters: written past `uuid` | pass the array's own size, so NVML refuses with INSUFFICIENT_SIZE and the device is skipped | medium; not executed | Handlers.LongUuidExample | Handlers.DetailsIntendedWellFormed |
| src/network.c:207 | `buffer[len] = "]}"` stores one byte of the literal's address, and every entry begins with a comma | one device queried successfully: the data begins `{"count": 1, "data": [,{` and does not end in `]}` | append `]}` with strcat and separate the objects by commas | high; not executed | Handlers.DetailsDataUnclosed | Handlers.DetailsIntendedWellFormed |
| src/network.c:67 | `if (json_object_put(jobj) != 0) WTF(...)` (also line 76) treats the 1 that json_object_put returns after freeing as a failure | request `{}`: one INVALID_JSON_SCHEMA reply, then the daemon exits | treat the result as a release, as line 82 does, and return | high; not executed | Connection.RejectedActionExits | Connection.ServedIntended |
