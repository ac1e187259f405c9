/** What one request does to the outside world: the responses written to
 *  the client, the NVML calls made (each with the status it returned), and
 *  how control ends.
 */
module Outcomes {
  import opened Options
  import opened Status
  import opened Envelope

  /** An NVML entry point the daemon calls, with the argument that
   *  identifies what it asks about. */
  datatype NvmlCall =
    | GetHandleByUuid(uuid: string)
    | GetThermalSettings(sensorIndex: nat)
    | GetCount
    | GetHandleByIndex(index: nat)
    | GetUuid(device: nat)
    | GetName(device: nat)
    | GetGspFirmwareVersion(device: nat)
    | GetGspFirmwareMode(device: nat)

  /** One call and the status it returned, which the daemon stores in
   *  gl_nvml_result. */
  datatype Called = Called(call: NvmlCall, status: NvmlReturn)

  /** How control ends: the function returns, WTF calls exit with the
   *  current gl_nvml_result, or the C program's behaviour is undefined. */
  datatype Halt = Returned | Exited(code: NvmlReturn) | Undefined

  datatype Outcome = Outcome(written: seq<Response>, calls: seq<Called>, halt: Halt)

  /** A response without data: RESPOND(client_fd, NULL, status, desc). */
  function Reply(status: string, description: string): Response
  {
    Response(None, Some(status), Some(description))
  }

  /** gl_nvml_result after the calls: the status of the last one, or what
   *  it held before when there were none. */
  function ResultAfter(before: NvmlReturn, calls: seq<Called>): NvmlReturn
  {
    if calls == [] then before else calls[|calls| - 1].status
  }
}
