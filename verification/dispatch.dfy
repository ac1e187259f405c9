/** assign_task (src/network.c:82-115): the chain of string compares that
 *  sends a request's `action` to its handler.
 *
 *  The fourth compare, `strcmp(action, "nvmlDeviceGetMemoryInfo_v2")`, has
 *  no `== 0`: it holds for every name other than that one.  `Route` is the
 *  chain as written; `RouteIntended` is the exact match the chain was meant
 *  to be, a closed lookup table.
 */
module Dispatch {
  import opened Options
  import opened Tables
  import opened Envelope
  import opened Json
  import opened Outcomes
  import opened Handlers

  const TEMPERATURE: string := "nvmlDeviceGetTemperature"
  const TEMPERATURE_THRESHOLD: string := "nvmlDeviceGetTemperatureThreshold"
  const THERMAL_SETTINGS: string := "nvmlDeviceGetThermalSettings"
  const MEMORY_INFO: string := "nvmlDeviceGetMemoryInfo_v2"
  const DETAILS_ALL: string := "nvmlDeviceGetDetailsAll"

  const ACTION_UNRESOLVED: string := "Couldn't resolve provided action to any valid envyd or NVML action."

  /** Where a request goes. */
  datatype Action = Temperature | TemperatureThreshold | ThermalSettings | MemoryInfo | DetailsAll | Unresolved

  /** The compare chain as written. */
  function Route(action: string): (a: Action)
    // The first three names are matched exactly, the first match winning.
    ensures action == TEMPERATURE <==> a == Temperature
    ensures action == TEMPERATURE_THRESHOLD <==> a == TemperatureThreshold
    ensures action == THERMAL_SETTINGS <==> a == ThermalSettings
    // Every other name but one reaches the memory-info handler ...
    ensures a == MemoryInfo <==>
              action !in {TEMPERATURE, TEMPERATURE_THRESHOLD, THERMAL_SETTINGS, MEMORY_INFO}
    // ... the one being the memory-info name itself, which is not resolved;
    ensures a == Unresolved <==> action == MEMORY_INFO
    // and the DetailsAll branch is never taken.
    ensures a != DetailsAll
  {
    if action == TEMPERATURE then Temperature
    else if action == TEMPERATURE_THRESHOLD then TemperatureThreshold
    else if action == THERMAL_SETTINGS then ThermalSettings
    else if action != MEMORY_INFO then MemoryInfo
    else if action == DETAILS_ALL then DetailsAll
    else Unresolved
  }

  /** The actions by name. */
  const ActionNames: seq<(string, Action)> := [
    (TEMPERATURE, Temperature),
    (TEMPERATURE_THRESHOLD, TemperatureThreshold),
    (THERMAL_SETTINGS, ThermalSettings),
    (MEMORY_INFO, MemoryInfo),
    (DETAILS_ALL, DetailsAll)
  ]

  lemma ActionNamesClosed()
    ensures Closed(ActionNames, Unresolved)
  {
  }

  /** The compare chain as evidently intended: every compare an exact
   *  match. */
  function RouteIntended(action: string): (a: Action)
    // Unresolved exactly for names that are none of the five ...
    ensures a == Unresolved <==> action !in Keys(ActionNames)
    // ... and any other action is the one whose name was given.
    ensures a != Unresolved ==> Lookup(Invert(ActionNames), a, "") == action
  {
    ActionNamesClosed();
    ExactMatch(ActionNames, action, Unresolved, "");
    Lookup(ActionNames, action, Unresolved)
  }

  /** The chain as written and as intended agree exactly on the first three
   *  names. */
  lemma RouteDiverges(action: string)
    ensures Route(action) == RouteIntended(action) <==>
              action in {TEMPERATURE, TEMPERATURE_THRESHOLD, THERMAL_SETTINGS}
  {
    ActionNamesListed();
  }

  /** Each of the five names gets its own action. */
  lemma ActionNamesListed()
    ensures Keys(ActionNames) == [TEMPERATURE, TEMPERATURE_THRESHOLD, THERMAL_SETTINGS, MEMORY_INFO, DETAILS_ALL]
    ensures RouteIntended(TEMPERATURE) == Temperature
    ensures RouteIntended(TEMPERATURE_THRESHOLD) == TemperatureThreshold
    ensures RouteIntended(THERMAL_SETTINGS) == ThermalSettings
    ensures RouteIntended(MEMORY_INFO) == MemoryInfo
    ensures RouteIntended(DETAILS_ALL) == DetailsAll
  {
    ActionNamesClosed();
    LookupListed(ActionNames, 0, Unresolved);
    LookupListed(ActionNames, 1, Unresolved);
    LookupListed(ActionNames, 2, Unresolved);
    LookupListed(ActionNames, 3, Unresolved);
    LookupListed(ActionNames, 4, Unresolved);
  }

  /** What the process around the handlers supplies them: errno after
   *  json_object_get_int, the NVML answers, and the byte `buffer[len] =
   *  "]}"` stores. */
  datatype Env = Env(errnoEinval: bool, thermal: ThermalProbe, details: DetailsProbe, closeByte: char)

  /** The branch taken for `a`; `details` is what the DetailsAll handler
   *  does. */
  function Perform(a: Action, doc: Document, env: Env, details: Outcome): Outcome
  {
    match a
    // Temperature and TemperatureThreshold only log; the memory-info
    // handler is an empty stub.
    case Temperature => Outcome([], [], Returned)
    case TemperatureThreshold => Outcome([], [], Returned)
    case MemoryInfo => Outcome([], [], Returned)
    case ThermalSettings => Thermal(doc, env.errnoEinval, env.thermal)
    case DetailsAll => details
    case Unresolved => Outcome([Reply(UNDEFINED_INVALID_ACTION, ACTION_UNRESOLVED)], [], Returned)
  }

  /** assign_task as written. */
  function AssignTask(action: string, doc: Document, env: Env): (o: Outcome)
    // The temperature and threshold names, and every name that is not one
    // of the four, write nothing and call nothing.
    ensures action in {TEMPERATURE, TEMPERATURE_THRESHOLD}
            || action !in {TEMPERATURE, TEMPERATURE_THRESHOLD, THERMAL_SETTINGS, MEMORY_INFO} ==>
              o == Outcome([], [], Returned)
    ensures action == THERMAL_SETTINGS ==> o == Thermal(doc, env.errnoEinval, env.thermal)
    // Only the memory-info name is answered UNDEFINED_INVALID_ACTION.
    ensures o.written != [] && o.written[0].status == Some(UNDEFINED_INVALID_ACTION) <==> action == MEMORY_INFO
    // The device count is never asked for.
    ensures forall k :: 0 <= k < |o.calls| ==> !o.calls[k].call.GetCount?
    // At most one response, and never undefined behaviour.
    ensures |o.written| <= 1
    ensures o.halt != Undefined
  {
    ProtocolStatusesDistinct();
    ThermalStatusNames(doc, env.errnoEinval, env.thermal);
    Perform(Route(action), doc, env, DetailsAllSpec(env.details, env.closeByte))
  }

  /** assign_task as evidently intended, with the DetailsAll handler as
   *  intended. */
  function AssignTaskIntended(action: string, doc: Document, env: Env): (o: Outcome)
    ensures action in {TEMPERATURE, TEMPERATURE_THRESHOLD, MEMORY_INFO} ==> o == Outcome([], [], Returned)
    ensures action == THERMAL_SETTINGS ==> o == Thermal(doc, env.errnoEinval, env.thermal)
    ensures action == DETAILS_ALL ==> o == DetailsAllIntended(env.details)
    // Every unknown name is answered UNDEFINED_INVALID_ACTION, without an
    // NVML call.
    ensures action !in Keys(ActionNames) ==>
              o == Outcome([Reply(UNDEFINED_INVALID_ACTION, ACTION_UNRESOLVED)], [], Returned)
    ensures |o.written| <= 1
    ensures o.halt != Undefined
  {
    ActionNamesListed();
    DetailsIntendedWellFormed(env.details);
    Perform(RouteIntended(action), doc, env, DetailsAllIntended(env.details))
  }

  /** Asked for the device list, the daemon as written runs the stub and
   *  stays silent; as intended it asks NVML for the device count first. */
  lemma DetailsAllUnreachable(doc: Document, env: Env)
    ensures AssignTask(DETAILS_ALL, doc, env) == Outcome([], [], Returned)
    ensures AssignTaskIntended(DETAILS_ALL, doc, env).calls[0] == Called(GetCount, env.details.countStatus)
  {
    DetailsAllOutcome(env.details, env.closeByte);
  }
}
