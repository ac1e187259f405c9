/** NVML return codes as the daemon sees them (src/helpers.h): the three-tier
 *  classification behind the OK / ERROR / FATAL macros, the code-to-name
 *  switch, and the thermal controller and target name switches.
 *
 *  `nvmlReturn_t` and the thermal enums are C enums, so a value is an `int`;
 *  the named constants carry the values of NVML's public header nvml.h, which
 *  is not part of this model.
 */
module Status {
  import opened Tables

  type NvmlReturn = int

  const NVML_SUCCESS: NvmlReturn := 0
  const NVML_ERROR_UNINITIALIZED: NvmlReturn := 1
  const NVML_ERROR_INVALID_ARGUMENT: NvmlReturn := 2
  const NVML_ERROR_NOT_SUPPORTED: NvmlReturn := 3
  const NVML_ERROR_NO_PERMISSION: NvmlReturn := 4
  const NVML_ERROR_ALREADY_INITIALIZED: NvmlReturn := 5
  const NVML_ERROR_NOT_FOUND: NvmlReturn := 6
  const NVML_ERROR_INSUFFICIENT_SIZE: NvmlReturn := 7
  const NVML_ERROR_INSUFFICIENT_POWER: NvmlReturn := 8
  const NVML_ERROR_DRIVER_NOT_LOADED: NvmlReturn := 9
  const NVML_ERROR_TIMEOUT: NvmlReturn := 10
  const NVML_ERROR_IRQ_ISSUE: NvmlReturn := 11
  const NVML_ERROR_LIBRARY_NOT_FOUND: NvmlReturn := 12
  const NVML_ERROR_FUNCTION_NOT_FOUND: NvmlReturn := 13
  const NVML_ERROR_CORRUPTED_INFOROM: NvmlReturn := 14
  const NVML_ERROR_GPU_IS_LOST: NvmlReturn := 15
  const NVML_ERROR_RESET_REQUIRED: NvmlReturn := 16
  const NVML_ERROR_OPERATING_SYSTEM: NvmlReturn := 17
  const NVML_ERROR_LIB_RM_VERSION_MISMATCH: NvmlReturn := 18
  const NVML_ERROR_IN_USE: NvmlReturn := 19
  const NVML_ERROR_MEMORY: NvmlReturn := 20
  const NVML_ERROR_NO_DATA: NvmlReturn := 21
  const NVML_ERROR_VGPU_ECC_NOT_SUPPORTED: NvmlReturn := 22
  const NVML_ERROR_INSUFFICIENT_RESOURCES: NvmlReturn := 23
  const NVML_ERROR_FREQ_NOT_SUPPORTED: NvmlReturn := 24
  const NVML_ERROR_ARGUMENT_VERSION_MISMATCH: NvmlReturn := 25
  const NVML_ERROR_DEPRECATED: NvmlReturn := 26
  const NVML_ERROR_NOT_READY: NvmlReturn := 27
  const NVML_ERROR_GPU_NOT_FOUND: NvmlReturn := 28
  const NVML_ERROR_INVALID_STATE: NvmlReturn := 29
  const NVML_ERROR_UNKNOWN: NvmlReturn := 999

  // ---------------------------------------------------------------- tiers

  /** The codes the ERROR macro lists (it names INSUFFICIENT_RESOURCES and
   *  FREQ_NOT_SUPPORTED twice; a set keeps them once). */
  const RecoverableCodes: set<NvmlReturn> := {
    NVML_ERROR_INVALID_ARGUMENT, NVML_ERROR_NOT_SUPPORTED, NVML_ERROR_NO_PERMISSION,
    NVML_ERROR_INSUFFICIENT_SIZE, NVML_ERROR_INSUFFICIENT_POWER, NVML_ERROR_GPU_IS_LOST,
    NVML_ERROR_RESET_REQUIRED, NVML_ERROR_OPERATING_SYSTEM, NVML_ERROR_LIB_RM_VERSION_MISMATCH,
    NVML_ERROR_IN_USE, NVML_ERROR_MEMORY, NVML_ERROR_NO_DATA, NVML_ERROR_VGPU_ECC_NOT_SUPPORTED,
    NVML_ERROR_INSUFFICIENT_RESOURCES, NVML_ERROR_FREQ_NOT_SUPPORTED,
    NVML_ERROR_ARGUMENT_VERSION_MISMATCH, NVML_ERROR_NOT_READY, NVML_ERROR_GPU_NOT_FOUND,
    NVML_ERROR_INVALID_STATE
  }

  /** OK(r) */
  predicate IsOk(r: NvmlReturn) { r == NVML_SUCCESS }

  /** ERROR(r): a recoverable failure, reported to the client. */
  predicate IsError(r: NvmlReturn) { r in RecoverableCodes }

  /** FATAL(r): anything neither OK nor ERROR. */
  predicate IsFatal(r: NvmlReturn) { !(IsOk(r) || IsError(r)) }

  datatype Tier = Ok | Recoverable | Fatal

  /** The tier the three macros put a code in. */
  function TierOf(r: NvmlReturn): (t: Tier)
    ensures t == Ok <==> r == NVML_SUCCESS
    ensures t == Fatal <==> r != NVML_SUCCESS && r !in RecoverableCodes
  {
    if IsOk(r) then Ok else if IsError(r) then Recoverable else Fatal
  }

  /** Every code satisfies exactly one of OK, ERROR and FATAL. */
  lemma TiersPartition(r: NvmlReturn)
    ensures IsOk(r) || IsError(r) || IsFatal(r)
    ensures !(IsOk(r) && IsError(r)) && !(IsOk(r) && IsFatal(r)) && !(IsError(r) && IsFatal(r))
    ensures IsOk(r) <==> TierOf(r) == Ok
    ensures IsError(r) <==> TierOf(r) == Recoverable
    ensures IsFatal(r) <==> TierOf(r) == Fatal
  {
  }

  /** Success is OK and not ERROR; the codes the ERROR list leaves out,
   *  among them NOT_FOUND and UNKNOWN, are FATAL. */
  lemma FatalCodes()
    ensures IsOk(NVML_SUCCESS) && !IsError(NVML_SUCCESS)
    ensures IsFatal(NVML_ERROR_UNINITIALIZED) && IsFatal(NVML_ERROR_ALREADY_INITIALIZED)
    ensures IsFatal(NVML_ERROR_NOT_FOUND) && IsFatal(NVML_ERROR_DRIVER_NOT_LOADED)
    ensures IsFatal(NVML_ERROR_TIMEOUT) && IsFatal(NVML_ERROR_IRQ_ISSUE)
    ensures IsFatal(NVML_ERROR_LIBRARY_NOT_FOUND) && IsFatal(NVML_ERROR_FUNCTION_NOT_FOUND)
    ensures IsFatal(NVML_ERROR_CORRUPTED_INFOROM) && IsFatal(NVML_ERROR_DEPRECATED)
    ensures IsFatal(NVML_ERROR_UNKNOWN)
  {
  }

  // ---------------------------------------------------------------- names

  /** The cases of map_nvmlReturn_t_to_string, in switch order, in five
   *  blocks of six (closedness is checked a block, or a pair of blocks, at a
   *  time). */
  const ReturnNames: seq<(NvmlReturn, string)> :=
    ReturnCases0 + ReturnCases1 + ReturnCases2 + ReturnCases3 + ReturnCases4

  const ReturnCases0: seq<(NvmlReturn, string)> := [
    (NVML_SUCCESS, "NVML_SUCCESS"),
    (NVML_ERROR_UNINITIALIZED, "NVML_ERROR_UNINITIALIZED"),
    (NVML_ERROR_INVALID_ARGUMENT, "NVML_ERROR_INVALID_ARGUMENT"),
    (NVML_ERROR_NOT_SUPPORTED, "NVML_ERROR_NOT_SUPPORTED"),
    (NVML_ERROR_NO_PERMISSION, "NVML_ERROR_NO_PERMISSION"),
    (NVML_ERROR_ALREADY_INITIALIZED, "NVML_ERROR_ALREADY_INITIALIZED")
  ]

  const ReturnCases1: seq<(NvmlReturn, string)> := [
    (NVML_ERROR_NOT_FOUND, "NVML_ERROR_NOT_FOUND"),
    (NVML_ERROR_INSUFFICIENT_SIZE, "NVML_ERROR_INSUFFICIENT_SIZE"),
    (NVML_ERROR_INSUFFICIENT_POWER, "NVML_ERROR_INSUFFICIENT_POWER"),
    (NVML_ERROR_DRIVER_NOT_LOADED, "NVML_ERROR_DRIVER_NOT_LOADED"),
    (NVML_ERROR_TIMEOUT, "NVML_ERROR_TIMEOUT"),
    (NVML_ERROR_IRQ_ISSUE, "NVML_ERROR_IRQ_ISSUE")
  ]

  const ReturnCases2: seq<(NvmlReturn, string)> := [
    (NVML_ERROR_LIBRARY_NOT_FOUND, "NVML_ERROR_LIBRARY_NOT_FOUND"),
    (NVML_ERROR_FUNCTION_NOT_FOUND, "NVML_ERROR_FUNCTION_NOT_FOUND"),
    (NVML_ERROR_CORRUPTED_INFOROM, "NVML_ERROR_CORRUPTED_INFOROM"),
    (NVML_ERROR_GPU_IS_LOST, "NVML_ERROR_GPU_IS_LOST"),
    (NVML_ERROR_RESET_REQUIRED, "NVML_ERROR_RESET_REQUIRED"),
    (NVML_ERROR_OPERATING_SYSTEM, "NVML_ERROR_OPERATING_SYSTEM")
  ]

  const ReturnCases3: seq<(NvmlReturn, string)> := [
    (NVML_ERROR_LIB_RM_VERSION_MISMATCH, "NVML_ERROR_LIB_RM_VERSION_MISMATCH"),
    (NVML_ERROR_IN_USE, "NVML_ERROR_IN_USE"),
    (NVML_ERROR_MEMORY, "NVML_ERROR_MEMORY"),
    (NVML_ERROR_NO_DATA, "NVML_ERROR_NO_DATA"),
    (NVML_ERROR_VGPU_ECC_NOT_SUPPORTED, "NVML_ERROR_VGPU_ECC_NOT_SUPPORTED"),
    (NVML_ERROR_INSUFFICIENT_RESOURCES, "NVML_ERROR_INSUFFICIENT_RESOURCES")
  ]

  const ReturnCases4: seq<(NvmlReturn, string)> := [
    (NVML_ERROR_FREQ_NOT_SUPPORTED, "NVML_ERROR_FREQ_NOT_SUPPORTED"),
    (NVML_ERROR_ARGUMENT_VERSION_MISMATCH, "NVML_ERROR_ARGUMENT_VERSION_MISMATCH"),
    (NVML_ERROR_DEPRECATED, "NVML_ERROR_DEPRECATED"),
    (NVML_ERROR_NOT_READY, "NVML_ERROR_NOT_READY"),
    (NVML_ERROR_GPU_NOT_FOUND, "NVML_ERROR_GPU_NOT_FOUND"),
    (NVML_ERROR_INVALID_STATE, "NVML_ERROR_INVALID_STATE")
  ]

  const UnknownName: string := "NVML_ERROR_UNKNOWN"

  /** The code whose name is `name`, reading the switch backwards. */
  function CodeNamed(name: string): NvmlReturn
  {
    Lookup(Invert(ReturnNames), name, NVML_ERROR_UNKNOWN)
  }

  /** map_nvmlReturn_t_to_string: total; "NVML_ERROR_UNKNOWN" exactly for the
   *  codes no case lists (NVML_ERROR_UNKNOWN itself among them); every other
   *  name belongs to exactly one code. */
  function ReturnName(r: NvmlReturn): (name: string)
    ensures name == UnknownName <==> r !in Keys(ReturnNames)
    ensures name != UnknownName ==> CodeNamed(name) == r
  {
    ReturnNamesClosed();
    ExactMatch(ReturnNames, r, UnknownName, NVML_ERROR_UNKNOWN);
    Lookup(ReturnNames, r, UnknownName)
  }

  /** The switch lists each code once, each name once, and never the
   *  default's name. */
  lemma ReturnNamesClosed()
    ensures Closed(ReturnNames, UnknownName)
  {
    ReturnCasesClosed0(); ReturnCasesClosed1(); ReturnCasesClosed2();
    ReturnCasesClosed3(); ReturnCasesClosed4();
    ReturnCasesApart01(); ReturnCasesApart02(); ReturnCasesApart03(); ReturnCasesApart04();
    ReturnCasesApart12(); ReturnCasesApart13(); ReturnCasesApart14();
    ReturnCasesApart23(); ReturnCasesApart24(); ReturnCasesApart34();
    var c0, c1, c2, c3, c4 := ReturnCases0, ReturnCases1, ReturnCases2, ReturnCases3, ReturnCases4;
    ClosedConcat(c0, c1, UnknownName);
    ApartConcat(c0, c1, c2);
    ClosedConcat(c0 + c1, c2, UnknownName);
    ApartConcat(c0, c1, c3);
    ApartConcat(c0 + c1, c2, c3);
    ClosedConcat(c0 + c1 + c2, c3, UnknownName);
    ApartConcat(c0, c1, c4);
    ApartConcat(c0 + c1, c2, c4);
    ApartConcat(c0 + c1 + c2, c3, c4);
    ClosedConcat(c0 + c1 + c2 + c3, c4, UnknownName);
  }

  /** Every name the switch returns, the default's included, is an NVML_
   *  name, so none of them is one of the daemon's own protocol statuses. */
  lemma ReturnNameIsNvml(r: NvmlReturn)
    ensures "NVML_" <= ReturnName(r)
  {
    var name := ReturnName(r);
    if name != UnknownName {
      ReturnNamesNvml();
      LookupSound(ReturnNames, r, UnknownName);
    }
  }

  /** Every row of the table names an NVML_ constant. */
  predicate NvmlNamed(t: seq<(NvmlReturn, string)>)
  {
    forall i :: 0 <= i < |t| ==> "NVML_" <= t[i].1
  }

  lemma NvmlNamedConcat(t: seq<(NvmlReturn, string)>, u: seq<(NvmlReturn, string)>)
    requires NvmlNamed(t) && NvmlNamed(u)
    ensures NvmlNamed(t + u)
  {
    forall i | |t| <= i < |t + u| ensures "NVML_" <= (t + u)[i].1 {
      assert (t + u)[i] == u[i - |t|];
    }
  }

  lemma ReturnNamesNvml()
    ensures NvmlNamed(ReturnNames)
  {
    var c0, c1, c2, c3, c4 := ReturnCases0, ReturnCases1, ReturnCases2, ReturnCases3, ReturnCases4;
    ReturnCasesNvml0(); ReturnCasesNvml1(); ReturnCasesNvml2(); ReturnCasesNvml3(); ReturnCasesNvml4();
    NvmlNamedConcat(c0, c1);
    NvmlNamedConcat(c0 + c1, c2);
    NvmlNamedConcat(c0 + c1 + c2, c3);
    NvmlNamedConcat(c0 + c1 + c2 + c3, c4);
  }

  lemma ReturnCasesNvml0() ensures NvmlNamed(ReturnCases0) {}
  lemma ReturnCasesNvml1() ensures NvmlNamed(ReturnCases1) {}
  lemma ReturnCasesNvml2() ensures NvmlNamed(ReturnCases2) {}
  lemma ReturnCasesNvml3() ensures NvmlNamed(ReturnCases3) {}
  lemma ReturnCasesNvml4() ensures NvmlNamed(ReturnCases4) {}

  lemma ReturnCasesClosed0() ensures Closed(ReturnCases0, UnknownName) {}
  lemma ReturnCasesClosed1() ensures Closed(ReturnCases1, UnknownName) {}
  lemma ReturnCasesClosed2() ensures Closed(ReturnCases2, UnknownName) {}
  lemma ReturnCasesClosed3() ensures Closed(ReturnCases3, UnknownName) {}
  lemma ReturnCasesClosed4() ensures Closed(ReturnCases4, UnknownName) {}
  lemma ReturnCasesApart01() ensures Apart(ReturnCases0, ReturnCases1) {}
  lemma ReturnCasesApart02() ensures Apart(ReturnCases0, ReturnCases2) {}
  lemma ReturnCasesApart03() ensures Apart(ReturnCases0, ReturnCases3) {}
  lemma ReturnCasesApart04() ensures Apart(ReturnCases0, ReturnCases4) {}
  lemma ReturnCasesApart12() ensures Apart(ReturnCases1, ReturnCases2) {}
  lemma ReturnCasesApart13() ensures Apart(ReturnCases1, ReturnCases3) {}
  lemma ReturnCasesApart14() ensures Apart(ReturnCases1, ReturnCases4) {}
  lemma ReturnCasesApart23() ensures Apart(ReturnCases2, ReturnCases3) {}
  lemma ReturnCasesApart24() ensures Apart(ReturnCases2, ReturnCases4) {}
  lemma ReturnCasesApart34() ensures Apart(ReturnCases3, ReturnCases4) {}

  /** The two names the handlers report themselves. */
  lemma ReturnNameExamples()
    ensures ReturnName(NVML_SUCCESS) == "NVML_SUCCESS"
    ensures ReturnName(NVML_ERROR_UNKNOWN) == UnknownName
  {
    ReturnNameListed(0);
    ReturnCodesBelow30();
  }

  /** Every listed code is below 30, so NVML_ERROR_UNKNOWN (999) is not
   *  listed. */
  lemma ReturnCodesBelow30()
    ensures forall k :: 0 <= k < |Keys(ReturnNames)| ==> Keys(ReturnNames)[k] < 30
  {
  }

  /** The names of two different listed codes differ. */
  lemma ReturnNamesDistinct(a: NvmlReturn, b: NvmlReturn)
    requires a in Keys(ReturnNames) && b in Keys(ReturnNames) && a != b
    ensures ReturnName(a) != ReturnName(b)
  {
  }

  /** Each listed code maps to the name of its own case. */
  lemma ReturnNameListed(i: nat)
    requires i < |ReturnNames|
    ensures ReturnName(ReturnNames[i].0) == ReturnNames[i].1
  {
    ReturnNamesClosed();
    LookupListed(ReturnNames, i, UnknownName);
  }

  // ------------------------------------------------------ thermal names

  /** The cases of map_nvmlThermalController_t_to_string, in three blocks of
   *  six; each number is the nvml.h value of the constant its string names. */
  const ThermalControllerNames: seq<(int, string)> :=
    ControllerCases0 + ControllerCases1 + ControllerCases2

  const ControllerCases0: seq<(int, string)> := [
    (0, "NVML_THERMAL_CONTROLLER_NONE"),
    (1, "NVML_THERMAL_CONTROLLER_GPU_INTERNAL"),
    (2, "NVML_THERMAL_CONTROLLER_ADM1032"),
    (3, "NVML_THERMAL_CONTROLLER_ADT7461"),
    (4, "NVML_THERMAL_CONTROLLER_MAX6649"),
    (5, "NVML_THERMAL_CONTROLLER_MAX1617")
  ]

  const ControllerCases1: seq<(int, string)> := [
    (6, "NVML_THERMAL_CONTROLLER_LM99"),
    (7, "NVML_THERMAL_CONTROLLER_LM89"),
    (8, "NVML_THERMAL_CONTROLLER_LM64"),
    (9, "NVML_THERMAL_CONTROLLER_G781"),
    (10, "NVML_THERMAL_CONTROLLER_ADT7473"),
    (11, "NVML_THERMAL_CONTROLLER_SBMAX6649")
  ]

  const ControllerCases2: seq<(int, string)> := [
    (12, "NVML_THERMAL_CONTROLLER_VBIOSEVT"),
    (13, "NVML_THERMAL_CONTROLLER_OS"),
    (14, "NVML_THERMAL_CONTROLLER_NVSYSCON_CANOAS"),
    (15, "NVML_THERMAL_CONTROLLER_NVSYSCON_E551"),
    (16, "NVML_THERMAL_CONTROLLER_MAX6649R"),
    (17, "NVML_THERMAL_CONTROLLER_ADT7473S")
  ]

  const ControllerUnknownName: string := "NVML_THERMAL_CONTROLLER_UNKNOWN"

  /** map_nvmlThermalController_t_to_string: each listed controller gets its
   *  own name, anything else the _UNKNOWN name. */
  function ThermalControllerName(c: int): (name: string)
    ensures name == ControllerUnknownName <==> c !in Keys(ThermalControllerNames)
    ensures name != ControllerUnknownName ==>
              Lookup(Invert(ThermalControllerNames), name, -1) == c
  {
    ThermalNamesClosed();
    ExactMatch(ThermalControllerNames, c, ControllerUnknownName, -1);
    Lookup(ThermalControllerNames, c, ControllerUnknownName)
  }

  /** The cases of map_nvmlThermalTarget_t_to_string (nvml.h values). */
  const ThermalTargetNames: seq<(int, string)> := [
    (0, "NVML_THERMAL_TARGET_NONE"),
    (1, "NVML_THERMAL_TARGET_GPU"),
    (2, "NVML_THERMAL_TARGET_MEMORY"),
    (4, "NVML_THERMAL_TARGET_POWER_SUPPLY"),
    (8, "NVML_THERMAL_TARGET_BOARD"),
    (9, "NVML_THERMAL_TARGET_VCD_BOARD"),
    (10, "NVML_THERMAL_TARGET_VCD_INLET"),
    (11, "NVML_THERMAL_TARGET_VCD_OUTLET"),
    (15, "NVML_THERMAL_TARGET_ALL")
  ]

  const TargetUnknownName: string := "NVML_THERMAL_TARGET_UNKNOWN"

  /** map_nvmlThermalTarget_t_to_string: each listed target gets its own
   *  name, anything else the _UNKNOWN name. */
  function ThermalTargetName(t: int): (name: string)
    ensures name == TargetUnknownName <==> t !in Keys(ThermalTargetNames)
    ensures name != TargetUnknownName ==>
              Lookup(Invert(ThermalTargetNames), name, -1) == t
  {
    ThermalNamesClosed();
    ExactMatch(ThermalTargetNames, t, TargetUnknownName, -1);
    Lookup(ThermalTargetNames, t, TargetUnknownName)
  }

  /** Both thermal switches list each value once, each name once, and never
   *  their default's name. */
  lemma ThermalNamesClosed()
    ensures Closed(ThermalControllerNames, ControllerUnknownName)
    ensures Closed(ThermalTargetNames, TargetUnknownName)
  {
    ControllerCasesClosed0(); ControllerCasesClosed1(); ControllerCasesClosed2();
    ControllerCasesApart01(); ControllerCasesApart02(); ControllerCasesApart12();
    var c0, c1, c2 := ControllerCases0, ControllerCases1, ControllerCases2;
    ClosedConcat(c0, c1, ControllerUnknownName);
    ApartConcat(c0, c1, c2);
    ClosedConcat(c0 + c1, c2, ControllerUnknownName);
    TargetCasesClosed();
  }

  lemma ControllerCasesClosed0() ensures Closed(ControllerCases0, ControllerUnknownName) {}
  lemma ControllerCasesClosed1() ensures Closed(ControllerCases1, ControllerUnknownName) {}
  lemma ControllerCasesClosed2() ensures Closed(ControllerCases2, ControllerUnknownName) {}
  lemma ControllerCasesApart01() ensures Apart(ControllerCases0, ControllerCases1) {}
  lemma ControllerCasesApart02() ensures Apart(ControllerCases0, ControllerCases2) {}
  lemma ControllerCasesApart12() ensures Apart(ControllerCases1, ControllerCases2) {}
  lemma TargetCasesClosed() ensures Closed(ThermalTargetNames, TargetUnknownName) {}
}
