/** The string-to-enum maps used to read enumerated request fields
 *  (src/helpers.c, with the restricted-API and power-scope maps repeated as
 *  static copies in src/helpers.h).  Each is an if-chain of exact,
 *  case-sensitive `strcmp` tests returning an NVML constant, with a sentinel
 *  when nothing matches.  Values are those of nvml.h; CHAR_MAX is 127.
 */
module Enums {
  import opened Tables

  /** The spelling a table gives to value `v` (empty when none does). */
  function SpellingOf(table: seq<(string, int)>, v: int): string
  {
    Lookup(Invert(table), v, "")
  }

  // ------------------------------------------------------- restricted API

  const NVML_RESTRICTED_API_COUNT: int := 2

  const RestrictedApiSpellings: seq<(string, int)> := [
    ("NVML_RESTRICTED_API_SET_APPLICATION_CLOCKS", 0),
    ("NVML_RESTRICTED_API_SET_AUTO_BOOSTED_CLOCKS", 1)
  ]

  /** map_nvmlRestrictedAPI_t_to_enum */
  function RestrictedApiToEnum(s: string): (api: int)
    ensures api == NVML_RESTRICTED_API_COUNT <==> s !in Keys(RestrictedApiSpellings)
    ensures api != NVML_RESTRICTED_API_COUNT ==> SpellingOf(RestrictedApiSpellings, api) == s
  {
    ExactMatch(RestrictedApiSpellings, s, NVML_RESTRICTED_API_COUNT, "");
    Lookup(RestrictedApiSpellings, s, NVML_RESTRICTED_API_COUNT)
  }

  // ------------------------------------------------------------ clock id

  const NVML_CLOCK_ID_COUNT: int := 4

  const ClockIdSpellings: seq<(string, int)> := [
    ("NVML_CLOCK_ID_CURRENT", 0),
    ("NVML_CLOCK_ID_APP_CLOCK_TARGET", 1),
    ("NVML_CLOCK_ID_APP_CLOCK_DEFAULT", 2),
    ("NVML_CLOCK_ID_CUSTOMER_BOOST_MAX", 3)
  ]

  /** map_nvmlClockId_t_to_enum */
  function ClockIdToEnum(s: string): (id: int)
    ensures id == NVML_CLOCK_ID_COUNT <==> s !in Keys(ClockIdSpellings)
    ensures id != NVML_CLOCK_ID_COUNT ==> SpellingOf(ClockIdSpellings, id) == s
  {
    ExactMatch(ClockIdSpellings, s, NVML_CLOCK_ID_COUNT, "");
    Lookup(ClockIdSpellings, s, NVML_CLOCK_ID_COUNT)
  }

  // ---------------------------------------------------------- clock type

  const NVML_CLOCK_COUNT: int := 4

  const ClockTypeSpellings: seq<(string, int)> := [
    ("NVML_CLOCK_GRAPHICS", 0),
    ("NVML_CLOCK_SM", 1),
    ("NVML_CLOCK_MEM", 2),
    ("NVML_CLOCK_VIDEO", 3)
  ]

  /** map_nvmlClockType_t_to_enum */
  function ClockTypeToEnum(s: string): (clock: int)
    ensures clock == NVML_CLOCK_COUNT <==> s !in Keys(ClockTypeSpellings)
    ensures clock != NVML_CLOCK_COUNT ==> SpellingOf(ClockTypeSpellings, clock) == s
  {
    ExactMatch(ClockTypeSpellings, s, NVML_CLOCK_COUNT, "");
    Lookup(ClockTypeSpellings, s, NVML_CLOCK_COUNT)
  }

  // ------------------------------------------------------------- pstates

  const NVML_PSTATE_UNKNOWN: int := 32

  const PstateSpellings: seq<(string, int)> := [
    ("NVML_PSTATE_0", 0), ("NVML_PSTATE_1", 1), ("NVML_PSTATE_2", 2), ("NVML_PSTATE_3", 3),
    ("NVML_PSTATE_4", 4), ("NVML_PSTATE_5", 5), ("NVML_PSTATE_6", 6), ("NVML_PSTATE_7", 7),
    ("NVML_PSTATE_8", 8), ("NVML_PSTATE_9", 9), ("NVML_PSTATE_10", 10), ("NVML_PSTATE_11", 11),
    ("NVML_PSTATE_12", 12), ("NVML_PSTATE_13", 13), ("NVML_PSTATE_14", 14), ("NVML_PSTATE_15", 15)
  ]

  /** map_nvmlPstates_t_to_enum */
  function PstateToEnum(s: string): (pstate: int)
    ensures pstate == NVML_PSTATE_UNKNOWN <==> s !in Keys(PstateSpellings)
    ensures pstate != NVML_PSTATE_UNKNOWN ==> SpellingOf(PstateSpellings, pstate) == s
  {
    PstatesClosed();
    ExactMatch(PstateSpellings, s, NVML_PSTATE_UNKNOWN, "");
    Lookup(PstateSpellings, s, NVML_PSTATE_UNKNOWN)
  }

  /** "NVML_PSTATE_0" to "NVML_PSTATE_15" are sixteen different spellings
   *  of sixteen different states, none of them the sentinel. */
  lemma PstatesClosed()
    ensures Closed(PstateSpellings, NVML_PSTATE_UNKNOWN)
  {
    assert Distinct(Keys(PstateSpellings));
  }

  // --------------------------------------------------------- power scope

  const CHAR_MAX: int := 127

  const PowerScopeSpellings: seq<(string, int)> := [
    ("NVML_POWER_SCOPE_GPU", 0),
    ("NVML_POWER_SCOPE_MODULE", 1),
    ("NVML_POWER_SCOPE_MEMORY", 2)
  ]

  /** map_nvmlPowerScopeType_t_to_enum: the scope for its three exact
   *  spellings, CHAR_MAX for every other string. */
  function PowerScopeToEnum(s: string): (scope: int)
    ensures scope == CHAR_MAX <==> s !in Keys(PowerScopeSpellings)
    ensures scope != CHAR_MAX ==> SpellingOf(PowerScopeSpellings, scope) == s
  {
    ExactMatch(PowerScopeSpellings, s, CHAR_MAX, "");
    Lookup(PowerScopeSpellings, s, CHAR_MAX)
  }

  // ------------------------------------------------ temperature thresholds

  const NVML_TEMPERATURE_THRESHOLD_COUNT: int := 8

  const ThresholdSpellings: seq<(string, int)> := [
    ("NVML_TEMPERATURE_THRESHOLD_SHUTDOWN", 0),
    ("NVML_TEMPERATURE_THRESHOLD_SLOWDOWN", 1),
    ("NVML_TEMPERATURE_THRESHOLD_MEM_MAX", 2),
    ("NVML_TEMPERATURE_THRESHOLD_GPU_MAX", 3),
    ("NVML_TEMPERATURE_THRESHOLD_ACOUSTIC_MIN", 4),
    ("NVML_TEMPERATURE_THRESHOLD_ACOUSTIC_CURR", 5),
    ("NVML_TEMPERATURE_THRESHOLD_ACOUSTIC_MAX", 6),
    ("NVML_TEMPERATURE_THRESHOLD_GPS_CURR", 7)
  ]

  /** map_nvmlTemperatureThresholds_t_to_enum */
  function ThresholdToEnum(s: string): (threshold: int)
    ensures threshold == NVML_TEMPERATURE_THRESHOLD_COUNT <==> s !in Keys(ThresholdSpellings)
    ensures threshold != NVML_TEMPERATURE_THRESHOLD_COUNT ==>
              SpellingOf(ThresholdSpellings, threshold) == s
  {
    ExactMatch(ThresholdSpellings, s, NVML_TEMPERATURE_THRESHOLD_COUNT, "");
    Lookup(ThresholdSpellings, s, NVML_TEMPERATURE_THRESHOLD_COUNT)
  }

  // Every listed spelling gets its own row's constant: the spellings of a
  // table are pairwise distinct, so at most one comparison can succeed and
  // the order of the comparisons does not affect the result.

  lemma RestrictedApiListed(i: nat)
    requires i < |RestrictedApiSpellings|
    ensures RestrictedApiToEnum(RestrictedApiSpellings[i].0) == RestrictedApiSpellings[i].1
  {
    LookupListed(RestrictedApiSpellings, i, NVML_RESTRICTED_API_COUNT);
  }

  lemma ClockIdListed(i: nat)
    requires i < |ClockIdSpellings|
    ensures ClockIdToEnum(ClockIdSpellings[i].0) == ClockIdSpellings[i].1
  {
    LookupListed(ClockIdSpellings, i, NVML_CLOCK_ID_COUNT);
  }

  lemma ClockTypeListed(i: nat)
    requires i < |ClockTypeSpellings|
    ensures ClockTypeToEnum(ClockTypeSpellings[i].0) == ClockTypeSpellings[i].1
  {
    LookupListed(ClockTypeSpellings, i, NVML_CLOCK_COUNT);
  }

  lemma PstateListed(i: nat)
    requires i < |PstateSpellings|
    ensures PstateToEnum(PstateSpellings[i].0) == PstateSpellings[i].1
  {
    PstatesClosed(); LookupListed(PstateSpellings, i, NVML_PSTATE_UNKNOWN);
  }

  lemma PowerScopeListed(i: nat)
    requires i < |PowerScopeSpellings|
    ensures PowerScopeToEnum(PowerScopeSpellings[i].0) == PowerScopeSpellings[i].1
  {
    LookupListed(PowerScopeSpellings, i, CHAR_MAX);
  }

  lemma ThresholdListed(i: nat)
    requires i < |ThresholdSpellings|
    ensures ThresholdToEnum(ThresholdSpellings[i].0) == ThresholdSpellings[i].1
  {
    LookupListed(ThresholdSpellings, i, NVML_TEMPERATURE_THRESHOLD_COUNT);
  }

  /** The comparisons are exact and case-sensitive: a lower-case or padded
   *  spelling is not recognised. */
  lemma ExactSpellingsOnly()
    ensures PowerScopeToEnum("NVML_POWER_SCOPE_GPU") == 0
    ensures PowerScopeToEnum("nvml_power_scope_gpu") == CHAR_MAX
    ensures PowerScopeToEnum("NVML_POWER_SCOPE_GPU ") == CHAR_MAX
    ensures PstateToEnum("NVML_PSTATE_16") == NVML_PSTATE_UNKNOWN
  {
    assert "nvml_power_scope_gpu" !in Keys(PowerScopeSpellings);
    assert "NVML_POWER_SCOPE_GPU " !in Keys(PowerScopeSpellings);
    assert "NVML_PSTATE_16" !in Keys(PstateSpellings);
  }
}
