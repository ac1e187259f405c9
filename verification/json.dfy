/** The json-c surface the daemon touches, abstracted.
 *
 *  A parsed request is the map from member name to member of its root
 *  object.  `json_object_object_get` yields NULL both for an absent member
 *  and for a member whose value is JSON null, so neither appears in the map.
 *  A member carries what the two getters the daemon calls would return:
 *  `json_object_get_string` (a string, or NULL) and `json_object_get_int`
 *  (an int32_t).
 */
module Json {
  import opened Options

  /** int32_t */
  type Int32 = x: int | -0x8000_0000 <= x < 0x8000_0000

  /** What json_object_get_string and json_object_get_int return for a
   *  member. */
  datatype Member = Member(text: Option<string>, asInt: Int32)

  /** The members of the root object of a parsed request. */
  type Document = map<string, Member>

  /** The conversion of an int32_t to uint32_t: negative values wrap
   *  around modulo 2^32. */
  function ToUint32(x: Int32): (u: nat)
    ensures u < 0x1_0000_0000
    ensures u % 0x1_0000_0000 == x % 0x1_0000_0000
    ensures u == 0 <==> x == 0
  {
    if x < 0 then x + 0x1_0000_0000 else x
  }
}
