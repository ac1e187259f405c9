/** CHECK_AUTHORIZATION (src/network.h:52-73): the gate a handler would
 *  pass before its privileged code.  No handler in src/network.c invokes it
 *  and `is_authorized` is defined nowhere in the repository, so the gate is
 *  modelled on its own, with the bearer check as an oracle.
 *
 *  The macro's `return` leaves the calling handler; its `break` leaves the
 *  macro's own do-while and lets the handler go on.  When the bearer is
 *  rejected the macro writes AUTHORIZATION_FAILED and then simply reaches
 *  the end of its do-while: the handler goes on as if authorized.
 */
module Gate {
  import opened Options
  import opened Envelope
  import opened Json
  import opened Outcomes

  const BEARER_MISSING: string := "Invalid JSON schema: 'bearer' field does not exist in $ (root) jobj"
  const BEARER_INVALID: string := "Invalid JSON schema: 'bearer' field does have a valid value"

  /** What the gate writes, and whether the calling handler goes on. */
  datatype Verdict = Verdict(written: seq<Response>, proceed: bool)

  /** The bearer the request carries, when it has a string value. */
  predicate HasBearer(doc: Document)
  {
    "bearer" in doc && doc["bearer"].text.Some?
  }

  /** CHECK_AUTHORIZATION as written; `insecure` is whether the daemon was
   *  built with INSECURE, `isAuthorized` stands for is_authorized. */
  function CheckAuthorization(doc: Document, isAuthorized: string -> bool, insecure: bool): (v: Verdict)
    // INSECURE: a no-op.
    ensures insecure ==> v == Verdict([], true)
    // A missing bearer, or one without a string value, ends the handler
    // after one INVALID_JSON_SCHEMA reply, before is_authorized is asked.
    ensures !insecure && !HasBearer(doc) ==>
              !v.proceed && |v.written| == 1 && v.written[0].status == Some(INVALID_JSON_SCHEMA)
              && v.written[0].data == None
    // An accepted bearer passes silently.
    ensures !insecure && HasBearer(doc) && isAuthorized(doc["bearer"].text.value) ==> v == Verdict([], true)
    // A rejected bearer is told AUTHORIZATION_FAILED, and the handler goes on.
    ensures !insecure && HasBearer(doc) && !isAuthorized(doc["bearer"].text.value) ==>
              v == Verdict([Reply(AUTHORIZATION_FAILED, AUTHORIZATION_FAILED)], true)
  {
    if insecure then Verdict([], true)
    else if "bearer" !in doc then Verdict([Reply(INVALID_JSON_SCHEMA, BEARER_MISSING)], false)
    else if doc["bearer"].text.None? then Verdict([Reply(INVALID_JSON_SCHEMA, BEARER_INVALID)], false)
    else if isAuthorized(doc["bearer"].text.value) then Verdict([], true)
    else Verdict([Reply(AUTHORIZATION_FAILED, AUTHORIZATION_FAILED)], true)
  }

  /** The gate as evidently intended: a rejected bearer also ends the
   *  handler. */
  function CheckAuthorizationIntended(doc: Document, isAuthorized: string -> bool, insecure: bool): (v: Verdict)
    ensures v.proceed <==> insecure || (HasBearer(doc) && isAuthorized(doc["bearer"].text.value))
    ensures v.proceed ==> v.written == []
    ensures !v.proceed ==> |v.written| == 1 && v.written[0].data == None
  {
    if insecure then Verdict([], true)
    else if "bearer" !in doc then Verdict([Reply(INVALID_JSON_SCHEMA, BEARER_MISSING)], false)
    else if doc["bearer"].text.None? then Verdict([Reply(INVALID_JSON_SCHEMA, BEARER_INVALID)], false)
    else if isAuthorized(doc["bearer"].text.value) then Verdict([], true)
    else Verdict([Reply(AUTHORIZATION_FAILED, AUTHORIZATION_FAILED)], false)
  }

  /** As written, every request with a string bearer reaches the handler's
   *  privileged code, whatever is_authorized says; the intended gate lets
   *  through exactly the accepted ones.  The two write the same replies and
   *  differ only in whether a rejected request goes on. */
  lemma GateFallsThrough(doc: Document, isAuthorized: string -> bool, insecure: bool)
    ensures CheckAuthorization(doc, isAuthorized, insecure).proceed <==> insecure || HasBearer(doc)
    ensures CheckAuthorization(doc, isAuthorized, insecure).written
            == CheckAuthorizationIntended(doc, isAuthorized, insecure).written
    ensures CheckAuthorization(doc, isAuthorized, insecure).proceed
            != CheckAuthorizationIntended(doc, isAuthorized, insecure).proceed
            <==> !insecure && HasBearer(doc) && !isAuthorized(doc["bearer"].text.value)
  {
  }

  /** A concrete request the gate as written lets through: a bearer that
   *  nothing authorizes. */
  lemma RejectedBearerProceeds()
    ensures var doc := map["bearer" := Member(Some("forged"), 0)];
            var v := CheckAuthorization(doc, _ => false, false);
            v.proceed && v.written == [Reply(AUTHORIZATION_FAILED, AUTHORIZATION_FAILED)]
            && !CheckAuthorizationIntended(doc, _ => false, false).proceed
  {
  }
}
