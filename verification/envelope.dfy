/** The response envelope (src/network.h): the protocol status names, the
 *  STRINGIFY_NULLABLE rule and RESPOND, which sizes a buffer, formats the
 *  fixed three-field object into it and writes it to the client.
 *
 *  Strings are spliced between quotes with no escaping (section 7 of RFC 8259
 *  requires `"` and `\` to be escaped), so the text decodes back only when the
 *  status and description hold no quote; EnvelopeAmbiguous shows two
 *  responses with the same text.
 */
module Envelope {
  import opened Options
  import opened Socket

  /** SO_INPUT_BUFFER_SIZE: the request buffer holds at most 8 KiB. */
  const SO_INPUT_BUFFER_SIZE: nat := 8192

  const JSON_PARSING_FAILED: string := "JSON_PARSING_FAILED"
  const INVALID_JSON_SCHEMA: string := "INVALID_JSON_SCHEMA"
  const AUTHORIZATION_FAILED: string := "AUTHORIZATION_FAILED"
  const UNDEFINED_INVALID_ACTION: string := "UNDEFINED_INVALID_ACTION"

  /** The four protocol statuses are four different strings. */
  lemma ProtocolStatusesDistinct()
    ensures |{JSON_PARSING_FAILED, INVALID_JSON_SCHEMA, AUTHORIZATION_FAILED, UNDEFINED_INVALID_ACTION}| == 4
  {
  }

  /** The three arguments of one RESPOND; None stands for a NULL pointer. */
  datatype Response = Response(data: Option<string>, status: Option<string>, description: Option<string>)

  /** STRINGIFY_NULLABLE: the string itself, or the literal null. */
  function Stringify(s: Option<string>): string
  {
    if s.None? then "null" else s.value
  }

  /** A string-valued field of the envelope: the string between double
   *  quotes, or a bare null when the pointer is NULL. */
  function QuotedOrNull(s: Option<string>): string
  {
    if s.None? then "null" else "\"" + s.value + "\""
  }

  const DataKey: string := "{ \"data\": "
  const StatusKey: string := ", \"status\": "
  const DescriptionKey: string := ", \"description\": "

  /** The text RESPOND writes: data verbatim (unquoted), status and
   *  description quoted or null. */
  function Envelope(r: Response): string
  {
    DataKey + EnvelopeFields(r) + "}"
  }

  /** What the template puts between the data key and the closing brace. */
  function EnvelopeFields(r: Response): string
  {
    EnvelopeHead(r.data, r.status) + DescriptionKey + QuotedOrNull(r.description)
  }

  /** The data and status fields with the status key between them. */
  function EnvelopeHead(data: Option<string>, status: Option<string>): string
  {
    Stringify(data) + StatusKey + QuotedOrNull(status)
  }

  /** `strlen(s)` for a string, 4 for NULL. */
  function NullableLength(s: Option<string>): nat
  {
    if s.None? then 4 else |s.value|
  }

  /** `len` in RESPOND: the three lengths plus 96. */
  function SendBufferLength(r: Response): nat
  {
    NullableLength(r.data) + NullableLength(r.status) + NullableLength(r.description) + 96
  }

  /** A NULL field is always the four characters `null`; a present string
   *  field is at least the two quotes, so never `null`, empty or ambiguous
   *  with NULL. */
  lemma NullIsLiteralNull(s: Option<string>, t: Option<string>)
    ensures s.None? ==> QuotedOrNull(s) == "null"
    ensures s.Some? ==> |QuotedOrNull(s)| == |s.value| + 2 && QuotedOrNull(s)[0] == '"'
    ensures QuotedOrNull(s) == QuotedOrNull(t) ==> s == t
  {
    FirstCharacter(s);
    FirstCharacter(t);
    if s.Some? && t.Some? && QuotedOrNull(s) == QuotedOrNull(t) {
      assert s.value == QuotedOrNull(s)[1..|QuotedOrNull(s)| - 1];
    }
  }

  /** A field starts with `n` when NULL and with a quote otherwise. */
  lemma FirstCharacter(s: Option<string>)
    ensures |QuotedOrNull(s)| > 0
    ensures QuotedOrNull(s)[0] == if s.None? then 'n' else '"'
  {
  }

  /** The template has 40 fixed characters, plus two quotes around each
   *  present string field. */
  lemma EnvelopeLength(r: Response)
    ensures |Envelope(r)| == NullableLength(r.data) + NullableLength(r.status)
              + NullableLength(r.description) + 40
              + (if r.status.Some? then 2 else 0) + (if r.description.Some? then 2 else 0)
  {
    assert |DataKey| == 10 && |StatusKey| == 12 && |DescriptionKey| == 17;
  }

  /** RESPOND never truncates: the text and its terminator fit in the
   *  `len - 1` bytes snprintf is allowed to write. */
  lemma EnvelopeFits(r: Response)
    ensures |Envelope(r)| + 1 <= SendBufferLength(r) - 1
  {
    EnvelopeLength(r);
  }

  /** How many characters snprintf stores of a `length`-character text
   *  given room for `size` bytes: all of it, or `size - 1` and the
   *  terminator. */
  function SnprintfStored(length: nat, size: nat): (stored: nat)
    requires size > 0
    ensures stored < size && stored <= length
    ensures stored == length || stored == size - 1
  {
    if length < size then length else size - 1
  }

  /** RESPOND (network.h:35-50): calloc `len` bytes, snprintf the envelope
   *  into the first `len - 1`, write `bytes_to_send` (snprintf's return
   *  value, the untruncated length) to the client. */
  method Respond(client: Client, r: Response)
    modifies client
    ensures client.sent == old(client.sent) + [Envelope(r)]
    ensures client.pending == old(client.pending) && client.requested == old(client.requested)
  {
    var len := SendBufferLength(r);
    var sendBuffer := new char[len];
    var text := Envelope(r);
    // snprintf(send_buffer, len - 1, ...) stores what fits and a terminator,
    // and returns the length of the whole text.
    var stored := SnprintfStored(|text|, len - 1);
    forall i | 0 <= i < stored {
      sendBuffer[i] := text[i];
    }
    sendBuffer[stored] := '\0';
    var bytesToSend := |text|;
    EnvelopeFits(r);
    assert sendBuffer[..bytesToSend] == text;
    client.Write(sendBuffer[..bytesToSend]);
  }

  // ------------------------------------------------------------ decoding

  /** The index of the last `c` in `t`, or -1. */
  function LastIndexOf(t: string, c: char): (i: int)
    ensures -1 <= i < |t|
    ensures i >= 0 ==> t[i] == c
  {
    if t == [] then -1
    else if t[|t| - 1] == c then |t| - 1
    else LastIndexOf(t[..|t| - 1], c)
  }

  /** Reads a quoted-or-null field off the end of `t`: the text before it
   *  and the field. */
  function TakeField(t: string): Option<(string, Option<string>)>
  {
    if |t| >= 4 && t[|t| - 4..] == "null" then Some((t[..|t| - 4], None))
    else if |t| >= 2 && t[|t| - 1] == '"' then
      var j := LastIndexOf(t[..|t| - 1], '"');
      if j < 0 then None else Some((t[..j], Some(t[j + 1..|t| - 1])))
    else None
  }

  /** Removes `suffix` from the end of `t`, when `t` ends with it. */
  function DropSuffix(t: string, suffix: string): Option<string>
  {
    if |suffix| <= |t| && t[|t| - |suffix|..] == suffix then Some(t[..|t| - |suffix|]) else None
  }

  /** Reads the three fields back out of an envelope text. */
  function DecodeEnvelope(t: string): Option<Response>
  {
    if |t| < |DataKey| + 1 || t[..|DataKey|] != DataKey || t[|t| - 1] != '}' then None
    else DecodeFields(t[|DataKey|..|t| - 1])
  }

  /** Reads the description off the end, then the data and status. */
  function DecodeFields(t: string): Option<Response>
  {
    match TakeField(t)
    case None => None
    case Some((beforeDescription, description)) =>
      match DropSuffix(beforeDescription, DescriptionKey)
      case None => None
      case Some(head) =>
        match DecodeHead(head)
        case None => None
        case Some((data, status)) => Some(Response(data, status, description))
  }

  /** Reads the status off the end, then takes the rest as the data. */
  function DecodeHead(t: string): Option<(Option<string>, Option<string>)>
  {
    match TakeField(t)
    case None => None
    case Some((beforeStatus, status)) =>
      match DropSuffix(beforeStatus, StatusKey)
      case None => None
      case Some(d) => Some((if d == "null" then None else Some(d), status))
  }

  /** A response the envelope can carry without loss: no quote inside the
   *  status or description, and data other than the text `null`. */
  predicate Unambiguous(r: Response)
  {
    (r.status.Some? ==> '"' !in r.status.value)
    && (r.description.Some? ==> '"' !in r.description.value)
    && r.data != Some("null")
  }

  lemma {:induction false} LastQuoteOf(p: string, x: string)
    requires '"' !in x
    ensures LastIndexOf(p + "\"" + x, '"') == |p|
  {
    if x != [] {
      var t := p + "\"" + x;
      assert t[..|t| - 1] == p + "\"" + x[..|x| - 1];
      LastQuoteOf(p, x[..|x| - 1]);
    }
  }

  lemma TakeQuotedOrNull(p: string, s: Option<string>)
    requires s.Some? ==> '"' !in s.value
    ensures TakeField(p + QuotedOrNull(s)) == Some((p, s))
  {
    if s.None? {
      var t := p + "null";
      assert t[|t| - 4..] == "null" && t[..|t| - 4] == p;
    } else {
      TakeQuoted(p, s.value);
    }
  }

  lemma TakeQuoted(p: string, v: string)
    requires '"' !in v
    ensures TakeField(p + ("\"" + v + "\"")) == Some((p, Some(v)))
  {
    var t := p + ("\"" + v + "\"");
    var n := |t|;
    assert t[n - 1] == '"';
    assert !(n >= 4 && t[n - 4..] == "null") by {
      if n >= 4 {
        assert t[n - 4..][3] == t[n - 1];
      }
    }
    assert t[..n - 1] == p + "\"" + v;
    LastQuoteOf(p, v);
    assert t[..|p|] == p;
    assert t[|p| + 1..n - 1] == v;
  }

  lemma DropSuffixOf(p: string, suffix: string)
    ensures DropSuffix(p + suffix, suffix) == Some(p)
  {
    var t := p + suffix;
    assert t[|t| - |suffix|..] == suffix && t[..|t| - |suffix|] == p;
  }

  /** Round trip: the three fields come back out of the envelope text,
   *  `null` standing for NULL, whenever the response is unambiguous. */
  lemma DecodeEnvelopeRoundTrip(r: Response)
    requires Unambiguous(r)
    ensures DecodeEnvelope(Envelope(r)) == Some(r)
  {
    var t := Envelope(r);
    assert t[..|DataKey|] == DataKey;
    assert t[|DataKey|..|t| - 1] == EnvelopeFields(r);
    FieldsRoundTrip(r);
  }

  lemma FieldsRoundTrip(r: Response)
    requires Unambiguous(r)
    ensures DecodeFields(EnvelopeFields(r)) == Some(r)
  {
    var head := EnvelopeHead(r.data, r.status);
    TakeQuotedOrNull(head + DescriptionKey, r.description);
    DropSuffixOf(head, DescriptionKey);
    HeadRoundTrip(r.data, r.status);
  }

  lemma HeadRoundTrip(data: Option<string>, status: Option<string>)
    requires status.Some? ==> '"' !in status.value
    requires data != Some("null")
    ensures DecodeHead(EnvelopeHead(data, status)) == Some((data, status))
  {
    TakeQuotedOrNull(Stringify(data) + StatusKey, status);
    DropSuffixOf(Stringify(data), StatusKey);
  }

  /** Without escaping the text does not determine the response: a quote
   *  in the status can imitate the description key. */
  lemma EnvelopeAmbiguous(a: string, b: string, c: string)
    ensures var k := "\"" + DescriptionKey + "\"";
            var r1 := Response(None, Some(a + k + b), Some(c));
            var r2 := Response(None, Some(a), Some(b + k + c));
            r1 != r2 && Envelope(r1) == Envelope(r2)
  {
    var k := "\"" + DescriptionKey + "\"";
    assert |a + k + b| > |a|;
    SplicedKey("null" + StatusKey, a, b, c, "\"", DescriptionKey);
  }

  /** Moving the key `q + key + q` from the end of one quoted field to the
   *  start of the next leaves the text unchanged. */
  lemma SplicedKey(x: string, a: string, b: string, c: string, q: string, key: string)
    ensures var k := q + key + q;
            x + (q + (a + k + b) + q) + key + (q + c + q)
            == x + (q + a + q) + key + (q + (b + k + c) + q)
  {
  }
}
