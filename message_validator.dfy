/**
 * The inbound-frame schema: `type` is "message" or "ping"; a "message"
 * carries a `content` string of 1..2000 UTF-16 code units; a "ping" carries
 * no `content` at all.  Callers validate with `stripUnknown`, so any other
 * key is ignored.
 */
module MessageValidator {
  import opened Wrappers
  import opened JsStrings
  import opened Json
  import opened Joi

  const MAX_CONTENT: nat := 2000

  /** A frame that passed the schema, with what the pipeline reads from it. */
  datatype Inbound = ChatFrame(content: string) | PingFrame

  /** `messageSchema.validate(msg, {stripUnknown: true})`: the accepted frame, or `None` for an error. */
  function ValidateMessage(msg: Json): (r: Option<Inbound>)
    ensures r.Some? ==> msg.JObject?
    ensures r == Some(PingFrame) <==>
      msg.JObject? && Field(msg, "type") == Some(JString("ping")) && Field(msg, "content") == None
    ensures r.Some? && r.value.ChatFrame? <==>
      msg.JObject? && Field(msg, "type") == Some(JString("message"))
      && Field(msg, "content").Some? && StringWithin(Field(msg, "content").value, 1, MAX_CONTENT)
    ensures r.Some? && r.value.ChatFrame? ==> Field(msg, "content") == Some(JString(r.value.content))
  {
    if !msg.JObject? then None
    else
      match Field(msg, "type")
      case Some(JString(t)) =>
        if t == "message" then
          match Field(msg, "content")
          case Some(c) => if StringWithin(c, 1, MAX_CONTENT) then Some(ChatFrame(c.s)) else None
          case None => None
        else if t == "ping" then
          if Field(msg, "content").None? then Some(PingFrame) else None
        else None
      case _ => None
  }

  /** The frame a well-behaved client sends. */
  function EncodeInbound(i: Inbound): Json {
    match i
    case ChatFrame(c) => JObject(map["type" := JString("message"), "content" := JString(c)])
    case PingFrame => JObject(map["type" := JString("ping")])
  }

  /** Every frame the schema can accept is accepted back from its encoding, and the other way round. */
  lemma MessageRoundTrip(i: Inbound)
    ensures ValidateMessage(EncodeInbound(i)) == Some(i)
            <==> (i.ChatFrame? ==> 1 <= Utf16Length(i.content) <= MAX_CONTENT)
  {
  }

  /** Keys other than `type` and `content` never change the verdict. */
  lemma UnknownKeysIgnored(fields: map<string, Json>, k: string, v: Json)
    requires k != "type" && k != "content"
    ensures ValidateMessage(JObject(fields[k := v])) == ValidateMessage(JObject(fields))
  {
    assert Field(JObject(fields[k := v]), "type") == Field(JObject(fields), "type");
    assert Field(JObject(fields[k := v]), "content") == Field(JObject(fields), "content");
  }

  /** A ping with any `content`, even `null` or "", is invalid. */
  lemma PingWithContentRejected(fields: map<string, Json>, c: Json)
    requires fields["type" := JString("ping")]["content" := c] == fields
    ensures ValidateMessage(JObject(fields)) == None
  {
    assert Field(JObject(fields), "content") == Some(c);
  }

  /**
   * The schema does not trim: content made only of white space passes, and
   * the pipeline's later `trim()` turns it into "".
   */
  lemma BlankContentPasses(w: string)
    requires w != [] && |w| <= MAX_CONTENT && forall i :: 0 <= i < |w| ==> IsJsWhitespace(w[i])
    ensures ValidateMessage(EncodeInbound(ChatFrame(w))) == Some(ChatFrame(w))
    ensures Trim(w) == ""
  {
    BmpLength(w);
    TrimStartSuffix(w);
  }

  /** White space is in the Basic Multilingual Plane: one UTF-16 unit per character. */
  lemma {:induction false} BmpLength(w: string)
    requires forall i :: 0 <= i < |w| ==> IsJsWhitespace(w[i])
    ensures Utf16Length(w) == |w|
  {
    if |w| > 0 {
      BmpLength(w[1..]);
    }
  }

  /** A frame without a `type` string of "message" or "ping" is invalid, whatever else it holds. */
  lemma TypeRequired(msg: Json)
    requires Field(msg, "type") != Some(JString("message")) && Field(msg, "type") != Some(JString("ping"))
    ensures ValidateMessage(msg) == None
  {
  }
}
