/** src/socketMessages.js: the envelope the client sends to the chatbot
    server, and the classification of what the server sends back. */
module SocketMessages {
  import opened Wrappers
  import opened JsValue

  /** The second argument of `formatOutgoingMessage`; `None` where the
      caller leaves a key out. */
  datatype Options = Options(
    messageType: Option<string>,
    getConfig: Option<bool>,
    sender: Option<string>,
    tenant: Option<string>)

  /** `{}`, the default second argument. */
  const NoOptions: Options := Options(None, None, None, None)

  /** The globals `formatOutgoingMessage` falls back on: the stored
      fingerprint (`undefined` until one is set), the `tenant` query
      parameter of the page URL (`null` when absent) and `TENANT_ID`. */
  datatype Ambient = Ambient(fingerprint: Option<string>, urlTenant: Option<string>, tenantId: string)

  /** The object `formatOutgoingMessage` returns. `sender` is `None` when
      it is `undefined`; each payload field is `None` when the key is not set. */
  datatype Envelope = Envelope(
    tenant: string,
    sender: Option<string>,
    getConfig: bool,
    message: Option<string>,
    audioB64: Option<string>,
    fileB64: Option<string>)

  /** The tenant the envelope carries: the option, else the URL's `tenant`
      query, else `TENANT_ID`; an empty string counts as absent. */
  function TenantOf(opts: Options, amb: Ambient): string {
    if NonEmpty(opts.tenant) then opts.tenant.value
    else if NonEmpty(amb.urlTenant) then amb.urlTenant.value
    else amb.tenantId
  }

  /** The sender: the option, else the stored fingerprint. */
  function SenderOf(opts: Options, amb: Ambient): Option<string> {
    if NonEmpty(opts.sender) then opts.sender else amb.fingerprint
  }

  /** `formatOutgoingMessage(message, opts)`. A message is a string, `None`
      standing for `undefined` or `null`. */
  function FormatOutgoingMessage(message: Option<string>, opts: Options, amb: Ambient): (env: Envelope)
    ensures env.tenant == TenantOf(opts, amb) && env.sender == SenderOf(opts, amb)
    ensures env.getConfig <==> opts.getConfig == Some(true)
  {
    var getConfig := opts.getConfig == Some(true);
    var messageType := if NonEmpty(opts.messageType) then opts.messageType.value else "text";
    var base := Envelope(TenantOf(opts, amb), SenderOf(opts, amb), getConfig, None, None, None);
    if !NonEmpty(message) then base
    else if messageType == "text" then base.(message := message)
    else if messageType == "audio" then base.(audioB64 := message)
    else if messageType == "file" then base.(fileB64 := message)
    else base
  }

  /** Text with explicit tenant and sender. */
  lemma TextWithTenantAndSenderScenario(amb: Ambient)
    ensures FormatOutgoingMessage(Some("Hello"), Options(None, Some(false), Some("s1"), Some("t1")), amb)
      == Envelope("t1", Some("s1"), false, Some("Hello"), None, None)
  {
  }

  /** The number of payload keys an envelope has. */
  function PayloadCount(env: Envelope): nat {
    (if env.message.Some? then 1 else 0) + (if env.audioB64.Some? then 1 else 0)
    + (if env.fileB64.Some? then 1 else 0)
  }

  /** The type the options select; `text` when absent or empty. */
  predicate SelectsType(opts: Options, t: string) {
    if opts.messageType == None || opts.messageType == Some("") then t == "text" else opts.messageType == Some(t)
  }

  /** An envelope carries at most one of `message`, `audio_b64`, `file_b64`. */
  lemma AtMostOnePayload(message: Option<string>, opts: Options, amb: Ambient)
    ensures PayloadCount(FormatOutgoingMessage(message, opts, amb)) <= 1
  {
  }

  /** A falsy message (`undefined`, `null` or `""`) gives no payload. */
  lemma FalsyMessageHasNoPayload(message: Option<string>, opts: Options, amb: Ambient)
    requires message == None || message == Some("")
    ensures PayloadCount(FormatOutgoingMessage(message, opts, amb)) == 0
  {
  }

  /** A non-empty message lands in the one key its type selects, and a
      type other than text, audio and file selects none. */
  lemma PayloadFollowsType(message: Option<string>, opts: Options, amb: Ambient)
    requires NonEmpty(message)
    ensures var env := FormatOutgoingMessage(message, opts, amb);
      && (env.message.Some? <==> SelectsType(opts, "text"))
      && (env.audioB64.Some? <==> SelectsType(opts, "audio"))
      && (env.fileB64.Some? <==> SelectsType(opts, "file"))
      && (env.message.Some? ==> env.message == message)
      && (env.audioB64.Some? ==> env.audioB64 == message)
      && (env.fileB64.Some? ==> env.fileB64 == message)
      && (PayloadCount(env) == 0 <==> !(SelectsType(opts, "text") || SelectsType(opts, "audio") || SelectsType(opts, "file")))
  {
  }

  /** Asking for the configuration does not suppress the payload. */
  lemma PayloadIgnoresGetConfig(message: Option<string>, opts: Options, amb: Ambient, g: Option<bool>)
    ensures var a, b := FormatOutgoingMessage(message, opts, amb), FormatOutgoingMessage(message, opts.(getConfig := g), amb);
      a.message == b.message && a.audioB64 == b.audioB64 && a.fileB64 == b.fileB64
  {
  }

  /** The tenant and sender defaults, with empty strings counting as absent. */
  lemma EnvelopeDefaults(message: Option<string>, opts: Options, amb: Ambient)
    ensures var env := FormatOutgoingMessage(message, opts, amb);
      && (NonEmpty(opts.tenant) ==> env.tenant == opts.tenant.value)
      && (!NonEmpty(opts.tenant) && NonEmpty(amb.urlTenant) ==> env.tenant == amb.urlTenant.value)
      && (!NonEmpty(opts.tenant) && !NonEmpty(amb.urlTenant) ==> env.tenant == amb.tenantId)
      && (NonEmpty(opts.sender) ==> env.sender == opts.sender)
      && (!NonEmpty(opts.sender) ==> env.sender == amb.fingerprint)
  {
  }

  /** The envelope as `JSON.stringify` writes it: the object's keys, minus
      `sender` when it is `undefined` and minus the unset payload keys. */
  function EnvelopeJson(env: Envelope): (fields: map<string, Json>)
    ensures "tenant" in fields && "get_config" in fields
    ensures "sender" in fields <==> env.sender.Some?
  {
    var always := map["tenant" := JStr(env.tenant), "get_config" := JBool(env.getConfig)];
    var withSender := if env.sender.Some? then always["sender" := JStr(env.sender.value)] else always;
    var withText := if env.message.Some? then withSender["message" := JStr(env.message.value)] else withSender;
    var withAudio := if env.audioB64.Some? then withText["audio_b64" := JStr(env.audioB64.value)] else withText;
    if env.fileB64.Some? then withAudio["file_b64" := JStr(env.fileB64.value)] else withAudio
  }

  /** The keys of a serialised envelope: `tenant` and `get_config` always,
      `sender` when known, and at most one payload key. */
  lemma EnvelopeJsonKeys(message: Option<string>, opts: Options, amb: Ambient)
    ensures var fields := EnvelopeJson(FormatOutgoingMessage(message, opts, amb));
      && fields["tenant"] == JStr(TenantOf(opts, amb))
      && fields["get_config"] == JBool(opts.getConfig == Some(true))
      && ("sender" in fields <==> SenderOf(opts, amb).Some?)
      && (forall k :: k in fields ==> k in {"tenant", "sender", "get_config", "message", "audio_b64", "file_b64"})
      && (if "message" in fields then 1 else 0) + (if "audio_b64" in fields then 1 else 0)
         + (if "file_b64" in fields then 1 else 0) <= 1
  {
  }

  // ----- defaultMessageParser ------------------------------------------------

  /** The object `defaultMessageParser` returns; `None` is `undefined`. */
  datatype Classified = Classified(
    isConfMessage: bool,
    conf: Option<Json>,
    displayAsCarousel: bool,
    quickReplies: Option<Json>,
    data: Option<Json>)

  /** `defaultMessageParser(message)`, with `JSON.parse` given as
      `jsonParse` (`None` when it throws a `SyntaxError`). The `in`
      operator throws a `TypeError` on a primitive, and reading `length`
      of a `null` `data` does too. An array has none of the keys read. */
  function DefaultMessageParser(jsonParse: string -> Option<Json>, message: string): (r: Result<Classified, JsError>)
    ensures jsonParse(message).None? ==> r == Failure(SyntaxError)
  {
    match jsonParse(message)
    case None => Failure(SyntaxError)
    case Some(parsed) =>
      if !(parsed.JObj? || parsed.JArr?) then Failure(TypeError)
      else
        var hasData := parsed.JObj? && "data" in parsed.fields;
        var carousel: Result<bool, JsError> :=
          if !hasData then Success(false)
          else match LengthOf(parsed.fields["data"])
            case Failure(e) => Failure(e)
            case Success(len) => Success(GreaterThanOne(len));
        if carousel.Failure? then Failure(carousel.error)
        else Success(Classified(
          parsed.JObj? && "conf" in parsed.fields,
          Property(parsed, "conf"),
          carousel.value,
          Property(parsed, "quick_replies"),
          Property(parsed, "data")))
  }

  /** The parser fails exactly when `JSON.parse` fails, when the value is
      not an object or array, or when `data` is present and `null`. */
  lemma ParserFailsExactly(jsonParse: string -> Option<Json>, message: string)
    ensures var r := DefaultMessageParser(jsonParse, message);
      var p := jsonParse(message);
      && (r == Failure(SyntaxError) <==> p.None?)
      && (r == Failure(TypeError) <==>
            p.Some? && (!(p.value.JObj? || p.value.JArr?) || Property(p.value, "data") == Some(JNull)))
      && (r.Failure? ==> r.error == SyntaxError || r.error == TypeError)
  {
  }

  /** For a parsed object or array: `isConfMessage` holds exactly when the
      key `conf` is present, and `conf`, `quick_replies` and `data` are
      copied as they are, `undefined` when absent. */
  lemma ParserCopiesFields(jsonParse: string -> Option<Json>, message: string)
    requires DefaultMessageParser(jsonParse, message).Success?
    ensures var c := DefaultMessageParser(jsonParse, message).value;
      var p := jsonParse(message).value;
      && (c.isConfMessage <==> p.JObj? && "conf" in p.fields)
      && c.conf == Property(p, "conf")
      && c.quickReplies == Property(p, "quick_replies")
      && c.data == Property(p, "data")
      && (c.isConfMessage <==> c.conf.Some?)
  {
  }

  /** `displayAsCarousel` holds exactly when `data` is present with a length above one. */
  lemma CarouselIffLongData(jsonParse: string -> Option<Json>, message: string)
    requires DefaultMessageParser(jsonParse, message).Success?
    ensures var c := DefaultMessageParser(jsonParse, message).value;
      c.displayAsCarousel <==> c.data.Some? && LengthOf(c.data.value).Success? && GreaterThanOne(LengthOf(c.data.value).value)
    ensures var c := DefaultMessageParser(jsonParse, message).value;
      c.data.Some? && c.data.value.JArr? ==> (c.displayAsCarousel <==> |c.data.value.items| > 1)
  {
  }

  /** A reply with two cards and quick replies but no `conf` is a carousel
      that is displayed as it is. */
  lemma CarouselReplyScenario(jsonParse: string -> Option<Json>, message: string, cards: seq<Json>, replies: Json)
    requires |cards| == 2
    requires jsonParse(message) == Some(JObj(map["data" := JArr(cards), "quick_replies" := replies]))
    ensures DefaultMessageParser(jsonParse, message)
      == Success(Classified(false, None, true, Some(replies), Some(JArr(cards))))
  {
  }

  /** A reply with a single card is not a carousel. */
  lemma SingleCardScenario(jsonParse: string -> Option<Json>, message: string, card: Json)
    requires jsonParse(message) == Some(JObj(map["data" := JArr([card]), "quick_replies" := JArr([])]))
    ensures DefaultMessageParser(jsonParse, message)
      == Success(Classified(false, None, false, Some(JArr([])), Some(JArr([card]))))
  {
  }

  /** A configuration reply is recognised whatever else it holds; a plain
      reply without `data` is not a carousel and has no quick replies. */
  lemma ConfAndPlainScenarios(jsonParse: string -> Option<Json>, confText: string, plainText: string, conf: Json)
    requires jsonParse(confText) == Some(JObj(map["conf" := conf]))
    requires jsonParse(plainText) == Some(JObj(map["text" := JStr("hello")]))
    ensures DefaultMessageParser(jsonParse, confText) == Success(Classified(true, Some(conf), false, None, None))
    ensures DefaultMessageParser(jsonParse, plainText) == Success(Classified(false, None, false, None, None))
  {
  }
}
