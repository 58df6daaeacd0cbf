/**
 * `POST /send-to-docusign`: validate the body, pick the positions (new
 * `signaturePositions`, else legacy `logoPositions`), fill in default
 * coordinates, hand the envelope to DocuSign and record the send. Base64
 * decoding, authentication and envelope creation are outside calls and are
 * parameters (`Services`); the clock and the request headers are inputs.
 */
module SendToDocuSign {
  import opened Wrappers
  import opened Js
  import opened DocuSignService
  import SendLog
  import Decimal

  const MissingFieldsMessage := "Missing required fields: pdfBase64, recipientEmail, recipientName"
  const PositionsMessage := "signaturePositions must be an array"
  const Unknown := "unknown"
  const DefaultPage := 1
  const DefaultCoordinate := 100

  /** The part of `createEnvelope`'s answer the handler reads. */
  datatype EnvelopeSummary = EnvelopeSummary(envelopeId: Value, status: Value)

  /**
   * The calls the handler makes into code outside this model: Node's base64
   * decoding (`Buffer.from`), and the DocuSign SDK's JWT authentication and
   * `createEnvelope`.
   */
  datatype Services = Services(
    decodeBase64: Value -> Result<seq<bv8>, Exception>,
    authenticate: Outcome<Exception>,
    createEnvelope: EnvelopeDefinition -> Result<EnvelopeSummary, Exception>)

  /** `req.headers['user-agent']`, `req.ip` and `req.connection.remoteAddress`. */
  datatype Client = Client(userAgent: Option<string>, ip: Option<string>, remoteAddress: Option<string>)

  /** The response: 200 with the envelope, 400 with a message, or 500 with the thrown error. */
  datatype Reply =
    | Sent(envelopeId: Value, status: Value)
    | BadRequest(message: string)
    | ServerError(error: Exception)

  function StatusCode(reply: Reply): (code: nat)
    ensures code == 200 <==> reply.Sent?
    ensures code == 400 <==> reply.BadRequest?
    ensures code == 500 <==> reply.ServerError?
  {
    match reply
    case Sent(_, _) => 200
    case BadRequest(_) => 400
    case ServerError(_) => 500
  }

  /** A body that passed validation, with the positions it chose. */
  datatype SendRequest = SendRequest(pdfBase64: Value, recipientEmail: Value, recipientName: Value,
                                     positions: seq<Value>)

  /** `signaturePositions || logoPositions`. */
  function ChosenPositions(body: Value): Value
    requires !Nullish(body)
  {
    Or(Prop(body, "signaturePositions"), Prop(body, "logoPositions"))
  }

  predicate FieldsPresent(body: Value)
    requires !Nullish(body)
  {
    Truthy(Prop(body, "pdfBase64")) && Truthy(Prop(body, "recipientEmail")) && Truthy(Prop(body, "recipientName"))
  }

  /**
   * Lines 565-589. Destructuring a null body throws; a falsy required field
   * and a chosen value that is not an array are answered with 400.
   */
  function ValidateRequest(body: Value): (r: Result<SendRequest, Reply>)
    ensures Nullish(body) ==> r == Failure(ServerError(TypeError))
    ensures !Nullish(body) && !FieldsPresent(body) ==> r == Failure(BadRequest(MissingFieldsMessage))
    ensures !Nullish(body) && FieldsPresent(body) && !ChosenPositions(body).Arr? ==>
      r == Failure(BadRequest(PositionsMessage))
    ensures r.Success? <==> !Nullish(body) && FieldsPresent(body) && ChosenPositions(body).Arr?
    ensures r.Success? ==>
      && r.value.pdfBase64 == Prop(body, "pdfBase64") && Truthy(r.value.pdfBase64)
      && r.value.recipientEmail == Prop(body, "recipientEmail") && Truthy(r.value.recipientEmail)
      && r.value.recipientName == Prop(body, "recipientName") && Truthy(r.value.recipientName)
      && Arr(r.value.positions) == ChosenPositions(body)
  {
    if Nullish(body) then Failure(ServerError(TypeError))
    else if !FieldsPresent(body) then Failure(BadRequest(MissingFieldsMessage))
    else
      var positions := ChosenPositions(body);
      if !Truthy(positions) || !positions.Arr? then Failure(BadRequest(PositionsMessage))
      else Success(SendRequest(Prop(body, "pdfBase64"), Prop(body, "recipientEmail"),
                               Prop(body, "recipientName"), positions.items))
  }

  /** A truthy `signaturePositions` decides alone: a non-array one is rejected even beside a legacy array. */
  lemma SignaturePositionsDecide(body: Value)
    requires !Nullish(body) && FieldsPresent(body)
    requires Truthy(Prop(body, "signaturePositions"))
    ensures ValidateRequest(body).Success? <==> Prop(body, "signaturePositions").Arr?
    ensures ValidateRequest(body).Success? ==>
      ValidateRequest(body).value.positions == Prop(body, "signaturePositions").items
  {
  }

  /** Without `signaturePositions`, the legacy `logoPositions` array is used. */
  lemma LegacyPositionsAccepted(body: Value)
    requires !Nullish(body) && FieldsPresent(body)
    requires !Truthy(Prop(body, "signaturePositions"))
    ensures ValidateRequest(body).Success? <==> Prop(body, "logoPositions").Arr?
    ensures ValidateRequest(body).Success? ==>
      ValidateRequest(body).value.positions == Prop(body, "logoPositions").items
  {
  }

  /** `{ page: pos.page || 1, x: pos.x || 100, y: pos.y || 100 }`; reading a property of a null `pos` throws. */
  function FormatPosition(pos: Value): (p: Position)
    requires !Nullish(pos)
    ensures Renderable(p)
    ensures Truthy(Prop(pos, "page")) ==> p.page == Prop(pos, "page")
    ensures !Truthy(Prop(pos, "page")) ==> p.page == Num(DefaultPage)
    ensures Truthy(Prop(pos, "x")) ==> p.x == Prop(pos, "x")
    ensures !Truthy(Prop(pos, "x")) ==> p.x == Num(DefaultCoordinate)
    ensures Truthy(Prop(pos, "y")) ==> p.y == Prop(pos, "y")
    ensures !Truthy(Prop(pos, "y")) ==> p.y == Num(DefaultCoordinate)
  {
    Position(Or(Prop(pos, "page"), Num(DefaultPage)),
             Or(Prop(pos, "x"), Num(DefaultCoordinate)),
             Or(Prop(pos, "y"), Num(DefaultCoordinate)))
  }

  /** `positions.map(...)`: one formatted position per element, in order. */
  function FormatPositions(positions: seq<Value>): (r: Result<seq<Position>, Exception>)
    ensures r.Success? <==> forall i :: 0 <= i < |positions| ==> !Nullish(positions[i])
    ensures r.Failure? ==> r.error == TypeError
    ensures r.Success? ==>
      |r.value| == |positions| &&
      forall i :: 0 <= i < |positions| ==> r.value[i] == FormatPosition(positions[i])
    ensures r.Success? ==> AllRenderable(r.value)
  {
    if forall i :: 0 <= i < |positions| ==> !Nullish(positions[i])
    then Success(seq(|positions|, i requires 0 <= i < |positions| => FormatPosition(positions[i])))
    else Failure(TypeError)
  }

  /** Formatted positions never make the envelope builder throw. */
  lemma FormattedPositionsBuild(pdfBytes: seq<bv8>, email: Value, name: Value, positions: seq<Value>)
    requires FormatPositions(positions).Success?
    ensures BuildEnvelope(pdfBytes, email, name, FormatPositions(positions).value).Success?
  {
  }

  /** A zero coordinate is falsy, so it is replaced by the default like a missing one. */
  lemma ZeroCoordinatesDefault()
    ensures FormatPosition(Obj(map["page" := Num(0), "x" := Num(0), "y" := Num(250)]))
         == Position(Num(1), Num(100), Num(250))
    ensures FormatPosition(Obj(map[])) == Position(Num(1), Num(100), Num(100))
  {
  }

  /** `h || fallback` for a header that may be absent or empty. */
  function HeaderOr(h: Option<string>, fallback: string): (s: string)
    ensures h.Some? && h.value != "" ==> s == h.value
    ensures h.None? || h.value == "" ==> s == fallback
  {
    if h.Some? && h.value != "" then h.value else fallback
  }

  /** `req.ip || req.connection.remoteAddress || 'unknown'`. */
  function ClientAddress(c: Client): (s: string)
    ensures s != ""
    ensures c.ip.Some? && c.ip.value != "" ==> s == c.ip.value
    ensures (c.ip.None? || c.ip.value == "") && c.remoteAddress.Some? && c.remoteAddress.value != "" ==>
      s == c.remoteAddress.value
    ensures (c.ip.None? || c.ip.value == "") && (c.remoteAddress.None? || c.remoteAddress.value == "") ==>
      s == Unknown
  {
    HeaderOr(c.ip, HeaderOr(c.remoteAddress, Unknown))
  }

  /** The reply, the envelope passed to `createEnvelope` (if any) and the log entry the handler writes (if any). */
  datatype SendOutcome = SendOutcome(reply: Reply, submitted: Option<EnvelopeDefinition>,
                                     logEntry: Option<SendLog.LogEntry>)

  /** The envelope a valid request leads to, before DocuSign is called. */
  function Envelope(req: SendRequest, pdfBytes: seq<bv8>, formatted: seq<Position>): EnvelopeDefinition
    requires AllRenderable(formatted)
  {
    BuildEnvelope(pdfBytes, req.recipientEmail, req.recipientName, formatted).value
  }

  /**
   * Lines 563-633 and the service call: validate, decode, format,
   * authenticate, build, create, then log. Every throw becomes a 500 with the
   * thrown error.
   */
  function HandleSend(body: Value, services: Services, client: Client, timestamp: string): (out: SendOutcome)
    ensures ValidateRequest(body).Failure? ==> out == SendOutcome(ValidateRequest(body).error, None, None)
    ensures out.logEntry.Some? <==> out.reply.Sent?
    ensures out.reply.Sent? ==> out.submitted.Some?
    ensures out.submitted.Some? ==>
      var req := ValidateRequest(body).value;
      && ValidateRequest(body).Success?
      && services.decodeBase64(req.pdfBase64).Success?
      && FormatPositions(req.positions).Success?
      && services.authenticate.Pass?
      && out.submitted.value == Envelope(req, services.decodeBase64(req.pdfBase64).value, FormatPositions(req.positions).value)
    ensures (&& ValidateRequest(body).Success?
             && services.decodeBase64(ValidateRequest(body).value.pdfBase64).Success?
             && FormatPositions(ValidateRequest(body).value.positions).Success?
             && services.authenticate.Pass?)
            ==> out.submitted.Some?
    ensures out.reply.Sent? ==>
      var req := ValidateRequest(body).value;
      var entry := out.logEntry.value;
      var env := out.submitted.value;
      && services.createEnvelope(env) == Success(EnvelopeSummary(out.reply.envelopeId, out.reply.status))
      && entry.envelopeId == out.reply.envelopeId
      && entry.status == out.reply.status
      && entry.timestamp == timestamp
      && entry.recipientEmail == req.recipientEmail
      && entry.recipientName == req.recipientName
      && entry.signatureCount == |req.positions|
      && entry.signatureCount == |env.signers[0].tabs.signHereTabs|
      && entry.signatureCount == |env.signers[0].tabs.initialHereTabs|
      && entry.pdfSizeBytes == |services.decodeBase64(req.pdfBase64).value|
      && entry.userAgent == HeaderOr(client.userAgent, Unknown)
      && entry.ipAddress == ClientAddress(client)
    ensures out.submitted.Some? && services.createEnvelope(out.submitted.value).Success? ==>
      var summary := services.createEnvelope(out.submitted.value).value;
      out.reply == Sent(summary.envelopeId, summary.status)
    ensures ValidateRequest(body).Success? ==>
      var req := ValidateRequest(body).value;
      var decoded := services.decodeBase64(req.pdfBase64);
      var formatted := FormatPositions(req.positions);
      && (decoded.Failure? ==> out == SendOutcome(ServerError(decoded.error), None, None))
      && (decoded.Success? && formatted.Failure? ==> out == SendOutcome(ServerError(formatted.error), None, None))
      && (decoded.Success? && formatted.Success? && services.authenticate.Fail? ==>
            out == SendOutcome(ServerError(services.authenticate.error), None, None))
      && (out.submitted.Some? && services.createEnvelope(out.submitted.value).Failure? ==>
            out.reply == ServerError(services.createEnvelope(out.submitted.value).error) && out.logEntry.None?)
    ensures ValidateRequest(body).Success? && !out.reply.Sent? ==> out.reply.ServerError?
  {
    match ValidateRequest(body)
    case Failure(reply) => SendOutcome(reply, None, None)
    case Success(req) =>
      match services.decodeBase64(req.pdfBase64)
      case Failure(e) => SendOutcome(ServerError(e), None, None)
      case Success(pdfBytes) =>
        match FormatPositions(req.positions)
        case Failure(e) => SendOutcome(ServerError(e), None, None)
        case Success(formatted) =>
          match services.authenticate
          case Fail(e) => SendOutcome(ServerError(e), None, None)
          case Pass =>
            var env := Envelope(req, pdfBytes, formatted);
            match services.createEnvelope(env)
            case Failure(e) => SendOutcome(ServerError(e), Some(env), None)
            case Success(summary) =>
              var entry := SendLog.LogEntry(timestamp, summary.envelopeId, summary.status,
                                            req.recipientEmail, req.recipientName, |formatted|, |pdfBytes|,
                                            HeaderOr(client.userAgent, Unknown), ClientAddress(client));
              SendOutcome(Sent(summary.envelopeId, summary.status), Some(env), Some(entry))
  }

  /** A body without a recipient is rejected before any outside call is made. */
  lemma MissingFieldsStopEarly(body: Value, services: Services, client: Client, timestamp: string)
    requires !Nullish(body) && !FieldsPresent(body)
    ensures HandleSend(body, services, client, timestamp) == SendOutcome(BadRequest(MissingFieldsMessage), None, None)
    ensures StatusCode(HandleSend(body, services, client, timestamp).reply) == 400
  {
  }

  /**
   * One position and services that accept everything: the reply carries
   * the envelope ID `createEnvelope` returns and the log entry counts one signature.
   */
  lemma OneSignatureScenario(pdf: seq<bv8>, client: Client, timestamp: string)
    ensures var body := Obj(map["pdfBase64" := Str("JVBERi0="), "recipientEmail" := Str("a@b.com"),
                                "recipientName" := Str("Ann"),
                                "signaturePositions" := Arr([Obj(map["page" := Num(1), "x" := Num(10), "y" := Num(20)])])]);
            var services := Services(_ => Success(pdf), Pass, _ => Success(EnvelopeSummary(Str("EV-1"), Str("sent"))));
            var out := HandleSend(body, services, client, timestamp);
            && out.reply == Sent(Str("EV-1"), Str("sent"))
            && out.logEntry.value.signatureCount == 1
            && out.logEntry.value.pdfSizeBytes == |pdf|
            && out.submitted.value.signers[0].tabs.signHereTabs[0].tabLabel == "Logo_Approval_1"
  {
    var body := Obj(map["pdfBase64" := Str("JVBERi0="), "recipientEmail" := Str("a@b.com"),
                        "recipientName" := Str("Ann"),
                        "signaturePositions" := Arr([Obj(map["page" := Num(1), "x" := Num(10), "y" := Num(20)])])]);
    var req := ValidateRequest(body).value;
    assert req.positions == [Obj(map["page" := Num(1), "x" := Num(10), "y" := Num(20)])];
    assert Decimal.IntToString(1) == "1";
  }

  /**
   * The handler with its log: the JSON branch of `logDocuSignSend` records
   * the entry of every successful send and nothing otherwise.
   */
  method Send(log: SendLog.JsonLogFile, body: Value, services: Services, client: Client, timestamp: string)
    returns (reply: Reply)
    modifies log
    ensures reply == HandleSend(body, services, client, timestamp).reply
    ensures reply.Sent? ==> log.logs == SendLog.AfterAppend(old(log.logs), HandleSend(body, services, client, timestamp).logEntry.value)
    ensures !reply.Sent? ==> log.logs == old(log.logs)
  {
    var out := HandleSend(body, services, client, timestamp);
    if out.logEntry.Some? {
      log.Record(out.logEntry.value);
    }
    reply := out.reply;
  }
}
