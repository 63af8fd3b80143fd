/**
 * The SMS notification relay: an HTTP handler that checks the gateway
 * credentials and the request, formats a fixed-template text, normalises the
 * recipient to an Indian international number and posts it to the MessageBird
 * gateway, mapping the gateway's reply to a JSON answer.
 *
 * The environment variables, the parsed request body and the gateway's reply
 * are inputs; the handler's result says which gateway call, if any, was made.
 */
module SmsRelay {
  import opened Wrappers
  import opened Js

  const MaxMessage: nat := 100
  const KeptOnTruncation: nat := 97
  const Ellipsis := "..."
  const IdShown: nat := 8
  const Footer := "\nContact: 1800-425-1456"
  const CountryCode := "+91"
  const GatewayUrl := "https://rest.messagebird.com/messages"

  const MissingCredentials := "Missing MessageBird credentials"
  const MissingParameters := "Missing required parameters"
  const SendFailed := "Failed to send SMS"

  /** `MESSAGEBIRD_API_KEY` and `MESSAGEBIRD_ORIGINATOR`, each possibly unset. */
  datatype Env = Env(apiKey: Option<string>, originator: Option<string>)

  /** What `req.json()` gives: a parse error, or the four fields the handler reads. */
  datatype Request =
    | Malformed(reason: string)
    | Fields(to: Option<string>, complaintId: Option<string>, status: Option<string>, message: Option<string>)

  /** The POST sent to the gateway. */
  datatype GatewayCall = GatewayCall(url: string, authorization: string, recipients: seq<string>, originator: string, body: string)

  /**
   * The gateway's answer: an OK reply with the created message's id and status,
   * a non-OK reply with the `description` of each entry of its `errors` list,
   * or a reply whose body is not JSON.
   */
  datatype GatewayReply =
    | Accepted(id: string, status: string)
    | Rejected(errors: seq<Option<string>>)
    | Unreadable(reason: string)

  datatype Reply = Sent(messageId: string, status: string) | Failed(error: string)
  datatype Body = Text(text: string) | Json(reply: Reply)
  datatype Header = Header(name: string, value: string)
  datatype Response = Response(code: int, headers: seq<Header>, body: Body)

  /** What one request leads to: the gateway call made, if any, and the HTTP response. */
  datatype Exchange = Exchange(call: Option<GatewayCall>, response: Response)

  function CorsHeaders(): seq<Header> {
    [Header("Access-Control-Allow-Origin", "*"),
     Header("Access-Control-Allow-Headers", "authorization, x-client-info, apikey, content-type")]
  }

  function JsonHeaders(): seq<Header> {
    CorsHeaders() + [Header("Content-Type", "application/json")]
  }

  predicate CredentialsPresent(env: Env) {
    Truthy(env.apiKey) && Truthy(env.originator)
  }

  predicate HasParameters(request: Request) {
    request.Fields? && Truthy(request.to) && Truthy(request.complaintId) && Truthy(request.status)
  }

  /** The message cut to at most 100 characters for transport. */
  function TruncateMessage(message: Option<string>): (t: string)
    ensures |t| <= MaxMessage
    ensures !Truthy(message) ==> t == ""
    ensures Truthy(message) && |message.value| <= MaxMessage ==> t == message.value
    ensures Truthy(message) && |message.value| > MaxMessage ==>
              |t| == MaxMessage && t[..KeptOnTruncation] == message.value[..KeptOnTruncation] && t[KeptOnTruncation..] == Ellipsis
  {
    if !Truthy(message) then ""
    else if |message.value| > MaxMessage then message.value[..KeptOnTruncation] + Ellipsis
    else message.value
  }

  /** Truncating an already truncated message changes nothing. */
  lemma TruncateIdempotent(message: Option<string>)
    ensures TruncateMessage(Some(TruncateMessage(message))) == TruncateMessage(message)
  {
  }

  /** The first line of the text: the complaint's short id and its status. */
  function Heading(complaintId: string, status: string): (h: string)
    ensures StartsWith(h, "Complaint #")
    ensures |h| == 20 + |Prefix(complaintId, IdShown)| + |status|
    ensures var k := |Prefix(complaintId, IdShown)|;
            && k == (if |complaintId| < IdShown then |complaintId| else IdShown)
            && h[11..11 + k] == complaintId[..k]
            && h[11 + k..20 + k] == " Status: "
            && h[20 + k..] == status
  {
    "Complaint #" + Prefix(complaintId, IdShown) + " Status: " + status
  }

  /** The text sent: heading, the message on its own line when there is one, then the contact line. */
  function SmsBody(complaintId: string, status: string, text: string): (b: string)
    ensures StartsWith(b, Heading(complaintId, status))
    ensures EndsWith(b, Footer)
    ensures |b| == |Heading(complaintId, status)| + |Footer| + (if text == "" then 0 else 1 + |text|)
    ensures text == "" ==> b == Heading(complaintId, status) + Footer
    ensures var n := |Heading(complaintId, status)|;
            text != "" ==> b[n..n + 1 + |text|] == "\n" + text
  {
    Heading(complaintId, status) + (if text != "" then "\n" + text else "") + Footer
  }

  /** Two texts for the same complaint and status are equal only if they carry the same message. */
  lemma {:induction false} SmsBodyDeterminesMessage(complaintId: string, status: string, t1: string, t2: string)
    requires SmsBody(complaintId, status, t1) == SmsBody(complaintId, status, t2)
    ensures t1 == t2
  {
    var h := Heading(complaintId, status);
    if t1 != "" && t2 != "" {
      assert |t1| == |t2|;
      var b1, b2 := SmsBody(complaintId, status, t1), SmsBody(complaintId, status, t2);
      assert b1 == h + ("\n" + t1) + Footer;
      assert b2 == h + ("\n" + t2) + Footer;
      assert t1 == b1[|h| + 1..|h| + 1 + |t1|];
      assert t2 == b2[|h| + 1..|h| + 1 + |t2|];
    }
  }

  /** A text built from a truncated message is at most 152 characters plus the status. */
  lemma SmsBodyBounded(complaintId: string, status: string, message: Option<string>)
    ensures |SmsBody(complaintId, status, TruncateMessage(message))| <= 152 + |status|
  {
  }

  /** `to.startsWith('+') ? to : '+91' + to`. */
  function Recipient(to: string): (r: string)
    ensures StartsWith(r, "+")
    ensures EndsWith(r, to)
    ensures StartsWith(to, "+") ==> r == to
    ensures !StartsWith(to, "+") ==> r == CountryCode + to
  {
    if StartsWith(to, "+") then to else CountryCode + to
  }

  /** Normalising a normalised number changes nothing. */
  lemma RecipientIdempotent(to: string)
    ensures Recipient(Recipient(to)) == Recipient(to)
  {
  }

  /**
   * The handler up to the gateway call: the credential check (before the body
   * is read), the body read, the parameter check, and the call it then makes.
   */
  function Prepare(env: Env, request: Request): (r: Result<GatewayCall>)
    ensures !CredentialsPresent(env) ==> r == Err(MissingCredentials)
    ensures CredentialsPresent(env) && request.Malformed? ==> r == Err(request.reason)
    ensures CredentialsPresent(env) && request.Fields? && !HasParameters(request) ==> r == Err(MissingParameters)
    ensures r.Ok? <==> CredentialsPresent(env) && HasParameters(request)
    ensures r.Ok? ==>
              && r.value.url == GatewayUrl
              && r.value.authorization == "AccessKey " + env.apiKey.value
              && r.value.originator == env.originator.value
              && r.value.recipients == [Recipient(request.to.value)]
              && r.value.body == SmsBody(request.complaintId.value, request.status.value, TruncateMessage(request.message))
  {
    if !CredentialsPresent(env) then Err(MissingCredentials)
    else match request
      case Malformed(reason) => Err(reason)
      case Fields(to, complaintId, status, message) =>
        if !HasParameters(request) then Err(MissingParameters)
        else
          var text := TruncateMessage(message);
          Ok(GatewayCall(GatewayUrl, "AccessKey " + env.apiKey.value, [Recipient(to.value)],
                         env.originator.value, SmsBody(complaintId.value, status.value, text)))
  }

  /** The `catch` block: `{success: false, error}` with status 500, the error defaulting to "Failed to send SMS". */
  function FailureResponse(message: string): (resp: Response)
    ensures resp.code == 500 && resp.headers == JsonHeaders()
    ensures resp.body.Json? && resp.body.reply.Failed?
    ensures resp.body.reply.error == if message == "" then SendFailed else message
  {
    Response(500, JsonHeaders(), Json(Failed(if message != "" then message else SendFailed)))
  }

  /** `error.errors?.[0]?.description || 'Failed to send SMS'`. */
  function FirstDescription(errors: seq<Option<string>>): (d: string)
    ensures d != ""
    ensures |errors| > 0 && Truthy(errors[0]) ==> d == errors[0].value
    ensures !(|errors| > 0 && Truthy(errors[0])) ==> d == SendFailed
  {
    if |errors| > 0 && Truthy(errors[0]) then errors[0].value else SendFailed
  }

  /** The response once the gateway has answered. */
  function GatewayOutcome(reply: GatewayReply): (resp: Response)
    ensures resp.headers == JsonHeaders()
    ensures reply.Accepted? ==> resp.code == 200 && resp.body == Json(Sent(reply.id, reply.status))
    ensures reply.Rejected? ==> resp == FailureResponse(FirstDescription(reply.errors))
    ensures reply.Unreadable? ==> resp == FailureResponse(reply.reason)
  {
    match reply
    case Accepted(id, status) => Response(200, JsonHeaders(), Json(Sent(id, status)))
    case Rejected(errors) => FailureResponse(FirstDescription(errors))
    case Unreadable(reason) => FailureResponse(reason)
  }

  /** The whole handler for one request. */
  function Serve(verb: string, env: Env, request: Request, gateway: GatewayReply): (x: Exchange)
    ensures verb == "OPTIONS" ==> x == Exchange(None, Response(200, CorsHeaders(), Text("ok")))
    ensures verb != "OPTIONS" ==> x.response.headers == JsonHeaders() && x.response.body.Json?
    ensures x.call.Some? <==> verb != "OPTIONS" && CredentialsPresent(env) && HasParameters(request)
    ensures x.call.Some? ==> Prepare(env, request) == Ok(x.call.value) && x.response == GatewayOutcome(gateway)
    ensures verb != "OPTIONS" && !CredentialsPresent(env) ==> x.response.body == Json(Failed(MissingCredentials))
    ensures verb != "OPTIONS" && CredentialsPresent(env) && request.Fields? && !HasParameters(request) ==>
              x.response.body == Json(Failed(MissingParameters))
    ensures verb != "OPTIONS" && Prepare(env, request).Err? ==>
              x == Exchange(None, FailureResponse(Prepare(env, request).error))
    ensures x.response.code == 500 <==> x.response.body.Json? && x.response.body.reply.Failed?
  {
    if verb == "OPTIONS" then Exchange(None, Response(200, CorsHeaders(), Text("ok")))
    else match Prepare(env, request)
      case Err(e) => Exchange(None, FailureResponse(e))
      case Ok(call) => Exchange(Some(call), GatewayOutcome(gateway))
  }

  /** Every gateway call goes to one number in international form, with a text that ends with the contact line. */
  lemma CallsAreWellFormed(verb: string, env: Env, request: Request, gateway: GatewayReply)
    ensures var x := Serve(verb, env, request, gateway);
            x.call.Some? ==>
              && |x.call.value.recipients| == 1
              && StartsWith(x.call.value.recipients[0], "+")
              && EndsWith(x.call.value.body, Footer)
              && |x.call.value.body| <= 152 + |request.status.value|
  {
    var x := Serve(verb, env, request, gateway);
    if x.call.Some? {
      SmsBodyBounded(request.complaintId.value, request.status.value, request.message);
    }
  }

  /** A successful answer carries exactly the gateway's message id and status; anything else reports an error. */
  lemma SuccessOnlyFromGateway(verb: string, env: Env, request: Request, gateway: GatewayReply)
    requires verb != "OPTIONS"
    ensures var x := Serve(verb, env, request, gateway);
            x.response.body.reply.Sent? <==> x.call.Some? && gateway.Accepted?
    ensures var x := Serve(verb, env, request, gateway);
            x.response.body.reply.Sent? ==> x.response.body.reply == Sent(gateway.id, gateway.status)
  {
  }
}
