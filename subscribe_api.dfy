/** The newsletter subscription endpoint (`POST /api/subscribe`): an ordered
    chain of checks on the request method, the email and the mailing-list
    configuration, then a relay to the mailing-list service whose answer is
    mapped to an HTTP status and a JSON body.

    The handler is split where it awaits the network: `Decide` either answers
    at once or describes the single upstream request, and `Conclude` maps the
    upstream outcome to the answer. `Handle` is the two together. */
module SubscribeApi {
  import opened Common

  const MethodNotAllowed := "Method not allowed"
  const EmailRequired := "Email is required"
  const ConfigurationMissing := "Mailchimp configuration is missing"
  const AlreadySubscribed := "You are already subscribed to this newsletter"
  const GenericFailure := "There was an error subscribing to the newsletter"
  /** The `title` the mailing-list service gives a duplicate subscription. */
  const MemberExists := "Member Exists"

  /** The request: its method (absent when the framework gives none) and
      the `email` field of its parsed body. */
  datatype Request = Request(httpMethod: Option<string>, email: Option<string>)

  /** The three environment variables the endpoint reads. */
  datatype Env = Env(apiKey: Option<string>, audienceId: Option<string>, serverPrefix: Option<string>)

  datatype Body = Error(error: string) | Success
  datatype Response = Response(status: int, body: Body)

  /** The JSON the mailing-list service answers with: `null`, or an object
      whose `title` and `detail` fields may be absent. */
  datatype UpstreamData = NullData | Fields(title: Option<string>, detail: Option<string>)

  /** How the awaited `fetch(...)` and `response.json()` ended. */
  datatype Upstream = Threw | Answered(status: int, data: UpstreamData)

  /** The one request sent upstream: a POST to `url`, with Basic credentials
      `user:password` and a JSON body `{email_address, status}`. */
  datatype UpstreamCall = UpstreamCall(
    url: string, user: string, password: string, emailAddress: string, memberStatus: string)

  datatype Decision = Respond(response: Response) | Call(call: UpstreamCall)

  /** A string-valued JavaScript value is truthy exactly when present and non-empty. */
  predicate Truthy(v: Option<string>) { v.Some? && v.value != "" }

  /** All three configuration values are set and non-empty. */
  predicate Configured(env: Env) {
    Truthy(env.apiKey) && Truthy(env.audienceId) && Truthy(env.serverPrefix)
  }

  /** The members endpoint of an audience on a data centre. */
  function MembersUrl(serverPrefix: string, audienceId: string): (url: string)
    ensures HasAt(url, 0, "https://" + serverPrefix + ".api.mailchimp.com/3.0/lists/")
    ensures |url| == |"https://" + serverPrefix + ".api.mailchimp.com/3.0/lists/"| + |audienceId| + |"/members"|
    ensures url[|url| - |"/members"|..] == "/members"
    ensures url[|url| - |"/members"| - |audienceId|..|url| - |"/members"|] == audienceId
  {
    var head := "https://" + serverPrefix + ".api.mailchimp.com/3.0/lists/";
    var url := head + audienceId + "/members";
    assert url[..|head|] == head;
    assert url[|head|..|head| + |audienceId|] == audienceId;
    url
  }

  /** Everything the handler does before awaiting the network. */
  function Decide(req: Request, env: Env): (d: Decision)
    ensures d.Call? <==> req.httpMethod == Some("POST") && Truthy(req.email) && Configured(env)
    ensures d.Respond? ==> d.response.body.Error? && d.response.status in {405, 400, 500}
    ensures d.Call? ==>
      && d.call.url == MembersUrl(env.serverPrefix.value, env.audienceId.value)
      && d.call.user == "anystring" && d.call.password == env.apiKey.value
      && d.call.emailAddress == req.email.value && d.call.memberStatus == "subscribed"
  {
    if req.httpMethod != Some("POST") then Respond(Response(405, Error(MethodNotAllowed)))
    else if !Truthy(req.email) then Respond(Response(400, Error(EmailRequired)))
    else if !Configured(env) then Respond(Response(500, Error(ConfigurationMissing)))
    else Call(UpstreamCall(
      MembersUrl(env.serverPrefix.value, env.audienceId.value),
      "anystring", env.apiKey.value, req.email.value, "subscribed"))
  }

  /** Everything after the network: a 4xx/5xx answer becomes a 400 carrying
      the already-subscribed text, the service's `detail` or the generic
      text; any other answer a 201; a throw (including reading `title` of a
      `null` body) a 500. */
  function Conclude(outcome: Upstream): (r: Response)
    ensures r.status == 201 <==> outcome.Answered? && outcome.status < 400
    ensures r.status == 201 <==> r.body.Success?
    ensures r.status in {201, 400, 500}
    ensures r.status == 500 ==> r.body == Error(GenericFailure)
  {
    match outcome
    case Threw => Response(500, Error(GenericFailure))
    case Answered(status, data) =>
      if status >= 400 then
        match data
        case NullData => Response(500, Error(GenericFailure))
        case Fields(title, detail) =>
          if title == Some(MemberExists) then Response(400, Error(AlreadySubscribed))
          else Response(400, Error(if Truthy(detail) then detail.value else GenericFailure))
      else Response(201, Success)
  }

  /** The handler: answer at once, or make the call and conclude from its
      outcome. Every answer is a success with 201 or an error with 405, 400
      or 500. */
  function Handle(req: Request, env: Env, outcome: Upstream): (r: Response)
    ensures r.status == 201 <==> r.body.Success?
    ensures r.status in {201, 405, 400, 500}
  {
    match Decide(req, env)
    case Respond(response) => response
    case Call(_) => Conclude(outcome)
  }

  /** Any method other than POST is refused with 405 before anything else is
      looked at: neither the email, the configuration nor the network matters. */
  lemma MethodCheckedFirst(req: Request, env: Env, outcome: Upstream, email': Option<string>, env': Env, outcome': Upstream)
    requires req.httpMethod != Some("POST")
    ensures Handle(req, env, outcome) == Response(405, Error(MethodNotAllowed))
    ensures Handle(req.(email := email'), env', outcome') == Handle(req, env, outcome)
  {
  }

  /** A POST without an email, or with an empty one, is refused with 400
      whatever the configuration; any non-empty email passes this check,
      even one made only of spaces. */
  lemma EmailCheckedSecond(env: Env, outcome: Upstream, email: Option<string>)
    ensures !Truthy(email) ==>
      Handle(Request(Some("POST"), email), env, outcome) == Response(400, Error(EmailRequired))
    ensures Truthy(email) ==>
      Decide(Request(Some("POST"), email), env) != Respond(Response(400, Error(EmailRequired)))
    ensures Decide(Request(Some("POST"), Some(" ")), env) != Respond(Response(400, Error(EmailRequired)))
  {
  }

  /** With a valid POST, missing configuration answers 500 and no upstream
      call is made. */
  lemma ConfigurationCheckedThird(req: Request, env: Env, outcome: Upstream)
    requires req.httpMethod == Some("POST") && Truthy(req.email) && !Configured(env)
    ensures Decide(req, env).Respond?
    ensures Handle(req, env, outcome) == Response(500, Error(ConfigurationMissing))
  {
  }

  /** The upstream answer decides the response once all checks pass: the
      already-subscribed text for a rejected duplicate, the service's own
      `detail` (or the generic text when it gives none) for other
      rejections, 201 for acceptance whatever the body, 500 when the call
      fails and when a rejection comes with a `null` body, whose `title`
      cannot be read. */
  lemma UpstreamMapping(req: Request, env: Env, status: int, title: Option<string>, detail: Option<string>)
    requires Decide(req, env).Call?
    ensures status >= 400 && title == Some(MemberExists) ==>
      Handle(req, env, Answered(status, Fields(title, detail))) == Response(400, Error(AlreadySubscribed))
    ensures status >= 400 && title != Some(MemberExists) && Truthy(detail) ==>
      Handle(req, env, Answered(status, Fields(title, detail))) == Response(400, Error(detail.value))
    ensures status >= 400 && title != Some(MemberExists) && !Truthy(detail) ==>
      Handle(req, env, Answered(status, Fields(title, detail))) == Response(400, Error(GenericFailure))
    ensures status < 400 ==> Handle(req, env, Answered(status, Fields(title, detail))) == Response(201, Success)
    ensures status >= 400 ==> Handle(req, env, Answered(status, NullData)) == Response(500, Error(GenericFailure))
    ensures status < 400 ==> Handle(req, env, Answered(status, NullData)) == Response(201, Success)
    ensures Handle(req, env, Threw) == Response(500, Error(GenericFailure))
  {
  }

  /** The endpoint answers 201 exactly when the request is a POST with a
      non-empty email, the configuration is complete and the service
      accepted the member; every other answer is an error body with one of
      the statuses 405, 400 or 500. */
  lemma CreatedExactly(req: Request, env: Env, outcome: Upstream)
    ensures var r := Handle(req, env, outcome);
      r.status == 201 <==>
        req.httpMethod == Some("POST") && Truthy(req.email) && Configured(env)
        && outcome.Answered? && outcome.status < 400
    ensures var r := Handle(req, env, outcome);
      r.body.Success? <==> r.status == 201
    ensures Handle(req, env, outcome).status in {201, 405, 400, 500}
  {
    var d := Decide(req, env);
    if d.Call? {
      assert Handle(req, env, outcome) == Conclude(outcome);
    }
  }

  /** The service's "Member Exists" is the only way to the already-subscribed
      text, and it is only reachable by a call that was actually made and
      rejected by the service. */
  lemma AlreadySubscribedOnlyFromMemberExists(req: Request, env: Env, outcome: Upstream)
    requires Handle(req, env, outcome).body == Error(AlreadySubscribed)
    requires outcome.Answered? && outcome.data.Fields? ==> outcome.data.detail != Some(AlreadySubscribed)
    ensures Decide(req, env).Call?
    ensures outcome.Answered? && outcome.status >= 400
    ensures outcome.data.Fields? && outcome.data.title == Some(MemberExists)
  {
    assert AlreadySubscribed != MethodNotAllowed && AlreadySubscribed != EmailRequired;
    assert AlreadySubscribed != ConfigurationMissing && AlreadySubscribed != GenericFailure;
  }
}
