/** The request-level decisions of the server bootstrap: the CORS origin callback,
    the /health report and the final error-handling middleware. */
module Server {
  import opened Basics
  import opened Http

  // ---- Final error handler ----

  /** The last middleware: an `UnauthorizedError` becomes 401 "Invalid token", every other error
      becomes 500 with the error's own message, whatever status the handler had set. */
  function ErrorResponse(err: Error): (r: Response)
    ensures r.status == 401 <==> err.name == "UnauthorizedError"
    ensures r.status == 401 ==> r.body == Message("Invalid token")
    ensures r.status != 401 ==> r.status == 500 && r.body == Message(err.message)
  {
    if err.name == "UnauthorizedError" then Response(401, Message("Invalid token"))
    else Response(500, Message(err.message))
  }

  /** The response the client receives for a handler's outcome. */
  function Respond(o: Outcome): (r: Response)
    ensures o.Sent? ==> r.status == o.status && r.body == o.body
    ensures o.Raised? ==> r.status in {401, 500}
    ensures o.Raised? ==> r == ErrorResponse(o.error)
    ensures o.Raised? && o.error.name == "Error" ==> r == Response(500, Message(o.error.message))
  {
    match o
    case Sent(status, body) => Response(status, body)
    case Raised(_, err) => ErrorResponse(err)
  }

  /** The status a handler sets before throwing never reaches the client. */
  lemma SetStatusIsOverridden(s1: int, s2: int, err: Error)
    ensures Respond(Raised(s1, err)) == Respond(Raised(s2, err))
  {
  }

  // ---- CORS origin callback ----

  /** An entry of the allow-list: a string compared exactly, or a regular expression anchored
      only at the end (no `^`), which is a suffix test. */
  datatype OriginRule = Exact(origin: string) | Suffix(tail: string)

  const LocalOrigin: string := "http://localhost:3000"
  const SiteHost: string := "eventmanagementkuldeep.netlify.app"
  const SiteOrigin: string := "https://eventmanagementkuldeep.netlify.app"
  const PreviewHost: string := "--eventmanagementkuldeep.netlify.app"

  const AllowedOrigins: seq<OriginRule> :=
    [Exact(LocalOrigin), Exact(SiteOrigin), Suffix(PreviewHost), Suffix(SiteHost)]

  predicate RuleMatches(rule: OriginRule, origin: string) {
    match rule
    case Exact(o) => origin == o
    case Suffix(t) => EndsWith(origin, t)
  }

  /** `allowedOrigins.some(...)` */
  function AnyRuleMatches(rules: seq<OriginRule>, origin: string): (b: bool)
    ensures b <==> exists k :: 0 <= k < |rules| && RuleMatches(rules[k], origin)
    decreases |rules|
  {
    if rules == [] then false
    else RuleMatches(rules[0], origin) || AnyRuleMatches(rules[1..], origin)
  }

  datatype CorsDecision = Allow | Deny(error: Error)

  /** The origin callback: no origin (absent or empty) is allowed; otherwise the allow-list decides. */
  function CorsOrigin(origin: Option<string>): (d: CorsDecision)
    ensures d.Deny? ==> d.error == Thrown("Not allowed by CORS")
    ensures d.Allow? <==>
      !Truthy(origin) || origin.value == LocalOrigin || EndsWith(origin.value, SiteHost)
  {
    if !Truthy(origin) then Allow
    else if AnyRuleMatches(AllowedOrigins, origin.value) then
      assert RuleMatches(AllowedOrigins[0], origin.value) || RuleMatches(AllowedOrigins[1], origin.value)
        || RuleMatches(AllowedOrigins[2], origin.value) || RuleMatches(AllowedOrigins[3], origin.value);
      PreviewRuleRedundant(origin.value);
      SiteRuleSubsumed(origin.value);
      Allow
    else
      assert RuleMatches(AllowedOrigins[3], origin.value) == EndsWith(origin.value, SiteHost);
      Deny(Thrown("Not allowed by CORS"))
  }

  /** A denied origin reaches the error handler and is answered 500. */
  lemma DeniedOriginAnswered500(origin: Option<string>)
    requires CorsOrigin(origin).Deny?
    ensures Respond(Raised(200, CorsOrigin(origin).error)) == Response(500, Message("Not allowed by CORS"))
  {
  }

  /** The deploy-preview regex adds nothing: every origin it accepts the main-site regex accepts too. */
  lemma PreviewRuleRedundant(origin: string)
    ensures RuleMatches(Suffix(PreviewHost), origin) ==> RuleMatches(Suffix(SiteHost), origin)
  {
    assert EndsWith(PreviewHost, SiteHost) by {
      assert PreviewHost[|PreviewHost| - |SiteHost|..] == SiteHost;
    }
    if EndsWith(origin, PreviewHost) {
      EndsWithTransitive(origin, PreviewHost, SiteHost);
    }
  }

  /** The exact main-site entry is also covered by the main-site regex. */
  lemma SiteRuleSubsumed(origin: string)
    ensures RuleMatches(Exact(SiteOrigin), origin) ==> RuleMatches(Suffix(SiteHost), origin)
  {
    assert SiteOrigin[|SiteOrigin| - |SiteHost|..] == SiteHost;
  }

  // ---- /health ----

  /** The `states` table; readyStates outside 0..3 have no entry (`undefined`). */
  function StateName(readyState: int): (r: Option<string>)
    ensures r.Some? <==> 0 <= readyState <= 3
    ensures r == Some("disconnected") <==> readyState == 0
    ensures r == Some("connected") <==> readyState == 1
    ensures r == Some("connecting") <==> readyState == 2
    ensures r == Some("disconnecting") <==> readyState == 3
  {
    if readyState == 0 then Some("disconnected")
    else if readyState == 1 then Some("connected")
    else if readyState == 2 then Some("connecting")
    else if readyState == 3 then Some("disconnecting")
    else None
  }

  /** GET /health: the state's name and whether the database connection is healthy. */
  function HealthReport(readyState: int): (r: Response)
    ensures r.status == 200 && r.body.Health?
    ensures r.body.mongodb == "healthy" <==> readyState == 1
    ensures r.body.mongodb != "healthy" ==> r.body.mongodb == "unhealthy"
    ensures r.body.mongodb == "healthy" <==> r.body.status == Some("connected")
    ensures r.body.status.Some? <==> 0 <= readyState <= 3
    ensures r.body.status == StateName(readyState)
  {
    Response(200, Health(StateName(readyState), if readyState == 1 then "healthy" else "unhealthy"))
  }
}
