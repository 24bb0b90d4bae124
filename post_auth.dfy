/** The post service's `authenticateRequest` middleware
    (post-service/src/middleware/authMiddleware.js). The gateway forwards
    the caller's identity in the `x-user-id` header; this middleware trusts
    it as it is. Headers are a map from lower-cased header name to value,
    as Node presents them. */
module PostAuth {
  import opened Http

  /** `req.user` as this middleware builds it. */
  datatype RequestUser = RequestUser(userId: string)

  const UserIdHeader: string := "x-user-id"
  const LoginRequired: string := "Authentication required, Please login to continue"

  /** A missing or empty `x-user-id` is answered with 400; any other value
      becomes `req.user = { userId }` and the request goes on. */
  function AuthenticateRequest(headers: map<string, string>): (r: Outcome<RequestUser>)
    ensures r.Next? <==> UserIdHeader in headers && headers[UserIdHeader] != ""
    ensures r.Next? ==> r.user == RequestUser(headers[UserIdHeader])
    ensures r.Respond? ==> r.response == Response(400, false, LoginRequired)
  {
    if UserIdHeader !in headers || headers[UserIdHeader] == "" then
      Respond(Response(400, false, LoginRequired))
    else
      Next(RequestUser(headers[UserIdHeader]))
  }

  /** The header value is taken verbatim: surrounding spaces are kept. */
  lemma UserIdIsVerbatim(headers: map<string, string>, value: string)
    requires value != ""
    ensures AuthenticateRequest(headers[UserIdHeader := value]) == Next(RequestUser(value))
    ensures AuthenticateRequest(headers[UserIdHeader := " " + value + " "]) == Next(RequestUser(" " + value + " "))
  {
  }

  /** No header other than `x-user-id` has any say in the outcome. */
  lemma OnlyUserIdHeaderMatters(h1: map<string, string>, h2: map<string, string>)
    requires UserIdHeader in h1 <==> UserIdHeader in h2
    requires UserIdHeader in h1 ==> h1[UserIdHeader] == h2[UserIdHeader]
    ensures AuthenticateRequest(h1) == AuthenticateRequest(h2)
  {
  }
}
