/** The three API wrappers side by side: `api_call` of the configuration tool,
    `api_call` of the test script and `get`/`post` of the API class.  Each maps the
    same reply to its own result; these lemmas state where they agree and where they
    differ, outcome by outcome. */
module ApiVariants {
  import opened PyValues
  import opened Http
  import OpnsenseConfig
  import TestApi
  import OpnsenseApi

  /** A body that decodes: all three return the decoded value. */
  lemma AgreeOnJson(reply: Reply, url: string)
    requires Classify(reply).JsonValue?
    ensures OpnsenseConfig.ApiResult(reply) == Classify(reply).value
    ensures TestApi.ApiResult(reply) == Classify(reply).value
    ensures OpnsenseApi.ApiResult(reply, url) == Classify(reply).value
  {
  }

  /** An empty 2xx body: `{}` from both `api_call`s, an error dictionary from the API
      class, whose decoder cannot read an empty body.  Their truthiness is opposite:
      `{}` is false, the error dictionary true. */
  lemma DifferOnEmptyBody(reply: Reply, url: string)
    requires Classify(reply).EmptyBody? && Coherent(reply.response)
    ensures OpnsenseConfig.ApiResult(reply) == EmptyDict && !Truthy(OpnsenseConfig.ApiResult(reply))
    ensures TestApi.ApiResult(reply) == EmptyDict
    ensures OpnsenseApi.ApiResult(reply, url) == OpnsenseApi.ErrorDict(reply.response.json.message)
    ensures Truthy(OpnsenseApi.ApiResult(reply, url))
  {
  }

  /** A non-empty body that is not JSON: the raw text from the configuration tool,
      `None` from the test script, an error dictionary from the API class. */
  lemma DifferOnNonJson(reply: Reply, url: string)
    requires Classify(reply).NotJson?
    ensures OpnsenseConfig.ApiResult(reply) == Str(reply.response.text)
    ensures Truthy(OpnsenseConfig.ApiResult(reply))
    ensures TestApi.ApiResult(reply) == Null
    ensures OpnsenseApi.ApiResult(reply, url) == OpnsenseApi.ErrorDict(Classify(reply).message)
  {
  }

  /** A transport failure or a 4xx/5xx status: `None` from both `api_call`s, an error
      dictionary carrying the exception's text from the API class. */
  lemma DifferOnFailure(reply: Reply, url: string)
    requires Classify(reply).Unreachable? || Classify(reply).ErrorStatus?
    ensures OpnsenseConfig.ApiResult(reply) == Null && TestApi.ApiResult(reply) == Null
    ensures OpnsenseApi.ApiResult(reply, url).Dict?
    ensures OpnsenseApi.ApiResult(reply, url).entries["status"] == Str("error")
  {
  }

  /** The two `api_call`s give the same result except on a non-JSON body, where only
      the configuration tool falls back to the text. */
  lemma CallsAgreeExceptOnText(reply: Reply)
    ensures OpnsenseConfig.ApiResult(reply) == TestApi.ApiResult(reply) <==> !Classify(reply).NotJson?
  {
    match Classify(reply)
    case NotJson(text, _) =>
      assert OpnsenseConfig.ApiResult(reply) == Str(text) && TestApi.ApiResult(reply) == Null;
    case _ =>
  }

  /** The API class cannot tell a failure from an appliance that answers with the same
      dictionary: an unreachable host and a 200 whose body is the error dictionary give
      equal results. */
  lemma ErrorShapeIsAmbiguous(message: string, url: string, response: Response)
    requires !IsErrorStatus(response.status) && response.text != ""
    requires response.json == Parsed(OpnsenseApi.ErrorDict(message))
    ensures OpnsenseApi.ApiResult(Answered(response), url) == OpnsenseApi.ApiResult(TransportError(message), url)
  {
  }

  /** On the tool's side a truthy result always means the request succeeded; the API
      class returns a truthy value for every failure. */
  lemma TruthinessMeansSuccessOnlyInTheTool(reply: Reply, url: string)
    ensures Truthy(OpnsenseConfig.ApiResult(reply)) ==> !Classify(reply).Unreachable? && !Classify(reply).ErrorStatus?
    ensures Truthy(TestApi.ApiResult(reply)) ==> Classify(reply).JsonValue?
    ensures Classify(reply).Unreachable? || Classify(reply).ErrorStatus? ==> Truthy(OpnsenseApi.ApiResult(reply, url))
  {
  }
}
