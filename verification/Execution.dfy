/** How a worker turns what the local model API did into the one response for a request. */
module Execution {
  import opened Wrappers
  import opened Protocol
  import opened LocalApi

  predicate OccursAt(s: string, part: string, i: nat) {
    i <= |s| - |part| && s[i..i + |part|] == part
  }

  predicate Contains(s: string, part: string) {
    exists i | 0 <= i <= |s| :: OccursAt(s, part, i)
  }

  function LowerCharacter(c: char): char {
    if 'A' <= c <= 'Z' then c - 'A' + 'a' else c
  }

  predicate StartsWithFold(s: string, prefix: string) {
    |prefix| <= |s| && forall i :: 0 <= i < |prefix| ==> LowerCharacter(s[i]) == prefix[i]
  }

  const CANCELED := "canceled"
  const PREDISPATCH := "local_predispatch_unavailable"
  const TIMEOUT := "timeout"
  const INVALID_RESPONSE := "local_invalid_response"
  const UNAVAILABLE := "local_unavailable"

  const JSON := "application/json"

  function Classify(error: ForwardError): (string, string) {
    if error.cause.canceled then (CANCELED, "request was canceled")
    else if error.Transport? && !error.written then (PREDISPATCH, "local model endpoint is not reachable")
    else if error.cause.expired || error.cause.timeout then (TIMEOUT, "local model request timed out")
    else if Contains(error.cause.text, "non-JSON") || Contains(error.cause.text, "exceeds")
    then (INVALID_RESPONSE, error.cause.text)
    else (UNAVAILABLE, "local model endpoint is unavailable")
  }

  function Execute(request: Request, r: Result<Reply, ForwardError>): Response {
    match r
    case Err(error) =>
      var (code, message) := Classify(error);
      ErrorResponse(request.id, code, message)
    case Ok(reply) =>
      Response(request.id, reply.status,
               if StartsWithFold(reply.contentType, JSON) then reply.contentType else JSON,
               reply.body, "", "")
  }

  /** `execute`, which starts from the least specific code and replaces it. */
  method ExecuteJob(request: Request, r: Result<Reply, ForwardError>) returns (response: Response)
    ensures response == Execute(request, r)
  {
    if r.Ok? {
      var contentType := r.value.contentType;
      if !StartsWithFold(contentType, JSON) {
        contentType := JSON;
      }
      return Response(request.id, r.value.status, contentType, r.value.body, "", "");
    }
    var error := r.error;
    var code, message := UNAVAILABLE, "local model endpoint is unavailable";
    if error.cause.canceled {
      code, message := CANCELED, "request was canceled";
    } else if error.Transport? && !error.written {
      code, message := PREDISPATCH, "local model endpoint is not reachable";
    } else if error.cause.expired || error.cause.timeout {
      code, message := TIMEOUT, "local model request timed out";
    } else if Contains(error.cause.text, "non-JSON") || Contains(error.cause.text, "exceeds") {
      code, message := INVALID_RESPONSE, error.cause.text;
    }
    response := ErrorResponse(request.id, code, message);
  }

  lemma CodesDiffer()
    ensures |CANCELED| == 8 && |PREDISPATCH| == 29 && |TIMEOUT| == 7 && |INVALID_RESPONSE| == 22 && |UNAVAILABLE| == 17
  {
  }

  // ---------------------------------------------------------------------------------------------
  // Each code exactly for its reason
  // ---------------------------------------------------------------------------------------------

  /** The request is good enough to be handed to `net/http`. */
  predicate IsSent(request: Request, now: int) {
    Acceptable(request, now, FORWARD_LIMIT) && IsToken(ToUpper(request.verb))
  }

  /** Why the exchange, or the reading of the answer, broke off. */
  function Breakdown(exchange: Exchange): Option<Cause> {
    match exchange.outcome
    case Failed(cause) => Some(cause)
    case Answered(_, _, body) => if body.ReadFailed? then Some(body.cause) else None
  }

  /** Something of the request was written, whole or in part, or the model answered. */
  predicate WasDispatched(exchange: Exchange) {
    exchange.wrote != [] || exchange.outcome.Answered?
  }

  /** The exchange broke off after the dispatch, and not by cancellation. */
  predicate BrokeOff(exchange: Exchange) {
    Breakdown(exchange).Some? && !Breakdown(exchange).value.canceled && WasDispatched(exchange)
  }

  predicate TimedOut(cause: Cause) {
    cause.expired || cause.timeout
  }

  predicate BlamesAnswer(text: string) {
    Contains(text, "non-JSON") || Contains(text, "exceeds")
  }

  /** The model answered with something that is not a non-empty, valid body within the limit. */
  predicate AnswersBadly(exchange: Exchange, maxResponse: nat) {
    && exchange.outcome.Answered? && exchange.outcome.body.Complete?
    && !(exchange.outcome.body.valid && 0 < |exchange.outcome.body.text| <= maxResponse)
  }

  /** The one refusal by `Forward` itself whose text speaks of a limit: that of a request body over eight megabytes. */
  predicate IsOversized(request: Request) {
    request.kind == "request" && ValidId(request.id) && request.body.length > FORWARD_LIMIT
  }

  /** An error response, whatever its code, says nothing else. */
  predicate IsError(response: Response, request: Request, code: string, text: string) {
    response == Response(if ValidId(request.id) then request.id else "invalid", 0, "", "", code, text)
  }

  function Answer(request: Request, now: int, maxResponse: nat, exchange: Exchange): Response {
    Execute(request, ForwardResult(request, now, maxResponse, exchange).0)
  }

  /**
   A response says that the local model was never reached exactly when the request was valid and well-formed for HTTP,
   the call failed other than by cancellation, and no part of the request, whole or broken off, had been written.
   */
  lemma PredispatchExactlyWhen(request: Request, now: int, maxResponse: nat, exchange: Exchange)
    ensures var response := Answer(request, now, maxResponse, exchange);
      && (response.errorCode == "local_predispatch_unavailable"
          <==> (IsSent(request, now) && exchange.outcome.Failed? && !exchange.outcome.cause.canceled
                && exchange.wrote == []))
      && (response.errorCode == "local_predispatch_unavailable" ==>
            IsError(response, request, "local_predispatch_unavailable", "local model endpoint is not reachable"))
  {
    CodesDiffer();
    AcceptedExactlyWhen(request, now, FORWARD_LIMIT);
  }

  /**
   A response says that the request was cancelled exactly when it was valid and well-formed for HTTP, and the exchange
   or the reading of the answer failed with a cancellation, however much of the request had been written and whatever
   else the error says.
   */
  lemma CanceledExactlyWhen(request: Request, now: int, maxResponse: nat, exchange: Exchange)
    ensures var response := Answer(request, now, maxResponse, exchange);
      && (response.errorCode == "canceled"
          <==> IsSent(request, now) && Breakdown(exchange).Some? && Breakdown(exchange).value.canceled)
      && (response.errorCode == "canceled" ==> IsError(response, request, "canceled", "request was canceled"))
  {
    CodesDiffer();
    AcceptedExactlyWhen(request, now, FORWARD_LIMIT);
  }

  /**
   A response speaks of a timeout exactly when the exchange, or the reading of the answer, broke off after the dispatch
   because the deadline had passed or the network timed out, and not by cancellation.
   */
  lemma TimeoutExactlyWhen(request: Request, now: int, maxResponse: nat, exchange: Exchange)
    ensures var response := Answer(request, now, maxResponse, exchange);
      && (response.errorCode == "timeout"
          <==> IsSent(request, now) && BrokeOff(exchange) && TimedOut(Breakdown(exchange).value))
      && (response.errorCode == "timeout" ==> IsError(response, request, "timeout", "local model request timed out"))
  {
    CodesDiffer();
    AcceptedExactlyWhen(request, now, FORWARD_LIMIT);
  }

  /**
   A response without an error code carries a non-empty, valid body within the limit, as the model API sent it, under a
   JSON content type: the model's own if it is one.
   */
  lemma SuccessExactlyWhen(request: Request, now: int, maxResponse: nat, exchange: Exchange)
    ensures var response := Answer(request, now, maxResponse, exchange);
      response.errorCode == ""
      <==> (IsSent(request, now)
            && exchange.outcome.Answered? && exchange.outcome.body.Complete? && exchange.outcome.body.valid
            && 0 < |exchange.outcome.body.text| <= maxResponse)
    ensures var response := Answer(request, now, maxResponse, exchange);
      response.errorCode == "" ==>
        && response.id == request.id && response.errorMessage == ""
        && response.body == exchange.outcome.body.text && response.status == exchange.outcome.status
        && response.contentType == (if StartsWithFold(exchange.outcome.contentType, "application/json")
                                    then exchange.outcome.contentType else "application/json")
  {
    CodesDiffer();
    AcceptedExactlyWhen(request, now, FORWARD_LIMIT);
  }

  /** A content type is taken for JSON exactly when its lower-case form begins so. */
  lemma StartsExactlyWhen(s: string, prefix: string)
    ensures StartsWithFold(s, prefix) <==> exists rest :: Lowered(s) == prefix + rest
  {
    if StartsWithFold(s, prefix) {
      assert Lowered(s) == prefix + Lowered(s)[|prefix|..];
    }
    if exists rest :: Lowered(s) == prefix + rest {
      var rest :| Lowered(s) == prefix + rest;
      assert |Lowered(s)| == |s| && forall i :: 0 <= i < |prefix| ==> Lowered(s)[i] == prefix[i];
    }
  }

  function Lowered(s: string): (r: string)
    ensures |r| == |s|
  {
    seq(|s|, i requires 0 <= i < |s| => LowerCharacter(s[i]))
  }

  /** No upper-case letter is left, and nothing else has changed. */
  lemma LoweredExactly(s: string, i: nat)
    requires i < |s|
    ensures !('A' <= Lowered(s)[i] <= 'Z')
    ensures Lowered(s)[i] as int == s[i] as int + if 'A' <= s[i] <= 'Z' then 32 else 0
  {
  }

  lemma ContainsExactlyWhen(s: string, part: string)
    ensures Contains(s, part) <==> exists before, after :: s == before + part + after
  {
    if Contains(s, part) {
      var i :| 0 <= i <= |s| && OccursAt(s, part, i);
      assert s == s[..i] + part + s[i + |part|..];
    }
    forall before, after | s == before + part + after
      ensures Contains(s, part)
    {
      assert OccursAt(s, part, |before|);
    }
  }

  // ---------------------------------------------------------------------------------------------
  // Texts that speak of the answer, and those that do not
  // ---------------------------------------------------------------------------------------------

  lemma NotContained(s: string, part: string, c: char)
    requires c in part && c !in s
    ensures !Contains(s, part)
  {
    forall i: nat | OccursAt(s, part, i)
      ensures c in s[i..i + |part|]
    {
    }
  }

  /** Neither an `x` nor a `J`. */
  lemma PlainText(s: string)
    requires 'x' !in s && 'J' !in s
    ensures !BlamesAnswer(s)
  {
    NotContained(s, "non-JSON", 'J');
    NotContained(s, "exceeds", 'x');
  }

  lemma LimitTextBlames(before: string, after: string)
    ensures BlamesAnswer(before + "exceeds" + after)
  {
    ContainsExactlyWhen(before + "exceeds" + after, "exceeds");
  }

  lemma OversizedTextBlames(limit: int)
    ensures BlamesAnswer("request body exceeds " + Decimal(limit) + " bytes")
  {
    LimitTextBlames("request body ", " " + Decimal(limit) + " bytes");
    assert "request body exceeds " == "request body " + "exceeds" + " ";
    assert "request body exceeds " + Decimal(limit) + " bytes"
        == "request body " + "exceeds" + (" " + Decimal(limit) + " bytes");
  }

  lemma OverlongTextBlames(limit: int)
    ensures BlamesAnswer("local model response exceeds " + Decimal(limit) + " bytes")
  {
    LimitTextBlames("local model response ", " " + Decimal(limit) + " bytes");
    assert "local model response exceeds " == "local model response " + "exceeds" + " ";
    assert "local model response exceeds " + Decimal(limit) + " bytes"
        == "local model response " + "exceeds" + (" " + Decimal(limit) + " bytes");
  }

  lemma NonJsonTextBlames()
    ensures BlamesAnswer("local model returned a non-JSON response")
  {
    assert "local model returned a non-JSON response" == "local model returned a " + "non-JSON" + " response";
    ContainsExactlyWhen("local model returned a non-JSON response", "non-JSON");
  }

  lemma ModelsMethodIsQuiet()
    ensures !BlamesAnswer("models endpoint only allows GET")
  {
    PlainText("models endpoint only allows GET");
  }

  lemma ModelsBodyIsQuiet()
    ensures !BlamesAnswer("models request must not contain a body")
  {
    PlainText("models request must not contain a body");
  }

  lemma InferenceMethodIsQuiet()
    ensures !BlamesAnswer("inference endpoints only allow POST")
  {
    PlainText("inference endpoints only allow POST");
  }

  lemma PathIsQuiet()
    ensures !BlamesAnswer("request path is not allowed")
  {
    PlainText("request path is not allowed");
  }

  lemma StreamTypeIsQuiet()
    ensures !BlamesAnswer("stream must be a boolean")
  {
    PlainText("stream must be a boolean");
  }

  lemma StreamingIsQuiet()
    ensures !BlamesAnswer(STREAMING)
  {
    assert 'x' !in "streaming is not supported " && 'J' !in "streaming is not supported ";
    PlainText(STREAMING);
  }

  lemma TypeIsQuiet()
    ensures !BlamesAnswer("message type must be request")
  {
    PlainText("message type must be request");
  }

  lemma IdIsQuiet()
    ensures !BlamesAnswer("request id is invalid")
  {
    PlainText("request id is invalid");
  }

  /** Neither an `x` nor a hyphen. */
  lemma JsonText(s: string)
    requires 'x' !in s && '-' !in s
    ensures !BlamesAnswer(s)
  {
    NotContained(s, "non-JSON", '-');
    NotContained(s, "exceeds", 'x');
  }

  lemma MissingBodyIsQuiet()
    ensures !BlamesAnswer("inference request requires a JSON body")
  {
    JsonText("inference request requires a JSON body");
  }

  lemma OtherBodyIsQuiet()
    ensures !BlamesAnswer("inference request body must be a JSON object")
  {
    JsonText("inference request body must be a JSON object");
  }

  lemma EndpointTextsAreQuiet(verb: string, path: string, body: Body)
    ensures var refusal := ValidateEndpoint(verb, path, body); refusal.Some? ==> !BlamesAnswer(refusal.value)
  {
    ModelsMethodIsQuiet();
    ModelsBodyIsQuiet();
    InferenceMethodIsQuiet();
    PathIsQuiet();
    MissingBodyIsQuiet();
    OtherBodyIsQuiet();
    StreamTypeIsQuiet();
    StreamingIsQuiet();
  }

  lemma JsonTextIsQuiet()
    ensures !BlamesAnswer("request body must be valid JSON")
  {
    JsonText("request body must be valid JSON");
  }

  lemma DeadlineTextsAreQuiet(deadlineMs: int, now: int)
    ensures var refusal := ValidateDeadline(deadlineMs, now); refusal.Some? ==> !BlamesAnswer(refusal.value)
  {
    ExpiredText();
    PlainText("request deadline is too far in the future");
  }

  /** Of the refusals only that of an oversized body speaks of a limit. */
  lemma RefusalTexts(request: Request, now: int)
    requires ValidateRequest(request, now, FORWARD_LIMIT).Some?
    ensures BlamesAnswer(ValidateRequest(request, now, FORWARD_LIMIT).value) <==> IsOversized(request)
  {
    TypeIsQuiet();
    IdIsQuiet();
    JsonTextIsQuiet();
    OversizedTextBlames(FORWARD_LIMIT);
    EndpointTextsAreQuiet(ToUpper(TrimSpace(request.verb)), request.path, request.body);
    DeadlineTextsAreQuiet(request.deadlineMs, now);
  }

  lemma MethodTextIsQuiet()
    ensures !BlamesAnswer("net/http: invalid method")
  {
    PlainText("net/http: invalid method");
  }

  /** The texts of the errors that `Forward` makes itself. */
  lemma ForwardTexts(request: Request, now: int, maxResponse: nat)
    ensures var refusal := ValidateRequest(request, now, FORWARD_LIMIT);
      refusal.Some? ==> (BlamesAnswer(refusal.value) <==> IsOversized(request))
    ensures !BlamesAnswer("net/http: invalid method")
    ensures BlamesAnswer("local model response exceeds " + Decimal(maxResponse) + " bytes")
    ensures BlamesAnswer("local model returned a non-JSON response")
  {
    MethodTextIsQuiet();
    OverlongTextBlames(maxResponse);
    NonJsonTextBlames();
    if ValidateRequest(request, now, FORWARD_LIMIT).Some? {
      RefusalTexts(request, now);
    }
  }

  /**
   A response blames the answer exactly when the model answered with a body that is empty, invalid or over the limit;
   or the exchange broke off after the dispatch, neither cancelled nor timed out, with a text that speaks so; or the
   request itself was oversized, which `Forward` words the same way.
   */
  lemma InvalidResponseExactlyWhen(request: Request, now: int, maxResponse: nat, exchange: Exchange)
    ensures var response := Answer(request, now, maxResponse, exchange);
      && (response.errorCode == "local_invalid_response"
          <==> (IsSent(request, now) && AnswersBadly(exchange, maxResponse))
               || (IsSent(request, now) && BrokeOff(exchange) && !TimedOut(Breakdown(exchange).value)
                   && BlamesAnswer(Breakdown(exchange).value.text))
               || IsOversized(request))
      && (response.errorCode == "local_invalid_response" ==>
            && IsError(response, request, "local_invalid_response", response.errorMessage)
            && response.errorMessage
               == if IsOversized(request) then "request body exceeds " + Decimal(FORWARD_LIMIT) + " bytes"
                  else if Breakdown(exchange).Some? then Breakdown(exchange).value.text
                  else if |exchange.outcome.body.text| > maxResponse
                  then "local model response exceeds " + Decimal(maxResponse) + " bytes"
                  else "local model returned a non-JSON response")
  {
    CodesDiffer();
    AcceptedExactlyWhen(request, now, FORWARD_LIMIT);
    ForwardTexts(request, now, maxResponse);
  }

  /**
   In all other cases of failure the response says that the model endpoint is unavailable: the request was refused, or
   the exchange broke off after the dispatch with an error that says nothing in particular.
   */
  lemma UnavailableExactlyWhen(request: Request, now: int, maxResponse: nat, exchange: Exchange)
    ensures var response := Answer(request, now, maxResponse, exchange);
      && (response.errorCode == "local_unavailable"
          <==> (!IsSent(request, now) && !IsOversized(request))
               || (IsSent(request, now) && BrokeOff(exchange) && !TimedOut(Breakdown(exchange).value)
                   && !BlamesAnswer(Breakdown(exchange).value.text)))
      && (response.errorCode == "local_unavailable" ==>
            IsError(response, request, "local_unavailable", "local model endpoint is unavailable"))
  {
    CodesDiffer();
    AcceptedExactlyWhen(request, now, FORWARD_LIMIT);
    ForwardTexts(request, now, maxResponse);
  }

  const EXPIRED := "request deadline has expired"

  lemma ExpiredText()
    ensures !Contains(EXPIRED, "non-JSON") && !Contains(EXPIRED, "exceeds")
  {
    NotContained(EXPIRED, "non-JSON", 'N');
    NotContained(EXPIRED, "exceeds", 'c');
  }

  lemma ExpiredIsRefused(request: Request, started: int, now: int)
    requires Acceptable(request, started, FORWARD_LIMIT)
    requires request.deadlineMs != 0 && request.deadlineMs * MILLISECOND <= now
    ensures ValidateRequest(request, now, FORWARD_LIMIT) == Some(EXPIRED)
  {
    AcceptedExactlyWhen(request, started, FORWARD_LIMIT);
  }

  /** A valid request whose deadline has passed while it was queued is reported as unavailable, not as undispatched. */
  lemma ExpiredInQueueIsUnavailable(request: Request, started: int, now: int, maxResponse: nat, exchange: Exchange)
    requires Acceptable(request, started, FORWARD_LIMIT)
    requires request.deadlineMs != 0 && request.deadlineMs * MILLISECOND <= now
    ensures Execute(request, ForwardResult(request, now, maxResponse, exchange).0).errorCode == "local_unavailable"
  {
    ExpiredIsRefused(request, started, now);
    ExpiredText();
    assert ForwardResult(request, now, maxResponse, exchange).0 == Err(Plain(TextCause(EXPIRED)));
  }
}
