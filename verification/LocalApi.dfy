/**
 The client of the loopback model API. `net/http` is an environment that reports the writing of the request through a
 trace callback and then either fails or answers.
 */
module LocalApi {
  import opened Wrappers
  import opened Protocol

  /** What the error chain answers to `errors.Is` and `errors.As`, and its text. */
  datatype Cause = Cause(canceled: bool, expired: bool, timeout: bool, text: string)

  datatype ForwardError =
    | Plain(cause: Cause)
    | Transport(cause: Cause, written: bool)   // TransportError

  datatype Reply = Reply(status: int, contentType: string, body: string)

  datatype BodyRead = ReadFailed(cause: Cause) | Complete(text: string, valid: bool)

  datatype Outcome = Failed(cause: Cause) | Answered(status: int, contentType: string, body: BodyRead)

  /** One `Do` call: the trace callbacks, true for a complete write, all of them before the call returns. */
  datatype Exchange = Exchange(wrote: seq<bool>, outcome: Outcome)

  /** What is given to `net/http`: method, path and body, if there is one. The host is always the configured one. */
  datatype Sent = Sent(verb: string, path: string, body: Option<Body>)

  const FORWARD_LIMIT: int := 8 * 1024 * 1024

  function TextCause(text: string): Cause {
    Cause(false, false, false, text)
  }

  predicate IsTokenCharacter(c: char) {
    IsAlphanumeric(c) || c in "!#$%&'*+-.^_`|~"
  }

  /** `net/http` refuses a method that is not a token. */
  predicate IsToken(s: string) {
    |s| > 0 && forall i :: 0 <= i < |s| ==> IsTokenCharacter(s[i])
  }

  function ReadLimited(text: string, limit: nat): string {
    if |text| > limit then text[..limit] else text
  }

  /** What `Forward` returns, and what it hands to `net/http` on the way. */
  function ForwardResult(request: Request, now: int, maxResponse: nat, exchange: Exchange)
      : (Result<Reply, ForwardError>, Option<Sent>) {
    var refusal := ValidateRequest(request, now, FORWARD_LIMIT);
    if refusal.Some? then (Err(Plain(TextCause(refusal.value))), None)
    else if !IsToken(ToUpper(request.verb)) then (Err(Plain(TextCause("net/http: invalid method"))), None)
    else
      var body := if request.body.length > 0 then Some(request.body) else None;
      var sent := Some(Sent(ToUpper(request.verb), request.path, body));
      match exchange.outcome
      case Failed(cause) => (Err(Transport(cause, |exchange.wrote| > 0)), sent)
      case Answered(status, contentType, answer) =>
        match answer
        case ReadFailed(cause) => (Err(Transport(cause, true)), sent)
        case Complete(text, valid) =>
          if |text| > maxResponse then
            (Err(Plain(TextCause("local model response exceeds " + Decimal(maxResponse) + " bytes"))), sent)
          else if |text| == 0 || !valid then (Err(Plain(TextCause("local model returned a non-JSON response"))), sent)
          else (Ok(Reply(status, if contentType == "" then "application/json" else contentType, text)), sent)
  }

  method Forward(request: Request, now: int, maxResponse: nat, exchange: Exchange)
      returns (r: Result<Reply, ForwardError>, sent: Option<Sent>)
    ensures (r, sent) == ForwardResult(request, now, maxResponse, exchange)
  {
    sent := None;
    var refusal := ValidateRequest(request, now, FORWARD_LIMIT);
    if refusal.Some? {
      return Err(Plain(TextCause(refusal.value))), sent;
    }
    var verb := ToUpper(request.verb);
    if !IsToken(verb) {
      return Err(Plain(TextCause("net/http: invalid method"))), sent;
    }
    var requestBody := None;
    if request.body.length > 0 {
      requestBody := Some(request.body);
    }
    sent := Some(Sent(verb, request.path, requestBody));
    var requestWritePhase := 0;
    for i := 0 to |exchange.wrote|
      invariant requestWritePhase in {0, 1, 2}
      invariant requestWritePhase == 0 <==> i == 0
    {
      if exchange.wrote[i] {
        requestWritePhase := 1;
      } else {
        requestWritePhase := 2;
      }
    }
    if exchange.outcome.Failed? {
      return Err(Transport(exchange.outcome.cause, requestWritePhase != 0)), sent;
    }
    var Answered(status, contentType, body) := exchange.outcome;
    if body.ReadFailed? {
      return Err(Transport(body.cause, true)), sent;
    }
    var payload := ReadLimited(body.text, maxResponse + 1);
    if |payload| > maxResponse {
      return Err(Plain(TextCause("local model response exceeds " + Decimal(maxResponse) + " bytes"))), sent;
    }
    if |payload| == 0 || !body.valid {
      return Err(Plain(TextCause("local model returned a non-JSON response"))), sent;
    }
    if contentType == "" {
      contentType := "application/json";
    }
    return Ok(Reply(status, contentType, payload)), sent;
  }

  /**
   Only an allowlisted method and path ever reach the local model, although the method is compared trimmed and sent
   untrimmed; and the body that goes with it is one the endpoint takes.
   */
  lemma OnlyAllowlistedIsSent(request: Request, now: int, maxResponse: nat, exchange: Exchange)
    ensures var sent := ForwardResult(request, now, maxResponse, exchange).1;
      sent.Some? ==> Allowlisted(sent.value.verb, sent.value.path) && BodyFits(sent.value.verb, request.body)
  {
    AcceptedExactlyWhen(request, now, FORWARD_LIMIT);
    var sent := ForwardResult(request, now, maxResponse, exchange).1;
    if sent.Some? {
      TokenHasNoSpaces(ToUpper(request.verb));
      TrimKeepsSpaceless(request.verb);
    }
  }

  /**
   Something is sent exactly for an acceptable request whose method is a token when it is upper-cased: to the very path
   that was asked for, with the one method that path allows, and with the body of the request unless that is empty.
   */
  lemma SentExactlyWhen(request: Request, now: int, maxResponse: nat, exchange: Exchange)
    ensures var sent := ForwardResult(request, now, maxResponse, exchange).1;
      && (sent.Some? <==> Acceptable(request, now, 8 * 1024 * 1024) && IsToken(ToUpper(request.verb)))
      && (sent.Some? ==>
            && sent.value.path == request.path
            && sent.value.verb == (if request.path == "/v1/models" then "GET" else "POST")
            && sent.value.body == (if request.body.length == 0 then None else Some(request.body)))
  {
    AcceptedExactlyWhen(request, now, FORWARD_LIMIT);
    OnlyAllowlistedIsSent(request, now, maxResponse, exchange);
    assert |"/v1/models"| == 10 && |"/v1/responses"| == 13 && |"/v1/chat/completions"| == 20;
  }

  /** The answer was read to its end, is valid and not empty, and fits the limit. */
  predicate IsUsable(exchange: Exchange, maxResponse: nat) {
    && exchange.outcome.Answered? && exchange.outcome.body.Complete? && exchange.outcome.body.valid
    && 0 < |exchange.outcome.body.text| <= maxResponse
  }

  /**
   When something was sent: the reply is the answer as it came, with the JSON content type if it named none, exactly if
   the answer is usable. The error is a transport error exactly if the exchange or the reading broke off, and says
   whether anything was written or answered; otherwise it is a plain text that is neither a cancellation nor a timeout.
   */
  lemma ForwardEndsExactly(request: Request, now: int, maxResponse: nat, exchange: Exchange)
    requires ForwardResult(request, now, maxResponse, exchange).1.Some?
    ensures var r := ForwardResult(request, now, maxResponse, exchange).0;
      && (r.Ok? <==> IsUsable(exchange, maxResponse))
      && (r.Ok? ==>
            && r.value.status == exchange.outcome.status && r.value.body == exchange.outcome.body.text
            && r.value.contentType
               == if exchange.outcome.contentType == "" then "application/json" else exchange.outcome.contentType)
      && (r.Err? && r.error.Transport? <==>
            exchange.outcome.Failed? || (exchange.outcome.Answered? && exchange.outcome.body.ReadFailed?))
      && (r.Err? && r.error.Transport? ==>
            && r.error.written == (exchange.wrote != [] || exchange.outcome.Answered?)
            && r.error.cause == (if exchange.outcome.Failed? then exchange.outcome.cause
                                 else exchange.outcome.body.cause))
      && (r.Err? && r.error.Plain? ==> r.error.cause == TextCause(r.error.cause.text))
  {
  }

  lemma TokenHasNoSpaces(s: string)
    requires IsToken(s)
    ensures NoSpaces(s)
  {
    forall i | 0 <= i < |s|
      ensures !IsSpace(s[i])
    {
      assert IsTokenCharacter(s[i]);
    }
  }

  // ---------------------------------------------------------------------------------------------
  // Dialling
  // ---------------------------------------------------------------------------------------------

  /** A resolved address and whether a connection to it would succeed. */
  datatype Candidate = Candidate(loopback: bool, reachable: bool)

  datatype Dialled = Connected(index: nat) | Refused(index: nat) | Unreachable

  /** The loop of `loopbackDialer` over the addresses of a host; `attempts` are the addresses it tried to connect to. */
  method DialLoopback(addresses: seq<Candidate>) returns (r: Dialled, attempts: seq<nat>)
    ensures forall i :: 0 <= i < |attempts| ==> attempts[i] == i && i < |addresses| && addresses[i].loopback
    ensures match r
      case Connected(k) => |attempts| == k + 1 && k < |addresses| && addresses[k].reachable
      case Refused(k) => |attempts| == k && k < |addresses| && !addresses[k].loopback
      case Unreachable => |attempts| == |addresses|
    ensures !r.Connected? ==> forall i :: 0 <= i < |attempts| ==> !addresses[i].reachable
  {
    attempts := [];
    for i := 0 to |addresses|
      invariant |attempts| == i
      invariant forall j :: 0 <= j < i ==> attempts[j] == j && addresses[j].loopback && !addresses[j].reachable
    {
      if !addresses[i].loopback {
        return Refused(i), attempts;
      }
      attempts := attempts + [i];
      if addresses[i].reachable {
        return Connected(i), attempts;
      }
    }
    return Unreachable, attempts;
  }
}
