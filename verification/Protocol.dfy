/**
 The messages of the companion protocol and the checks on incoming ones. Times are nanoseconds on an arbitrary clock;
 what `encoding/json` finds in a request body is given as a `Body` value.
 */
module Protocol {
  import opened Wrappers

  const MILLISECOND: int := 1_000_000
  const MINUTE: int := 60_000 * MILLISECOND

  /** What a JSON decoder sees in the field "stream" of an object. A null leaves Go's boolean at false. */
  datatype StreamField = Absent | NullStream | BoolStream(on: bool) | OtherStream

  datatype JsonValue = Malformed | NullValue | ObjectValue(stream: StreamField) | OtherValue

  /** A raw body: its length in bytes, whether its text is exactly `null`, and what it decodes to. */
  datatype Body = Body(length: nat, literalNull: bool, value: JsonValue)

  datatype Request = Request(kind: string, id: string, verb: string, path: string, deadlineMs: int, body: Body)

  datatype Cancel = Cancel(kind: string, id: string)

  /** A response without its two clock readings. */
  datatype Response = Response(
    id: string, status: int, contentType: string, body: string, errorCode: string, errorMessage: string)

  predicate IsAlphanumeric(c: char) {
    'A' <= c <= 'Z' || 'a' <= c <= 'z' || '0' <= c <= '9'
  }

  predicate IsIdCharacter(c: char) {
    IsAlphanumeric(c) || c == '.' || c == '_' || c == ':' || c == '-'
  }

  /** The pattern of request identifiers: one alphanumeric character and at most 127 more. */
  predicate ValidId(id: string) {
    && 1 <= |id| <= 128
    && IsAlphanumeric(id[0])
    && forall i :: 1 <= i < |id| ==> IsIdCharacter(id[i])
  }

  /** The same as the pattern puts it: a first character, and a rest of up to 127 others. */
  lemma IdMatchesExactlyWhen(id: string)
    ensures ValidId(id)
      <==> exists first, rest: string ::
             && id == [first] + rest
             && IsAlphanumeric(first) && |rest| <= 127 && forall c :: c in rest ==> IsAlphanumeric(c) || c in "._:-"
  {
    if ValidId(id) {
      assert id == [id[0]] + id[1..];
      assert forall c :: c in id[1..] ==> IsIdCharacter(c);
      assert IsAlphanumeric(id[0]) && |id[1..]| <= 127;
    }
    forall first, rest: string |
      && id == [first] + rest
      && IsAlphanumeric(first) && |rest| <= 127 && (forall c :: c in rest ==> IsAlphanumeric(c) || c in "._:-")
      ensures ValidId(id)
    {
      assert forall i :: 1 <= i < |id| ==> id[i] == rest[i - 1] && rest[i - 1] in rest;
    }
  }

  predicate IsSpace(c: char) {
    c == ' ' || c == '\t' || c == '\n' || c == '\U{B}' || c == '\U{C}' || c == '\r'
  }

  function TrimLeft(s: string): string {
    if |s| > 0 && IsSpace(s[0]) then TrimLeft(s[1..]) else s
  }

  function TrimRight(s: string): string {
    if |s| > 0 && IsSpace(s[|s| - 1]) then TrimRight(s[..|s| - 1]) else s
  }

  function TrimSpace(s: string): string {
    TrimRight(TrimLeft(s))
  }

  function UpperCharacter(c: char): char {
    if 'a' <= c <= 'z' then c - 'a' + 'A' else c
  }

  function ToUpper(s: string): (u: string)
    ensures |u| == |s|
  {
    seq(|s|, i requires 0 <= i < |s| => UpperCharacter(s[i]))
  }

  function Decimal(n: int): string
    decreases n < 0, if n < 0 then -n else n
  {
    if n < 0 then "-" + Decimal(-n)
    else if n < 10 then ["0123456789"[n]]
    else Decimal(n / 10) + ["0123456789"[n % 10]]
  }

  /** The error text, or none when the request is accepted. */
  function ValidateRequest(request: Request, now: int, maxBodyBytes: int): Option<string> {
    if request.kind != "request" then Some("message type must be request")
    else if !ValidId(request.id) then Some("request id is invalid")
    else if request.body.length > maxBodyBytes then Some("request body exceeds " + Decimal(maxBodyBytes) + " bytes")
    else if request.body.length > 0 && request.body.value == Malformed then Some("request body must be valid JSON")
    else
      var refusal := ValidateEndpoint(ToUpper(TrimSpace(request.verb)), request.path, request.body);
      if refusal.Some? then refusal else ValidateDeadline(request.deadlineMs, now)
  }

  const STREAMING := "streaming is not supported " + "by companion protocol v1"

  function ValidateEndpoint(verb: string, path: string, body: Body): Option<string> {
    if path == "/v1/models" then
      if verb != "GET" then Some("models endpoint only allows GET")
      else if body.length != 0 && !body.literalNull then Some("models request must not contain a body")
      else None
    else if path == "/v1/responses" || path == "/v1/chat/completions" then
      if verb != "POST" then Some("inference endpoints only allow POST")
      else if body.length == 0 || body.literalNull then Some("inference request requires a JSON body")
      else if !body.value.ObjectValue? then Some("inference request body must be a JSON object")
      else
        match body.value.stream
        case OtherStream => Some("stream must be a boolean")
        case BoolStream(on) => if on then Some(STREAMING) else None
        case _ => None
    else Some("request path is not allowed")
  }

  function ValidateDeadline(deadlineMs: int, now: int): Option<string> {
    if deadlineMs == 0 then None
    else if deadlineMs * MILLISECOND <= now then Some("request deadline has expired")
    else if deadlineMs * MILLISECOND > now + 5 * MINUTE then Some("request deadline is too far in the future")
    else None
  }

  function ValidateCancel(cancel: Cancel): Option<string> {
    if cancel.kind != "cancel" || !ValidId(cancel.id) then Some("cancel message is invalid") else None
  }

  function ErrorResponse(id: string, code: string, message: string): Response {
    Response(if ValidId(id) then id else "invalid", 0, "", "", code, message)
  }

  /** The endpoints of the README's security boundary. */
  predicate Allowlisted(verb: string, path: string) {
    (verb, path) in {("GET", "/v1/models"), ("POST", "/v1/responses"), ("POST", "/v1/chat/completions")}
  }

  /** Models take no body; an inference request takes a JSON object that does not ask for streaming. */
  predicate BodyFits(verb: string, body: Body) {
    if verb == "GET" then body.length == 0 || (body.literalNull && body.value != Malformed)
    else body.length > 0 && !body.literalNull && body.value.ObjectValue?
         && body.value.stream != OtherStream && body.value.stream != BoolStream(true)
  }

  /** What an accepted request is, said without the order of the checks. */
  predicate Acceptable(request: Request, now: int, maxBodyBytes: int) {
    && request.kind == "request"
    && ValidId(request.id)
    && request.body.length <= maxBodyBytes
    && Allowlisted(ToUpper(TrimSpace(request.verb)), request.path)
    && BodyFits(ToUpper(TrimSpace(request.verb)), request.body)
    && (request.deadlineMs != 0 ==> now < request.deadlineMs * MILLISECOND <= now + 5 * MINUTE)
  }

  lemma AcceptedExactlyWhen(request: Request, now: int, maxBodyBytes: int)
    ensures ValidateRequest(request, now, maxBodyBytes).None? <==> Acceptable(request, now, maxBodyBytes)
  {
    PathsDiffer();
  }

  lemma PathsDiffer()
    ensures "/v1/models" != "/v1/responses" && "/v1/models" != "/v1/chat/completions" && "GET" != "POST"
  {
    assert |"/v1/models"| == 10 && |"/v1/responses"| == 13 && |"/v1/chat/completions"| == 20;
    assert |"GET"| == 3 && |"POST"| == 4;
  }

  /** An acceptable request that is spoiled in a single respect is refused with the text that names that respect. */
  lemma RefusalNamesTheFault(request: Request, now: int, maxBodyBytes: int,
                             kind: string, id: string, verb: string, path: string, deadlineMs: int)
    requires Acceptable(request, now, maxBodyBytes)
    ensures kind != "request" ==>
      ValidateRequest(request.(kind := kind), now, maxBodyBytes) == Some("message type must be request")
    ensures !ValidId(id) ==> ValidateRequest(request.(id := id), now, maxBodyBytes) == Some("request id is invalid")
    ensures !Allowlisted(ToUpper(TrimSpace(verb)), request.path) ==>
      ValidateRequest(request.(verb := verb), now, maxBodyBytes)
      == Some(if request.path == "/v1/models" then "models endpoint only allows GET"
              else "inference endpoints only allow POST")
    ensures !Allowlisted("GET", path) && !Allowlisted("POST", path) ==>
      ValidateRequest(request.(path := path), now, maxBodyBytes) == Some("request path is not allowed")
    ensures deadlineMs != 0 && deadlineMs * MILLISECOND <= now ==>
      ValidateRequest(request.(deadlineMs := deadlineMs), now, maxBodyBytes) == Some("request deadline has expired")
    ensures deadlineMs != 0 && deadlineMs * MILLISECOND > now + 5 * MINUTE ==>
      ValidateRequest(request.(deadlineMs := deadlineMs), now, maxBodyBytes)
      == Some("request deadline is too far in the future")
  {
    PathsDiffer();
    AcceptedExactlyWhen(request, now, maxBodyBytes);
  }

  /** The same for its body. */
  lemma RefusalNamesTheBody(request: Request, now: int, maxBodyBytes: int, body: Body)
    requires Acceptable(request, now, maxBodyBytes)
    ensures var refusal := ValidateRequest(request.(body := body), now, maxBodyBytes);
      if body.length > maxBodyBytes then refusal == Some("request body exceeds " + Decimal(maxBodyBytes) + " bytes")
      else if body.length > 0 && body.value == Malformed then refusal == Some("request body must be valid JSON")
      else if request.path == "/v1/models" then
        refusal == if body.length == 0 || body.literalNull then None
                   else Some("models request must not contain a body")
      else if body.length == 0 || body.literalNull then refusal == Some("inference request requires a JSON body")
      else if !body.value.ObjectValue? then refusal == Some("inference request body must be a JSON object")
      else
        refusal == match body.value.stream
                   case OtherStream => Some("stream must be a boolean")
                   case BoolStream(true) => Some(STREAMING)
                   case _ => None
  {
    PathsDiffer();
    AcceptedExactlyWhen(request, now, maxBodyBytes);
  }

  /** The decimal digits of a number, read back. */
  function NumberOf(digits: string): int {
    if |digits| == 0 then 0
    else NumberOf(digits[..|digits| - 1]) * 10 + (digits[|digits| - 1] as int - '0' as int)
  }

  lemma DigitReadsBack(d: nat)
    requires d < 10
    ensures "0123456789"[d] as int - '0' as int == d
  {
  }

  lemma {:induction false} DecimalReadsBack(n: nat)
    ensures NumberOf(Decimal(n)) == n
  {
    DigitReadsBack(n % 10);
    if n < 10 {
      assert Decimal(n)[..0] == [];
    } else {
      DecimalReadsBack(n / 10);
      assert Decimal(n)[..|Decimal(n)| - 1] == Decimal(n / 10);
    }
  }

  // ---------------------------------------------------------------------------------------------
  // Trimming and upper-casing
  // ---------------------------------------------------------------------------------------------

  predicate NoSpaces(s: string) {
    forall i :: 0 <= i < |s| ==> !IsSpace(s[i])
  }

  predicate AllSpaces(s: string) {
    forall i :: 0 <= i < |s| ==> IsSpace(s[i])
  }

  lemma {:induction false} LeftIsTrimmed(before: string, s: string)
    requires AllSpaces(before) && (|s| > 0 ==> !IsSpace(s[0]))
    ensures TrimLeft(before + s) == s
    decreases |before|
  {
    if |before| == 0 {
      assert before + s == s;
    } else {
      assert (before + s)[1..] == before[1..] + s;
      LeftIsTrimmed(before[1..], s);
    }
  }

  lemma {:induction false} RightIsTrimmed(s: string, after: string)
    requires AllSpaces(after) && (|s| > 0 ==> !IsSpace(s[|s| - 1]))
    ensures TrimRight(s + after) == s
    decreases |after|
  {
    if |after| == 0 {
      assert s + after == s;
    } else {
      assert (s + after)[..|s + after| - 1] == s + after[..|after| - 1];
      RightIsTrimmed(s, after[..|after| - 1]);
    }
  }

  /** White space on both sides is taken off, and nothing else. */
  lemma TrimExactly(before: string, s: string, after: string)
    requires AllSpaces(before) && AllSpaces(after)
    requires |s| > 0 && !IsSpace(s[0]) && !IsSpace(s[|s| - 1])
    ensures TrimSpace(before + s + after) == s
  {
    assert before + s + after == before + (s + after);
    LeftIsTrimmed(before, s + after);
    RightIsTrimmed(s, after);
  }

  predicate IsLower(c: char) {
    'a' <= c <= 'z'
  }

  /** No lower-case letter is left, and nothing else has changed. */
  lemma UpperExactly(s: string, i: nat)
    requires i < |s|
    ensures !IsLower(ToUpper(s)[i])
    ensures ToUpper(s)[i] as int == s[i] as int - if IsLower(s[i]) then 32 else 0
  {
  }

  lemma TrimKeepsSpaceless(s: string)
    requires NoSpaces(ToUpper(s))
    ensures TrimSpace(s) == s
  {
    if |s| > 0 {
      assert !IsSpace(ToUpper(s)[0]) && !IsSpace(ToUpper(s)[|s| - 1]);
    }
  }
}
