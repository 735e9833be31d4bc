/**
 * The API-key gate in front of the controllers. The decision is a pure
 * function of the request path, the header and query collections and the
 * configured key; InvokeAsync applies it to the HTTP context.
 */
module Authentication {
  import opened Wrappers
  import opened Text

  /** One named entry of a header or query collection; it may carry several values. */
  datatype Field = Field(name: string, values: seq<string>)

  datatype Request = Request(path: string, headers: seq<Field>, query: seq<Field>)

  const ApiKeyHeader := "X-API-KEY"
  const ApiKeyQueryParameter := "apikey"
  const SwaggerSegment := "/swagger"
  const HealthSegment := "/health"

  const StatusUnauthorized := 401
  const JsonContentType := "application/json"
  const MissingKeyBody :=
    "{\"error\": \"API Key is missing. Provide it via X-API-KEY header or ?apikey=your_key query parameter.\"}"
  const InvalidKeyBody := "{\"error\": \"Invalid API Key.\"}"

  datatype Decision = PassToNext | Reject(body: string)

  /**
   * `PathString.StartsWithSegments`: the path begins with the segment
   * (ignoring case) and either ends there or continues with '/'.
   */
  predicate StartsWithSegments(path: string, segment: string)
  {
    StartsWithIgnoreCase(path, segment) && (|path| == |segment| || path[|segment|] == '/')
  }

  predicate IsExempt(path: string)
  {
    StartsWithSegments(path, SwaggerSegment) || StartsWithSegments(path, HealthSegment)
  }

  /** `TryGetValue` on a case-insensitive collection: the values of the first entry with that name. */
  function Lookup(fields: seq<Field>, name: string): (r: Option<seq<string>>)
    ensures r.None? <==> forall i :: 0 <= i < |fields| ==> !EqualsIgnoreCase(fields[i].name, name)
    ensures r.Some? ==> exists i :: 0 <= i < |fields| && EqualsIgnoreCase(fields[i].name, name) && fields[i].values == r.value
  {
    if fields == [] then None
    else if EqualsIgnoreCase(fields[0].name, name) then Some(fields[0].values)
    else
      assert forall i :: 1 <= i < |fields| ==> fields[i] == fields[1..][i - 1];
      Lookup(fields[1..], name)
  }

  /**
   * The non-empty strings of `values`, in order, with ',' between
   * consecutive ones; empty values are skipped.
   */
  function JoinNonEmpty(values: seq<string>): (r: string)
    ensures r == "" <==> forall i :: 0 <= i < |values| ==> values[i] == ""
  {
    if values == [] then ""
    else if values[0] == "" then JoinNonEmpty(values[1..])
    else
      var rest := JoinNonEmpty(values[1..]);
      if rest == "" then values[0] else values[0] + "," + rest
  }

  /** When exactly one value is non-empty, the join is that value. */
  lemma {:induction false} JoinNonEmptySingle(values: seq<string>, k: nat)
    requires k < |values| && values[k] != ""
    requires forall i :: 0 <= i < |values| && i != k ==> values[i] == ""
    ensures JoinNonEmpty(values) == values[k]
  {
    if k == 0 {
      assert forall i :: 0 <= i < |values[1..]| ==> values[1..][i] == values[i + 1];
    } else {
      JoinNonEmptySingle(values[1..], k - 1);
    }
  }

  /**
   * The implicit conversion of a multi-valued entry to a string: null for no
   * value, the value itself for one, and for more the non-empty values joined
   * with ','.
   */
  function AsString(values: seq<string>): (s: Option<string>)
    ensures s.None? <==> values == []
    ensures |values| == 1 ==> s == Some(values[0])
    ensures s.Some? ==> (s.value == "" <==> forall i :: 0 <= i < |values| ==> values[i] == "")
  {
    if values == [] then None
    else if |values| == 1 then Some(values[0])
    else Some(JoinNonEmpty(values))
  }

  /** The header if the request has one, otherwise the query parameter; None stands for null. */
  function ReceivedToken(request: Request): Option<string>
  {
    match Lookup(request.headers, ApiKeyHeader)
    case Some(values) => AsString(values)
    case None =>
      match Lookup(request.query, ApiKeyQueryParameter)
      case Some(values) => AsString(values)
      case None => None
  }

  /** `string.IsNullOrEmpty` */
  predicate IsNullOrEmpty(s: Option<string>)
  {
    s.None? || s.value == ""
  }

  /** The gate's verdict for a request, given the configured key (None when not configured). */
  function Decide(request: Request, expectedKey: Option<string>): (d: Decision)
    ensures IsExempt(request.path) ==> d == PassToNext
    ensures !IsExempt(request.path) && IsNullOrEmpty(ReceivedToken(request)) ==> d == Reject(MissingKeyBody)
    ensures d.Reject? ==> d.body == MissingKeyBody || d.body == InvalidKeyBody
  {
    if IsExempt(request.path) then PassToNext
    else
      var token := ReceivedToken(request);
      if IsNullOrEmpty(token) then Reject(MissingKeyBody)
      else if Some(token.value) != expectedKey then Reject(InvalidKeyBody)
      else PassToNext
  }

  /** The parts of the HTTP context that the gate touches. */
  class HttpContext {
    const request: Request
    var statusCode: int
    var contentType: Option<string>
    var responseBody: string
    /** How many times the next stage of the pipeline has been invoked with this context. */
    var nextInvocations: nat

    constructor (request: Request)
      ensures this.request == request
      ensures statusCode == 200 && contentType == None && responseBody == "" && nextInvocations == 0
    {
      this.request := request;
      statusCode := 200;
      contentType := None;
      responseBody := "";
      nextInvocations := 0;
    }
  }

  /**
   * `InvokeAsync`: either hands the context to the next stage exactly once
   * and leaves the response alone, or answers 401 with a JSON body and does
   * not call the next stage.
   */
  method InvokeAsync(context: HttpContext, expectedKey: Option<string>)
    modifies context
    ensures Decide(context.request, expectedKey) == PassToNext ==>
      context.nextInvocations == old(context.nextInvocations) + 1 &&
      context.statusCode == old(context.statusCode) &&
      context.contentType == old(context.contentType) &&
      context.responseBody == old(context.responseBody)
    ensures Decide(context.request, expectedKey).Reject? ==>
      context.nextInvocations == old(context.nextInvocations) &&
      context.statusCode == StatusUnauthorized &&
      context.contentType == Some(JsonContentType) &&
      context.responseBody == old(context.responseBody) + Decide(context.request, expectedKey).body
  {
    if StartsWithSegments(context.request.path, SwaggerSegment) ||
       StartsWithSegments(context.request.path, HealthSegment) {
      context.nextInvocations := context.nextInvocations + 1;
      return;
    }

    var receivedToken: Option<string> := None;
    var header := Lookup(context.request.headers, ApiKeyHeader);
    if header.Some? {
      receivedToken := AsString(header.value);
    } else {
      var query := Lookup(context.request.query, ApiKeyQueryParameter);
      if query.Some? {
        receivedToken := AsString(query.value);
      }
    }

    if receivedToken.None? || receivedToken.value == "" {
      context.statusCode := StatusUnauthorized;
      context.contentType := Some(JsonContentType);
      context.responseBody := context.responseBody + MissingKeyBody;
      return;
    }

    if Some(receivedToken.value) != expectedKey {
      context.statusCode := StatusUnauthorized;
      context.contentType := Some(JsonContentType);
      context.responseBody := context.responseBody + InvalidKeyBody;
      return;
    }

    context.nextInvocations := context.nextInvocations + 1;
  }

  // ---------------------------------------------------------------------
  // Properties of the gate
  // ---------------------------------------------------------------------

  /** The request passes exactly when its path is exempt or its token is non-empty and equals the configured key. */
  lemma PassesExactly(request: Request, expectedKey: Option<string>)
    ensures Decide(request, expectedKey) == PassToNext <==>
      IsExempt(request.path) ||
      (exists key :: key != "" && ReceivedToken(request) == Some(key) && expectedKey == Some(key))
  {
    if !IsExempt(request.path) && Decide(request, expectedKey) == PassToNext {
      var key := ReceivedToken(request).value;
      assert key != "" && ReceivedToken(request) == Some(key) && expectedKey == Some(key);
    }
  }

  /** Exempt paths pass whatever the headers, the query and the configuration. */
  lemma ExemptPathsPass(request: Request, expectedKey: Option<string>)
    requires IsExempt(request.path)
    ensures Decide(request, expectedKey) == PassToNext
  {
  }

  /** The exemption is by whole segment and ignores case. */
  lemma SegmentMatching()
    ensures IsExempt("/swagger") && IsExempt("/swagger/index.html") && IsExempt("/SWAGGER/v1")
    ensures IsExempt("/health")
    ensures !IsExempt("/swaggerx") && !IsExempt("/healthz") && !IsExempt("/api/users")
  {
    assert "/swagger/index.html"[..8] == "/swagger";
    assert "/SWAGGER/v1"[..8] == "/SWAGGER";
    assert "/swaggerx"[..8] == "/swagger";
    assert "/healthz"[..7] == "/health";
    assert "/api/users"[..8] == "/api/use";
    assert "/api/users"[..7] == "/api/us";
  }

  /** When the header is present the query parameter is never consulted. */
  lemma HeaderTakesPrecedence(request: Request, otherQuery: seq<Field>)
    requires Lookup(request.headers, ApiKeyHeader).Some?
    ensures ReceivedToken(request) == AsString(Lookup(request.headers, ApiKeyHeader).value)
    ensures ReceivedToken(request.(query := otherQuery)) == ReceivedToken(request)
  {
  }

  /** The query parameter is used only when no header of that name is present. */
  lemma QueryUsedWithoutHeader(request: Request)
    requires Lookup(request.headers, ApiKeyHeader).None?
    ensures ReceivedToken(request) ==
      match Lookup(request.query, ApiKeyQueryParameter)
      case Some(values) => AsString(values)
      case None => None
  {
  }

  /** A present but empty header is "missing", even with a correct query parameter. */
  lemma EmptyHeaderDoesNotFallBack(request: Request, expectedKey: Option<string>)
    requires !IsExempt(request.path)
    requires Lookup(request.headers, ApiKeyHeader) == Some([""])
    ensures Decide(request, expectedKey) == Reject(MissingKeyBody)
  {
  }

  /** A non-empty token that differs from the configured key is "invalid". */
  lemma WrongKeyRejected(request: Request, expectedKey: Option<string>)
    requires !IsExempt(request.path)
    requires !IsNullOrEmpty(ReceivedToken(request))
    requires expectedKey != ReceivedToken(request)
    ensures Decide(request, expectedKey) == Reject(InvalidKeyBody)
  {
  }

  /** With no key configured, every request to a non-exempt path is rejected. */
  lemma NoConfiguredKeyRejectsAll(request: Request)
    requires !IsExempt(request.path)
    ensures Decide(request, None).Reject?
  {
  }

  /**
   * The token is "missing" when neither entry exists, when the header entry
   * has no values, and when the query parameter is empty and no header exists.
   */
  lemma MissingTokenCases(request: Request, expectedKey: Option<string>)
    requires !IsExempt(request.path)
    ensures Lookup(request.headers, ApiKeyHeader).None? && Lookup(request.query, ApiKeyQueryParameter).None? ==>
      Decide(request, expectedKey) == Reject(MissingKeyBody)
    ensures Lookup(request.headers, ApiKeyHeader) == Some([]) ==>
      Decide(request, expectedKey) == Reject(MissingKeyBody)
    ensures Lookup(request.headers, ApiKeyHeader).None? && Lookup(request.query, ApiKeyQueryParameter) == Some([""]) ==>
      Decide(request, expectedKey) == Reject(MissingKeyBody)
  {
  }

  /** Empty values among several header lines are skipped: "" and "k" give the token "k". */
  lemma EmptyHeaderValuesSkipped(path: string, query: seq<Field>)
    requires !IsExempt(path)
    ensures Decide(Request(path, [Field(ApiKeyHeader, ["", "k"])], query), Some("k")) == PassToNext
    ensures Decide(Request(path, [Field(ApiKeyHeader, ["", ""])], query), Some("k")) == Reject(MissingKeyBody)
  {
    JoinNonEmptySingle(["", "k"], 1);
    EqualsIgnoreCaseReflexive(ApiKeyHeader);
  }
}
