/**
 * The authenticated gateway (AzureDevOpsHttpClient): it picks the Authorization
 * header, merges it over the caller's headers, issues exactly one request per call
 * and classifies the status code.
 */
module HttpGateway {
  import opened Common
  import opened Text
  import opened PhpValues
  import opened OrderedArrays
  import Base64
  import opened Wire

  /** The bytes of a PHP string: each char of a model string stands for one byte. */
  function Bytes(s: string): (b: seq<Base64.Byte>)
    ensures |b| == |s|
    ensures forall i :: 0 <= i < |s| && s[i] as int < 256 ==> b[i] == s[i] as int
  {
    seq(|s|, i requires 0 <= i < |s| => (s[i] as int) % 256)
  }

  const AuthorizationName := "Authorization"

  /**
   * The Authorization value: a bearer token when the username is empty in PHP's
   * sense ('' or '0'), otherwise Basic credentials whose Base64 text decodes back
   * to `username:password`.
   */
  function AuthorizationValue(username: string, password: string): (v: string)
    ensures IsEmptyString(username) ==> v == "Bearer " + password
    ensures !IsEmptyString(username) ==>
      |v| >= 6 && v[..6] == "Basic " && Base64.Decode(v[6..]) == Some(Bytes(username + ":" + password))
    ensures !IsEmptyString(username) ==> v == "Basic " + Base64.Encode(Bytes(username + ":" + password))
  {
    if IsEmptyString(username) then "Bearer " + password
    else
      var credentials := Bytes(username + ":" + password);
      Base64.DecodeEncode(credentials);
      var v := "Basic " + Base64.Encode(credentials);
      assert v[6..] == Base64.Encode(credentials);
      v
  }

  /** `getAuthHeader()`: a one-entry array. */
  function AuthHeader(username: string, password: string): (h: OrderedArray<string>)
    ensures h.Valid() && h.keys == [StrKey(AuthorizationName)]
    ensures h.values[StrKey(AuthorizationName)] == AuthorizationValue(username, password)
  {
    Put(Empty(), StrKey(AuthorizationName), AuthorizationValue(username, password))
  }

  /** `array_merge($headers, $this->getAuthHeader())`. */
  function OutgoingHeaders(headers: OrderedArray<string>, username: string, password: string): (h: OrderedArray<string>)
    requires headers.Valid()
    ensures h.Valid()
    ensures StringKeyed(headers) ==>
      StrKey(AuthorizationName) in h.values && h.values[StrKey(AuthorizationName)] == AuthorizationValue(username, password)
  {
    if StringKeyed(headers) then
      MergeOneOverrides(headers, AuthorizationName, AuthorizationValue(username, password));
      Merge(headers, AuthHeader(username, password))
    else Merge(headers, AuthHeader(username, password))
  }

  /**
   * The gateway's Authorization always wins over one the caller passed, and every
   * other caller header goes out unchanged, in its place.
   */
  lemma AuthorizationOverridesCallerHeaders(headers: OrderedArray<string>, username: string, password: string)
    requires headers.Valid() && StringKeyed(headers)
    ensures var h := OutgoingHeaders(headers, username, password);
      && h.values[StrKey(AuthorizationName)] == AuthorizationValue(username, password)
      && (forall k :: k != StrKey(AuthorizationName) ==> (k in h.values <==> k in headers.values))
      && (forall k :: k != StrKey(AuthorizationName) && k in headers.values ==> h.values[k] == headers.values[k])
      && h.keys == (if StrKey(AuthorizationName) in headers.values then headers.keys
                    else headers.keys + [StrKey(AuthorizationName)])
  {
    MergeOneOverrides(headers, AuthorizationName, AuthorizationValue(username, password));
  }

  /** The message of a failed call: a prefix, then the status in decimal. */
  function StatusMessage(prefix: string, status: int): (m: string)
    ensures |m| > |prefix| && m[..|prefix|] == prefix
    ensures IsIntLiteral(m[|prefix|..]) && ParseInt(m[|prefix|..]) == status
  {
    ParseIntOfDecimal(status);
    var m := prefix + IntToDecimal(status);
    assert m[|prefix|..] == IntToDecimal(status);
    m
  }

  /**
   * The status rule of the gateway and of the repository's reads and bug creation:
   * exactly 200 succeeds, 203 is an authentication failure, anything else fails with
   * a message that carries the status.
   */
  function ExactStatus(status: int, prefix: string): (r: Result<()>)
    ensures r.Ok? <==> status == 200
    ensures status == 203 ==> r == Err(AuthenticationException(AuthenticationMessage))
    ensures status != 200 && status != 203 ==> r == Err(LibraryException(StatusMessage(prefix, status)))
  {
    if status == 200 then Ok(())
    else if status == 203 then Err(AuthenticationException(AuthenticationMessage))
    else Err(LibraryException(StatusMessage(prefix, status)))
  }

  const GetFailurePrefix := "Request to AzureDevOps failed: "
  const SendFailurePrefix := "Request failed: "

  /** What a call of the gateway returns for a reply: the response only when the status is 200. */
  function Outcome(reply: Reply, prefix: string): (r: Result<Response>)
    ensures reply.TransportFailure? ==> r == Err(GuzzleException(reply.message))
    ensures r.Ok? <==> reply.Answered? && reply.response.status == 200
    ensures r.Ok? ==> r.value == reply.response
    ensures reply.Answered? && r.Err? ==> r == ExactStatus(reply.response.status, prefix).PropagateFailure()
  {
    match reply
    case TransportFailure(message) => Err(GuzzleException(message))
    case Answered(response) =>
      var _ :- ExactStatus(response.status, prefix);
      Ok(response)
  }

  const DecodeFailurePrefix := "Failed to decode JSON response: "

  /**
   * `decodeJsonResponse($response, $key)`: a decoder error is reported; with a
   * non-empty key that is set in the document the value under it is returned,
   * otherwise the whole document.
   */
  function DecodeJsonResponse(response: Response, key: string): (r: Result<Json>)
    ensures response.body.Malformed? ==> r == Err(LibraryException(DecodeFailurePrefix + response.body.reason))
    ensures response.body.Decoded? ==> r.Ok?
    ensures r.Ok? && key != "" && IsSet(Index(response.body.value, key)) ==> r.value == Index(response.body.value, key)
    ensures r.Ok? && (key == "" || !IsSet(Index(response.body.value, key))) ==> r.value == response.body.value
  {
    match response.body
    case Malformed(reason) => Err(LibraryException(DecodeFailurePrefix + reason))
    case Decoded(data) =>
      if key != "" && IsSet(Index(data, key)) then Ok(Index(data, key)) else Ok(data)
  }

  /** A key that is the first member of the document selects that member's value. */
  lemma DecodeSelectsFirstMember(key: string, v: Json, rest: seq<Member>, status: int)
    requires key != "" && IsSet(v)
    ensures DecodeJsonResponse(Response(status, Decoded(JObject([Member(key, v)] + rest))), key) == Ok(v)
  {
    LookupAt([Member(key, v)] + rest, 0);
  }

  /** On a list document, the decimal text of an offset selects the item there when it is set. */
  lemma DecodeSelectsListItem(items: seq<Json>, n: nat, status: int)
    requires n < |items| && IsSet(items[n])
    ensures DecodeJsonResponse(Response(status, Decoded(JList(items))), NatToDecimal(n)) == Ok(items[n])
  {
    IndexListOffset(items, n);
  }

  /** A null under the key does not count as set: the whole document comes back. */
  lemma DecodeIgnoresNullMember(key: string, rest: seq<Member>, status: int)
    ensures var doc := JObject([Member(key, JNull)] + rest);
      DecodeJsonResponse(Response(status, Decoded(doc)), key) == Ok(doc)
  {
    if key != "" {
      LookupAt([Member(key, JNull)] + rest, 0);
    }
  }

  class HttpClient {
    const username: string
    const password: string
    const guzzle: Transport

    constructor (username: string, password: string, httpClient: Transport)
      ensures this.username == username && this.password == password && guzzle == httpClient
    {
      this.username := username;
      this.password := password;
      guzzle := httpClient;
    }

    /** `get($url, $headers)`: one GET, then the exact-200 rule with the GET message. */
    method Get(url: string, headers: OrderedArray<string>, reply: Reply) returns (r: Result<Response>)
      requires headers.Valid()
      modifies guzzle
      ensures guzzle.sent == old(guzzle.sent) + [Request(GET, url, OutgoingHeaders(headers, username, password), NoBody)]
      ensures r == Outcome(reply, GetFailurePrefix)
    {
      var answer := guzzle.Send(Request(GET, url, OutgoingHeaders(headers, username, password), NoBody), reply);
      r := Outcome(answer, GetFailurePrefix);
    }

    /** `post($url, $body, $headers)`: one POST, then the exact-200 rule with the send message. */
    method Post(url: string, body: Payload, headers: OrderedArray<string>, reply: Reply) returns (r: Result<Response>)
      requires headers.Valid()
      modifies guzzle
      ensures guzzle.sent == old(guzzle.sent) + [Request(POST, url, OutgoingHeaders(headers, username, password), body)]
      ensures r == Outcome(reply, SendFailurePrefix)
    {
      var answer := guzzle.Send(Request(POST, url, OutgoingHeaders(headers, username, password), body), reply);
      r := Outcome(answer, SendFailurePrefix);
    }

    /** `patch($url, $body, $headers)`: one PATCH, then the exact-200 rule with the send message. */
    method Patch(url: string, body: Payload, headers: OrderedArray<string>, reply: Reply) returns (r: Result<Response>)
      requires headers.Valid()
      modifies guzzle
      ensures guzzle.sent == old(guzzle.sent) + [Request(PATCH, url, OutgoingHeaders(headers, username, password), body)]
      ensures r == Outcome(reply, SendFailurePrefix)
    {
      var answer := guzzle.Send(Request(PATCH, url, OutgoingHeaders(headers, username, password), body), reply);
      r := Outcome(answer, SendFailurePrefix);
    }
  }
}
