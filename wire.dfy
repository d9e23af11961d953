/**
 * What the client hands to the HTTP library and what it gets back. The library
 * itself (Guzzle) is not modelled: a `Transport` records every request it is given
 * and answers with the reply the caller supplies.
 */
module Wire {
  import opened PhpValues
  import opened OrderedArrays
  import opened JsonPatch

  datatype Method = GET | POST | PATCH

  /** A request body before JSON encoding. */
  datatype Payload =
    | NoBody
    /** A JSON array of patch operations. */
    | PatchBody(ops: seq<PatchOp>)
    /** Any other JSON document (a comment, a search query). */
    | JsonBody(document: Json)

  datatype Request = Request(verb: Method, url: string, headers: OrderedArray<string>, payload: Payload)

  /** The body as `json_decode($body, true)` sees it: a value, or the decoder's error message. */
  datatype Body = Decoded(value: Json) | Malformed(reason: string)

  datatype Response = Response(status: int, body: Body)

  /** A response, or a GuzzleException with its message. */
  datatype Reply = Answered(response: Response) | TransportFailure(message: string)

  /** The decoded body without a check of the decoder's error (a failed decode gives null). */
  function DecodedOrNull(b: Body): (j: Json)
    ensures b.Decoded? ==> j == b.value
    ensures b.Malformed? ==> j == JNull
  {
    match b
    case Decoded(v) => v
    case Malformed(_) => JNull
  }

  class Transport {
    /** Every request issued so far, oldest first. */
    var sent: seq<Request>

    constructor ()
      ensures sent == []
    {
      sent := [];
    }

    /** Issues one request; `reply` is what the remote side answers. */
    method Send(req: Request, reply: Reply) returns (r: Reply)
      modifies this
      ensures sent == old(sent) + [req]
      ensures r == reply
    {
      sent := sent + [req];
      r := reply;
    }
  }
}
