/** An uploaded attachment as the service refers to it: an id and the url relations point at. */
module AttachmentReferences {
  import opened Common
  import opened PhpValues

  /** The getters `getId()` and `getUrl()` are the two fields. */
  datatype AttachmentReference = AttachmentReference(id: string, url: string)

  /**
   * `AttachmentReference::fromArray`: the parameter must be an array (a TypeError
   * otherwise); 'id' and 'url' are cast, so a missing key gives ''.
   */
  function FromArray(data: Json): (r: Result<AttachmentReference>)
    ensures r.Ok? <==> IsArray(data)
    ensures !IsArray(data) ==> r.error.TypeError?
    ensures r.Ok? && Index(data, "id").JStr? ==> r.value.id == Index(data, "id").s
    ensures r.Ok? && Index(data, "url").JStr? ==> r.value.url == Index(data, "url").s
    ensures r.Ok? && !Has(data, "id") ==> r.value.id == ""
    ensures r.Ok? && !Has(data, "url") ==> r.value.url == ""
  {
    var d :- ArrayParameter(data);
    Ok(AttachmentReference(CastToString(Index(d, "id")), CastToString(Index(d, "url"))))
  }

  /** The array form of a reference, as the upload endpoint returns it. */
  function AsArray(a: AttachmentReference): (j: Json)
    ensures IsArray(j)
  {
    JObject([Member("id", JStr(a.id)), Member("url", JStr(a.url))])
  }

  /** Mapping the array form back gives the same reference. */
  lemma FromArrayOfAsArray(a: AttachmentReference)
    ensures FromArray(AsArray(a)) == Ok(a)
  {
    LookupAt(AsArray(a).members, 0);
    LookupAt(AsArray(a).members, 1);
  }

  /** The url is read from 'url'; the spelling 'azureDevOpsUrl' used elsewhere is not consulted. */
  lemma UrlComesFromUrlKey(u: string)
    ensures FromArray(JObject([Member("azureDevOpsUrl", JStr(u))])) == Ok(AttachmentReference("", ""))
  {
  }
}
