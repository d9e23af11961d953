/** A work-item tag as the tags endpoint lists it. */
module Tags {
  import opened Common
  import opened PhpValues

  /** The getters `getId()`, `getName()` and `getUrl()` are the three fields. */
  datatype Tag = Tag(id: string, name: string, url: string)

  /** `Tag::fromArray`: the three keys are cast to string; every other key is ignored. */
  function FromArray(data: Json): (r: Result<Tag>)
    ensures r.Ok? <==> IsArray(data)
    ensures !IsArray(data) ==> r.error.TypeError?
    ensures r.Ok? && Index(data, "id").JStr? ==> r.value.id == Index(data, "id").s
    ensures r.Ok? && Index(data, "name").JStr? ==> r.value.name == Index(data, "name").s
    ensures r.Ok? && Index(data, "url").JStr? ==> r.value.url == Index(data, "url").s
    ensures r.Ok? && !Has(data, "name") ==> r.value.name == ""
  {
    var d :- ArrayParameter(data);
    Ok(Tag(CastToString(Index(d, "id")), CastToString(Index(d, "name")), CastToString(Index(d, "url"))))
  }

  function AsArray(t: Tag): (j: Json)
    ensures IsArray(j)
  {
    JObject([Member("id", JStr(t.id)), Member("name", JStr(t.name)), Member("url", JStr(t.url))])
  }

  /** Mapping the array form back gives the same tag, whatever other members follow. */
  lemma FromArrayIgnoresOtherKeys(t: Tag, extra: seq<Member>)
    ensures FromArray(JObject(AsArray(t).members + extra)) == Ok(t)
  {
    var ms := AsArray(t).members + extra;
    assert ms[0] == Member("id", JStr(t.id));
    assert ms[1] == Member("name", JStr(t.name));
    assert ms[2] == Member("url", JStr(t.url));
    LookupAt(ms, 0);
    LookupAt(ms, 1);
    LookupAt(ms, 2);
  }
}
