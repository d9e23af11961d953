/** A team project of the organization. */
module Projects {
  import opened Common
  import opened PhpValues

  /** The getters are the five fields. */
  datatype Project = Project(id: string, name: string, description: string, url: string, state: string)

  /**
   * `Project::fromArray`: 'id', 'name', 'url' and 'state' are cast, so a missing one
   * gives ''; 'description' defaults to '' and is then converted for the `string`
   * parameter, which fails only for an array.
   */
  function FromArray(data: Json): (r: Result<Project>)
    ensures r.Ok? <==> IsArray(data) && !IsArray(Index(data, "description"))
    ensures r.Err? ==> r.error.TypeError?
    ensures r.Ok? && !IsSet(Index(data, "description")) ==> r.value.description == ""
    ensures r.Ok? && Index(data, "description").JStr? ==> r.value.description == Index(data, "description").s
    ensures r.Ok? && !Has(data, "state") ==> r.value.state == ""
    ensures r.Ok? ==> CoerceToString(Coalesce(Index(data, "description"), JStr(""))) == Ok(r.value.description)
    ensures r.Ok? ==> r.value.id == CastToString(Index(data, "id")) && r.value.name == CastToString(Index(data, "name"))
    ensures r.Ok? ==> r.value.url == CastToString(Index(data, "url")) && r.value.state == CastToString(Index(data, "state"))
    ensures r.Ok? && Index(data, "id").JStr? ==> r.value.id == Index(data, "id").s
    ensures r.Ok? && Index(data, "name").JStr? ==> r.value.name == Index(data, "name").s
    ensures r.Ok? && Index(data, "url").JStr? ==> r.value.url == Index(data, "url").s
    ensures r.Ok? && Index(data, "state").JStr? ==> r.value.state == Index(data, "state").s
  {
    var d :- ArrayParameter(data);
    var description :- CoerceToString(Coalesce(Index(d, "description"), JStr("")));
    Ok(Project(CastToString(Index(d, "id")), CastToString(Index(d, "name")), description,
               CastToString(Index(d, "url")), CastToString(Index(d, "state"))))
  }

  function AsArray(p: Project): (j: Json)
    ensures IsArray(j)
  {
    JObject([Member("id", JStr(p.id)), Member("name", JStr(p.name)), Member("description", JStr(p.description)),
             Member("url", JStr(p.url)), Member("state", JStr(p.state))])
  }

  lemma AsArrayReads(p: Project)
    ensures var d := AsArray(p);
      && Index(d, "id") == JStr(p.id) && Index(d, "name") == JStr(p.name)
      && Index(d, "description") == JStr(p.description)
  {
    var ms := AsArray(p).members;
    LookupAt(ms, 0);
    LookupAt(ms, 1);
    LookupAt(ms, 2);
  }

  lemma AsArrayReadsRest(p: Project)
    ensures var d := AsArray(p);
      Index(d, "url") == JStr(p.url) && Index(d, "state") == JStr(p.state)
  {
    var ms := AsArray(p).members;
    assert ms[3].key == "url" && ms[4].key == "state";
    assert forall j :: 0 <= j < 3 ==> ms[j].key != "url" && ms[j].key != "state";
    LookupAt(ms, 3);
    LookupAt(ms, 4);
  }

  /** For string inputs every getter returns the input under its key. */
  lemma FromArrayOfAsArray(p: Project)
    ensures FromArray(AsArray(p)) == Ok(p)
  {
    AsArrayReads(p);
    AsArrayReadsRest(p);
  }
}
