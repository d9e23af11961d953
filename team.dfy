/** A team of a project (WebApiTeam). */
module Teams {
  import opened Common
  import opened PhpValues

  /** The getters are the eight fields; `identity` is an array. */
  datatype Team = Team(id: string, description: string, identity: Json, identityUrl: string,
                       name: string, projectId: string, projectName: string, url: string)

  /**
   * `Team::fromArray` in a file without strict types: 'id', 'description',
   * 'identityUrl', 'name' and 'url' go to `string` parameters unchanged, so a missing
   * one (null) is a TypeError and an int is converted; 'identity' defaults to [] and
   * must be an array; 'projectId' and 'projectName' default to ''.
   */
  /** Every read of `Team::fromArray` reaches its parameter without a TypeError. */
  predicate Convertible(data: Json)
  {
    && IsArray(data)
    && CoerceToString(Index(data, "id")).Ok? && CoerceToString(Index(data, "description")).Ok?
    && IsArray(Coalesce(Index(data, "identity"), JList([])))
    && CoerceToString(Index(data, "identityUrl")).Ok? && CoerceToString(Index(data, "name")).Ok?
    && CoerceToString(Coalesce(Index(data, "projectId"), JStr(""))).Ok?
    && CoerceToString(Coalesce(Index(data, "projectName"), JStr(""))).Ok?
    && CoerceToString(Index(data, "url")).Ok?
  }

  function FromArray(data: Json): (r: Result<Team>)
    ensures r.Ok? <==> Convertible(data)
    ensures !IsArray(data) ==> r.Err?
    ensures !IsSet(Index(data, "id")) || !IsSet(Index(data, "name")) || !IsSet(Index(data, "url")) ==> r.Err?
    ensures !IsSet(Index(data, "description")) || !IsSet(Index(data, "identityUrl")) ==> r.Err?
    ensures r.Err? ==> r.error.TypeError?
    ensures r.Ok? ==> IsArray(r.value.identity)
    ensures r.Ok? && !IsSet(Index(data, "identity")) ==> r.value.identity == JList([])
    ensures r.Ok? && !IsSet(Index(data, "projectId")) ==> r.value.projectId == ""
    ensures r.Ok? && !IsSet(Index(data, "projectName")) ==> r.value.projectName == ""
    ensures r.Ok? ==> CoerceToString(Index(data, "id")) == Ok(r.value.id)
    ensures r.Ok? ==> CoerceToString(Index(data, "description")) == Ok(r.value.description)
    ensures r.Ok? ==> CoerceToString(Index(data, "identityUrl")) == Ok(r.value.identityUrl)
    ensures r.Ok? ==> CoerceToString(Index(data, "name")) == Ok(r.value.name)
    ensures r.Ok? ==> CoerceToString(Index(data, "url")) == Ok(r.value.url)
    ensures r.Ok? && IsSet(Index(data, "identity")) ==> r.value.identity == Index(data, "identity")
    ensures r.Ok? && Index(data, "projectId").JStr? ==> r.value.projectId == Index(data, "projectId").s
    ensures r.Ok? && Index(data, "projectName").JStr? ==> r.value.projectName == Index(data, "projectName").s
    ensures r.Ok? && Index(data, "id").JStr? ==> r.value.id == Index(data, "id").s
    ensures r.Ok? && Index(data, "description").JStr? ==> r.value.description == Index(data, "description").s
    ensures r.Ok? && Index(data, "identityUrl").JStr? ==> r.value.identityUrl == Index(data, "identityUrl").s
    ensures r.Ok? && Index(data, "name").JStr? ==> r.value.name == Index(data, "name").s
    ensures r.Ok? && Index(data, "url").JStr? ==> r.value.url == Index(data, "url").s
  {
    var d :- ArrayParameter(data);
    var id :- CoerceToString(Index(d, "id"));
    var description :- CoerceToString(Index(d, "description"));
    var identity :- ArrayParameter(Coalesce(Index(d, "identity"), JList([])));
    var identityUrl :- CoerceToString(Index(d, "identityUrl"));
    var name :- CoerceToString(Index(d, "name"));
    var projectId :- CoerceToString(Coalesce(Index(d, "projectId"), JStr("")));
    var projectName :- CoerceToString(Coalesce(Index(d, "projectName"), JStr("")));
    var url :- CoerceToString(Index(d, "url"));
    Ok(Team(id, description, identity, identityUrl, name, projectId, projectName, url))
  }

  /** The array form of a team with string members and no project keys. */
  function AsArray(t: Team): (j: Json)
    ensures IsArray(j)
  {
    JObject([Member("id", JStr(t.id)), Member("description", JStr(t.description)),
             Member("identityUrl", JStr(t.identityUrl)), Member("name", JStr(t.name)), Member("url", JStr(t.url))])
  }

  lemma AsArrayReads(t: Team)
    ensures var d := AsArray(t);
      && Index(d, "id") == JStr(t.id) && Index(d, "description") == JStr(t.description)
      && Index(d, "identityUrl") == JStr(t.identityUrl)
  {
    var ms := AsArray(t).members;
    LookupAt(ms, 0);
    LookupAt(ms, 1);
    LookupAt(ms, 2);
  }

  lemma AsArrayReadsRest(t: Team)
    ensures var d := AsArray(t);
      Index(d, "name") == JStr(t.name) && Index(d, "url") == JStr(t.url)
  {
    var ms := AsArray(t).members;
    assert ms[3].key == "name" && ms[4].key == "url";
    assert forall j :: 0 <= j < 3 ==> ms[j].key != "name" && ms[j].key != "url";
    LookupAt(ms, 3);
    LookupAt(ms, 4);
  }

  lemma AsArrayLacksProjectKeys(t: Team)
    ensures var d := AsArray(t);
      Index(d, "identity") == JNull && Index(d, "projectId") == JNull && Index(d, "projectName") == JNull
  {
  }

  /** Without 'identity', 'projectId' and 'projectName' the defaults fill in, the rest is taken over. */
  lemma FromArrayFillsDefaults(t: Team)
    ensures FromArray(AsArray(t)) == Ok(Team(t.id, t.description, JList([]), t.identityUrl, t.name, "", "", t.url))
  {
    AsArrayReads(t);
    AsArrayReadsRest(t);
    AsArrayLacksProjectKeys(t);
  }
}
