/**
 * The current work-item model (Workitem): thirteen values read from a work-item
 * document, the text-area summary, the memoised html link and adding a comment.
 */
module Workitems {
  import opened Common
  import opened Text
  import opened PhpValues
  import opened OrderedArrays
  import opened Wire
  import opened HttpGateway
  import opened LegacyWorkitems

  /** The promoted constructor properties of a Workitem. */
  datatype WorkitemData = WorkitemData(
    id: string, title: string, project: Json, links: Json, url: string, state: string,
    createdDate: string, iterationPath: string, workItemType: string, description: string,
    reproSteps: string, acceptanceCriteria: string, systemInfo: string)

  /** `$data['fields'][$key] ?? ''` handed to a `string` parameter. */
  function FieldText(data: Json, key: string): (r: Result<string>)
    ensures !IsSet(Index(Index(data, "fields"), key)) ==> r == Ok("")
    ensures Index(Index(data, "fields"), key).JStr? ==> r == Ok(Index(Index(data, "fields"), key).s)
    ensures IsArray(Index(Index(data, "fields"), key)) ==> r.Err? && r.error.TypeError?
  {
    CoerceToString(Coalesce(Index(Index(data, "fields"), key), JStr("")))
  }

  /** `$data[$key] ?? []` handed to an `array` parameter. */
  function ArrayOrEmpty(data: Json, key: string): (r: Result<Json>)
    ensures r.Ok? <==> !IsSet(Index(data, key)) || IsArray(Index(data, key))
    ensures r.Ok? ==> r.value == if IsSet(Index(data, key)) then Index(data, key) else JList([])
  {
    ArrayParameter(Coalesce(Index(data, key), JList([])))
  }

  /** Every value `Workitem::fromArray` reads converts: the condition under which it succeeds. */
  predicate Convertible(data: Json)
  {
    && IsArray(data)
    && CoerceToString(Index(data, "id")).Ok?
    && CoerceToString(Index(data, "url")).Ok?
    && ArrayOrEmpty(data, "project").Ok?
    && ArrayOrEmpty(data, "links").Ok?
    && FieldText(data, "System.Title").Ok?
    && FieldText(data, "System.State").Ok?
    && FieldText(data, "System.CreatedDate").Ok?
    && FieldText(data, "System.IterationPath").Ok?
    && FieldText(data, "System.WorkItemType").Ok?
    && FieldText(data, "System.Description").Ok?
    && FieldText(data, "Microsoft.VSTS.TCM.ReproSteps").Ok?
    && FieldText(data, "Microsoft.VSTS.Common.AcceptanceCriteria").Ok?
    && FieldText(data, "Microsoft.VSTS.TCM.SystemInfo").Ok?
  }

  /**
   * `Workitem::fromArray`: 'id' and 'url' are required strings (null, a missing key
   * or an array is a TypeError), 'project' and 'links' default to [], and every
   * field defaults to ''.
   */
  function FromArray(data: Json): (r: Result<WorkitemData>)
    ensures !IsArray(data) ==> r.Err? && r.error.TypeError?
    ensures !Has(data, "id") || !Has(data, "url") ==> r.Err? && r.error.TypeError?
    ensures r.Ok? ==> CoerceToString(Index(data, "id")) == Ok(r.value.id)
    ensures r.Ok? ==> CoerceToString(Index(data, "url")) == Ok(r.value.url)
    ensures r.Ok? ==> FieldText(data, "System.Title") == Ok(r.value.title)
    ensures r.Ok? ==> FieldText(data, "System.State") == Ok(r.value.state)
    ensures r.Ok? ==> FieldText(data, "System.CreatedDate") == Ok(r.value.createdDate)
    ensures r.Ok? ==> FieldText(data, "System.IterationPath") == Ok(r.value.iterationPath)
    ensures r.Ok? ==> FieldText(data, "System.WorkItemType") == Ok(r.value.workItemType)
    ensures r.Ok? ==> FieldText(data, "System.Description") == Ok(r.value.description)
    ensures r.Ok? ==> FieldText(data, "Microsoft.VSTS.TCM.ReproSteps") == Ok(r.value.reproSteps)
    ensures r.Ok? ==> FieldText(data, "Microsoft.VSTS.Common.AcceptanceCriteria") == Ok(r.value.acceptanceCriteria)
    ensures r.Ok? ==> FieldText(data, "Microsoft.VSTS.TCM.SystemInfo") == Ok(r.value.systemInfo)
    ensures r.Ok? ==> ArrayOrEmpty(data, "project") == Ok(r.value.project)
    ensures r.Ok? ==> ArrayOrEmpty(data, "links") == Ok(r.value.links)
    ensures r.Ok? ==> IsArray(r.value.project) && IsArray(r.value.links)
    ensures r.Ok? <==> Convertible(data)
  {
    var d :- ArrayParameter(data);
    var id :- CoerceToString(Index(d, "id"));
    var title :- FieldText(d, "System.Title");
    var project :- ArrayOrEmpty(d, "project");
    var links :- ArrayOrEmpty(d, "links");
    var url :- CoerceToString(Index(d, "url"));
    var state :- FieldText(d, "System.State");
    var createdDate :- FieldText(d, "System.CreatedDate");
    var iterationPath :- FieldText(d, "System.IterationPath");
    var workItemType :- FieldText(d, "System.WorkItemType");
    var description :- FieldText(d, "System.Description");
    var reproSteps :- FieldText(d, "Microsoft.VSTS.TCM.ReproSteps");
    var acceptanceCriteria :- FieldText(d, "Microsoft.VSTS.Common.AcceptanceCriteria");
    var systemInfo :- FieldText(d, "Microsoft.VSTS.TCM.SystemInfo");
    Ok(WorkitemData(id, title, project, links, url, state, createdDate, iterationPath, workItemType,
                    description, reproSteps, acceptanceCriteria, systemInfo))
  }

  /** A document with only an id and a url gives a work item whose other values are all defaults. */
  lemma FromArrayFillsDefaults(id: string, url: string)
    ensures FromArray(JObject([Member("id", JStr(id)), Member("url", JStr(url))])) ==
      Ok(WorkitemData(id, "", JList([]), JList([]), url, "", "", "", "", "", "", "", ""))
  {
    var members := [Member("id", JStr(id)), Member("url", JStr(url))];
    var d := JObject(members);
    assert Index(d, "id") == JStr(id) by { LookupAt(members, 0); }
    assert Index(d, "url") == JStr(url) by { LookupAt(members, 1); }
    assert Index(d, "fields") == JNull && Index(d, "project") == JNull && Index(d, "links") == JNull;
    forall key: string
      ensures FieldText(d, key) == Ok("")
    {
    }
  }

  /** `isDone()`: the state is exactly 'Done'. */
  predicate IsDone(w: WorkitemData)
  {
    w.state == "Done"
  }

  /** A work item read from a document is done exactly when its 'System.State' field is the string 'Done'. */
  lemma DoneFollowsStateField(data: Json)
    requires FromArray(data).Ok?
    ensures IsDone(FromArray(data).value) <==> Index(Index(data, "fields"), "System.State") == JStr("Done")
  {
  }

  /** `getProjectName()`: the project's 'name', through the `string` return type. */
  function ProjectName(w: WorkitemData): (r: Result<string>)
    ensures Index(w.project, "name").JStr? ==> r == Ok(Index(w.project, "name").s)
    ensures !Has(w.project, "name") ==> r.Err? && r.error.TypeError?
  {
    CoerceToString(Index(w.project, "name"))
  }

  /** A work item read without a 'project' has no project name: the call fails. */
  lemma ProjectNameNeedsProject(data: Json)
    requires FromArray(data).Ok? && !Has(data, "project")
    ensures ProjectName(FromArray(data).value).Err?
  {
    var w := FromArray(data).value;
    assert Index(data, "project") == JNull;
    assert w.project == JList([]);
  }

  /** One entry of `getFieldsWithTextArea()`: `['name' => ..., 'content' => ...]`. */
  datatype TextArea = TextArea(name: string, content: string)

  const DescriptionKey := StrKey("System.Description")
  const ReproStepsKey := StrKey("Microsoft.VSTS.TCM.ReproSteps")
  const SystemInfoKey := StrKey("Microsoft.VSTS.Common.SystemInfo")
  const AcceptanceCriteriaKey := StrKey("Microsoft.VSTS.Common.AcceptanceCriteria")

  /** The position of a text-area key in the collection's fixed order. */
  function Rank(k: Key): int
  {
    if k == DescriptionKey then 0
    else if k == ReproStepsKey then 1
    else if k == SystemInfoKey then 2
    else if k == AcceptanceCriteriaKey then 3
    else 4
  }

  /** The keys follow the fixed order and all come before position `n`. */
  predicate RankedBelow(keys: seq<Key>, n: int)
  {
    && (forall i :: 0 <= i < |keys| ==> keys[i].StrKey? && Rank(keys[i]) < n)
    && (forall i, j :: 0 <= i < j < |keys| ==> Rank(keys[i]) < Rank(keys[j]))
  }

  /** `$fields->put($key, ...)` when the content is not `empty()`. */
  function PutIfFilled(acc: OrderedArray<TextArea>, k: Key, name: string, content: string): (r: OrderedArray<TextArea>)
    requires acc.Valid() && k.StrKey? && RankedBelow(acc.keys, Rank(k))
    ensures r.Valid() && RankedBelow(r.keys, Rank(k) + 1)
    ensures r.keys == if IsEmptyString(content) then acc.keys else acc.keys + [k]
    ensures forall k' :: k' != k ==> (k' in r.values <==> k' in acc.values)
    ensures forall k' :: k' != k && k' in acc.values ==> r.values[k'] == acc.values[k']
    ensures k in r.values <==> !IsEmptyString(content)
    ensures k in r.values ==> r.values[k] == TextArea(name, content)
  {
    assert k !in acc.keys by {
      forall i | 0 <= i < |acc.keys| ensures acc.keys[i] != k { }
    }
    if IsEmptyString(content) then acc else Put(acc, k, TextArea(name, content))
  }

  /** The four text-area keys are distinct: their lengths already differ. */
  lemma TextAreaKeysDiffer()
    ensures DescriptionKey != ReproStepsKey && DescriptionKey != SystemInfoKey && DescriptionKey != AcceptanceCriteriaKey
    ensures ReproStepsKey != SystemInfoKey && ReproStepsKey != AcceptanceCriteriaKey
    ensures SystemInfoKey != AcceptanceCriteriaKey
  {
    assert |DescriptionKey.name| == 18 && |ReproStepsKey.name| == 29;
    assert |SystemInfoKey.name| == 32 && |AcceptanceCriteriaKey.name| == 40;
  }

  /**
   * `getFieldsWithTextArea()`: each of the four rich-text fields whose content is
   * not `empty()` ('' or '0'), under its field key, in the fixed order.
   */
  function TextAreaFields(w: WorkitemData): (r: OrderedArray<TextArea>)
    ensures r.Valid() && StringKeyed(r)
    ensures DescriptionKey in r.values <==> !IsEmptyString(w.description)
    ensures ReproStepsKey in r.values <==> !IsEmptyString(w.reproSteps)
    ensures SystemInfoKey in r.values <==> !IsEmptyString(w.systemInfo)
    ensures AcceptanceCriteriaKey in r.values <==> !IsEmptyString(w.acceptanceCriteria)
    ensures RankedBelow(r.keys, 4)
  {
    TextAreaKeysDiffer();
    var e: OrderedArray<TextArea> := Empty();
    var a := PutIfFilled(e, DescriptionKey, "Description", w.description);
    var b := PutIfFilled(a, ReproStepsKey, "Repro Steps", w.reproSteps);
    var c := PutIfFilled(b, SystemInfoKey, "System Info", w.systemInfo);
    PutIfFilled(c, AcceptanceCriteriaKey, "Acceptence Criteria", w.acceptanceCriteria)
  }

  /** Each collected field carries its display name and the field's content. */
  lemma TextAreaFieldsContents(w: WorkitemData)
    ensures var r := TextAreaFields(w);
      && (DescriptionKey in r.values ==> r.values[DescriptionKey] == TextArea("Description", w.description))
      && (ReproStepsKey in r.values ==> r.values[ReproStepsKey] == TextArea("Repro Steps", w.reproSteps))
      && (SystemInfoKey in r.values ==> r.values[SystemInfoKey] == TextArea("System Info", w.systemInfo))
      && (AcceptanceCriteriaKey in r.values ==>
          r.values[AcceptanceCriteriaKey] == TextArea("Acceptence Criteria", w.acceptanceCriteria))
  {
  }

  /** The comments endpoint of a work item. */
  function CommentUrl(projectBaseUrl: string, id: string): (u: string)
    ensures |u| == |projectBaseUrl| + 14 + |id| + 35
    ensures u[..|projectBaseUrl|] == projectBaseUrl
    ensures u[|projectBaseUrl|..|projectBaseUrl| + 14] == "wit/workitems/"
    ensures u[|projectBaseUrl| + 14..|projectBaseUrl| + 14 + |id|] == id
    ensures u[|projectBaseUrl| + 14 + |id|..] == "/comments?api-version=6.0-preview.3"
  {
    var suffix := "/comments?api-version=6.0-preview.3";
    FourPieces(projectBaseUrl, "wit/workitems/", id, suffix);
    projectBaseUrl + "wit/workitems/" + id + suffix
  }

  /** The comment document: `{"text": ...}`. */
  function CommentBody(text: string): (p: Payload)
    ensures p.JsonBody? && Index(p.document, "text") == JStr(text)
  {
    JsonBody(JObject([Member("text", JStr(text))]))
  }

  class Workitem {
    const data: WorkitemData
    /** The api client's project url, ending in '/_apis/'. */
    const projectBaseUrl: string
    /** The gateway the api client sends through. */
    const gateway: HttpClient
    /** Public and never assigned by the constructor. */
    var htmlLink: Json
    /** Public and never assigned by the constructor. */
    var apiUrl: Json
    /** The urls `getHtmlLink` has looked up, oldest first. */
    var lookups: seq<string>

    constructor (data: WorkitemData, projectBaseUrl: string, gateway: HttpClient)
      ensures this.data == data && this.projectBaseUrl == projectBaseUrl && this.gateway == gateway
      ensures htmlLink == JNull && apiUrl == JNull && lookups == []
    {
      this.data := data;
      this.projectBaseUrl := projectBaseUrl;
      this.gateway := gateway;
      htmlLink := JNull;
      apiUrl := JNull;
      lookups := [];
    }

    /**
     * `getHtmlLink()` as written: the lookup is made with the `apiUrl` property,
     * which nothing assigns; `fetched` is the looked-up item's `htmlLink`.
     */
    method GetHtmlLinkAsWritten(fetched: Result<Json>) returns (r: Result<string>)
      modifies this
      ensures var o := ResolveHtmlLink(old(htmlLink), old(apiUrl), fetched);
        && r == o.link && htmlLink == o.cache && apiUrl == old(apiUrl)
        && lookups == old(lookups) + (if o.lookup.Some? then [o.lookup.value] else [])
    {
      var o := ResolveHtmlLink(htmlLink, apiUrl, fetched);
      htmlLink := o.cache;
      if o.lookup.Some? {
        lookups := lookups + [o.lookup.value];
      }
      r := o.link;
    }

    /** `getHtmlLink()` looking the item up by its own url, the value the constructor does receive. */
    method GetHtmlLink(fetched: Result<Json>) returns (r: Result<string>)
      modifies this
      ensures var o := ResolveHtmlLink(old(htmlLink), JStr(data.url), fetched);
        && r == o.link && htmlLink == o.cache && apiUrl == old(apiUrl)
        && lookups == old(lookups) + (if o.lookup.Some? then [o.lookup.value] else [])
    {
      var o := ResolveHtmlLink(htmlLink, JStr(data.url), fetched);
      htmlLink := o.cache;
      if o.lookup.Some? {
        lookups := lookups + [o.lookup.value];
      }
      r := o.link;
    }

    /** `addComment($text)`: one POST of `{"text": ...}` to the item's comments endpoint. */
    method AddComment(commentText: string, reply: Reply) returns (r: Result<()>)
      modifies gateway.guzzle
      ensures gateway.guzzle.sent == old(gateway.guzzle.sent) +
        [Request(POST, CommentUrl(projectBaseUrl, data.id),
                 OutgoingHeaders(Empty(), gateway.username, gateway.password), CommentBody(commentText))]
      ensures r.Ok? <==> Outcome(reply, SendFailurePrefix).Ok?
      ensures r.Err? ==> r.error == Outcome(reply, SendFailurePrefix).error
    {
      var response := gateway.Post(CommentUrl(projectBaseUrl, data.id), CommentBody(commentText), Empty(), reply);
      if response.Err? {
        return Err(response.error);
      }
      r := Ok(());
    }
  }

  /** On a fresh Workitem the link as written is never found: the api url it passes is null. */
  lemma FreshLinkAsWrittenFails(fetched: Result<Json>)
    ensures var o := ResolveHtmlLink(JNull, JNull, fetched);
      o.lookup.None? && o.link.Err? && o.link.error.TypeError?
  {
  }

  /** On a fresh Workitem the corrected link is looked up once, by the item's url. */
  lemma FreshLinkLooksUpOwnUrl(url: string, fetched: Result<Json>)
    ensures var o := ResolveHtmlLink(JNull, JStr(url), fetched);
      o.lookup == Some(url) && (fetched.Ok? && fetched.value.JStr? ==> o.link == Ok(fetched.value.s))
  {
  }
}
