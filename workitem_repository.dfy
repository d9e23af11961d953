/**
 * The repository (WorkitemRepository): work-item endpoints called directly through
 * the HTTP library with a stored Authorization header, each classifying the answer
 * by its status code.
 */
module WorkitemRepositories {
  import opened Common
  import opened Text
  import opened PhpValues
  import opened OrderedArrays
  import opened JsonPatch
  import opened Wire
  import opened HttpGateway
  import opened Workitems
  import Tags

  const CreateBugPrefix := "Could not create Bug: "
  const UpdatePrefix := "Could not update workitem: "
  const TicketStudioComment := "Added from TicketStudio"
  const OtrsComment := "Added from OTRS"

  /** An element of the tags argument: a tag name, or a Tag object (which has no string conversion). */
  datatype TagInput = TagName(name: string) | TagObject(tag: Tags.Tag)

  /** The tag names, or None when some element is a Tag object. */
  function TagNames(tags: seq<TagInput>): (r: Option<seq<string>>)
    ensures r.Some? <==> forall i :: 0 <= i < |tags| ==> tags[i].TagName?
    ensures r.Some? ==> |r.value| == |tags| && forall i :: 0 <= i < |tags| ==> r.value[i] == tags[i].name
    decreases |tags|
  {
    if |tags| == 0 then Some([])
    else
      var init := tags[..|tags| - 1];
      var last := tags[|tags| - 1];
      assert forall i :: 0 <= i < |init| ==> init[i] == tags[i];
      match TagNames(init)
      case None => None
      case Some(names) => if last.TagName? then Some(names + [last.name]) else None
  }

  /**
   * The tags value: each tag followed by ';', then the last character dropped. A Tag
   * object cannot be converted to a string, which is an Error.
   */
  method TagsValue(tags: seq<TagInput>) returns (r: Result<string>)
    ensures r.Ok? <==> TagNames(tags).Some?
    ensures r.Ok? ==> r.value == Join(TagNames(tags).value, ';')
    ensures r.Err? ==> r.error.TypeError?
  {
    var value := "";
    var i := 0;
    while i < |tags|
      invariant 0 <= i <= |tags|
      invariant TagNames(tags[..i]).Some?
      invariant value == Terminated(TagNames(tags[..i]).value, ';')
    {
      assert tags[..i + 1][..i] == tags[..i];
      if tags[i].TagObject? {
        assert tags[i] == tags[..i + 1][i];
        return Err(TypeError("Object of class Tag could not be converted to string"));
      }
      value := value + tags[i].name + ";";
      i := i + 1;
      assert TagNames(tags[..i]).value == TagNames(tags[..i - 1]).value + [tags[i - 1].name];
    }
    assert tags[..|tags|] == tags;
    if |tags| > 0 {
      TerminatedIsJoinPlusSeparator(TagNames(tags).value, ';');
      value := value[..|value| - 1];
    }
    r := Ok(value);
  }

  /** Tag names without ';' come back out of the joined value one by one. */
  lemma TagsValueSplitsBack(names: seq<string>)
    requires |names| > 0 && forall k :: 0 <= k < |names| ==> ';' !in names[k]
    ensures Split(Join(names, ';'), ';') == names
  {
    SplitJoin(names, ';');
  }

  /** The decimal forms of the ids. */
  function Decimals(ids: seq<int>): (r: seq<string>)
    ensures |r| == |ids| && forall k :: 0 <= k < |ids| ==> r[k] == IntToDecimal(ids[k])
  {
    seq(|ids|, k requires 0 <= k < |ids| => IntToDecimal(ids[k]))
  }

  /** The ids query value: each id followed by ',', then the last character removed. */
  method JoinIds(ids: seq<int>) returns (s: string)
    ensures s == Join(Decimals(ids), ',')
  {
    s := "";
    var i := 0;
    while i < |ids|
      invariant 0 <= i <= |ids|
      invariant s == Terminated(Decimals(ids[..i]), ',')
    {
      assert Decimals(ids[..i + 1]) == Decimals(ids[..i]) + [IntToDecimal(ids[i])];
      s := s + IntToDecimal(ids[i]) + ",";
      i := i + 1;
    }
    assert ids[..|ids|] == ids;
    if |ids| > 0 {
      TerminatedIsJoinPlusSeparator(Decimals(ids), ',');
      s := s[..|s| - 1];
    }
  }

  /** Reading the ids query value back, piece by piece, gives the ids in order. */
  lemma IdsRoundTrip(ids: seq<int>)
    requires |ids| > 0
    ensures var parts := Split(Join(Decimals(ids), ','), ',');
      |parts| == |ids| && forall k :: 0 <= k < |ids| ==> IsIntLiteral(parts[k]) && ParseInt(parts[k]) == ids[k]
  {
    var d := Decimals(ids);
    forall k | 0 <= k < |d|
      ensures ',' !in d[k]
    {
      DecimalHasNoSeparator(ids[k], ',');
    }
    SplitJoin(d, ',');
    forall k | 0 <= k < |ids|
      ensures ParseInt(d[k]) == ids[k]
    {
      ParseIntOfDecimal(ids[k]);
    }
  }

  /** The relation loop of bug creation: one relation per attachment, with the given comment. */
  method RelationOps(attachments: seq<AttachmentInput>, comment: string) returns (ops: seq<PatchOp>)
    ensures ops == Relations(attachments, Some(comment))
  {
    ops := [];
    var i := 0;
    while i < |attachments|
      invariant 0 <= i <= |attachments|
      invariant ops == Relations(attachments[..i], Some(comment))
    {
      assert attachments[..i + 1][..i] == attachments[..i];
      ops := ops + [AddRelation(AttachmentUrl(attachments[i]), Some(comment))];
      i := i + 1;
    }
    assert attachments[..|attachments|] == attachments;
  }

  /** The endpoint bug creation means to post to. */
  function CreateBugUrl(projectBaseUrl: string): (u: string)
    ensures |u| == |projectBaseUrl| + 34
    ensures u[..|projectBaseUrl|] == projectBaseUrl
    ensures u[|projectBaseUrl|..] == "wit/workitems/$Bug?api-version=7.1"
  {
    projectBaseUrl + "wit/workitems/$Bug" + "?api-version=7.1"
  }

  /** The url bug creation posts to as written: the attachment loop reuses `$url`, so the last attachment's url wins. */
  function CreateBugTargetAsWritten(projectBaseUrl: string, attachments: seq<AttachmentInput>): (t: Json)
    ensures |attachments| == 0 ==> t == JStr(CreateBugUrl(projectBaseUrl))
    ensures |attachments| > 0 ==> t == AttachmentUrl(attachments[|attachments| - 1])
  {
    if |attachments| == 0 then JStr(CreateBugUrl(projectBaseUrl)) else AttachmentUrl(attachments[|attachments| - 1])
  }

  /** With one uploaded attachment, the bug is posted to the attachment's url instead of the endpoint. */
  lemma CreateBugWithAttachmentMissesEndpoint(projectBaseUrl: string, ref: AttachmentReferences.AttachmentReference)
    requires ref.url != CreateBugUrl(projectBaseUrl)
    ensures CreateBugTargetAsWritten(projectBaseUrl, [Reference(ref)]) == JStr(ref.url)
    ensures CreateBugTargetAsWritten(projectBaseUrl, [Reference(ref)]) != JStr(CreateBugUrl(projectBaseUrl))
  {
  }

  /** The operations of a new bug: title, repro steps, relations, then the tags when there are any. */
  function BugOps(title: string, description: string, attachments: seq<AttachmentInput>, tagsValue: Option<string>): (ops: seq<PatchOp>)
    ensures |ops| == 2 + |attachments| + (if tagsValue.Some? then 1 else 0)
    ensures ops[0] == AddField(TitlePath, true, title)
    ensures ops[1] == AddField(ReproStepsPath, true, WrapInDiv(description))
    ensures ops[2..2 + |attachments|] == Relations(attachments, Some(TicketStudioComment))
    ensures tagsValue.Some? ==> ops[|ops| - 1] == AddField(RepositoryTagsPath, false, tagsValue.value)
  {
    [AddField(TitlePath, true, title), AddField(ReproStepsPath, true, WrapInDiv(description))]
    + Relations(attachments, Some(TicketStudioComment))
    + (if tagsValue.Some? then [AddField(RepositoryTagsPath, false, tagsValue.value)] else [])
  }

  /** The repository's reading of an exact-200 answer: a transport error is re-raised with the prefix. */
  function ExactAnswer(reply: Reply, prefix: string): (r: Result<Response>)
    ensures reply.TransportFailure? ==> r == Err(LibraryException(prefix + reply.message))
    ensures r.Ok? <==> reply.Answered? && reply.response.status == 200
    ensures r.Ok? ==> r.value == reply.response
    ensures reply.Answered? && reply.response.status == 203 ==> r == Err(AuthenticationException(AuthenticationMessage))
    ensures reply.Answered? && reply.response.status != 200 && reply.response.status != 203 ==>
      r == Err(LibraryException(StatusMessage(prefix, reply.response.status)))
  {
    match reply
    case TransportFailure(m) => Err(LibraryException(prefix + m))
    case Answered(response) =>
      var _ :- ExactStatus(response.status, prefix);
      Ok(response)
  }

  /** A work item answered with 200, read from the decoded body. */
  function WorkitemAnswer(reply: Reply, prefix: string): (r: Result<WorkitemData>)
    ensures ExactAnswer(reply, prefix).Err? ==> r == Err(ExactAnswer(reply, prefix).error)
    ensures ExactAnswer(reply, prefix).Ok? ==> r == FromArray(DecodedOrNull(reply.response.body))
  {
    var response :- ExactAnswer(reply, prefix);
    FromArray(DecodedOrNull(response.body))
  }

  /** The update and comment rule: 203 is an authentication failure, 300 and above a failure, anything else success. */
  function UpdateAnswer(reply: Reply): (r: Result<()>)
    ensures r.Ok? <==> reply.Answered? && reply.response.status != 203 && reply.response.status < 300
    ensures reply.TransportFailure? ==> r == Err(LibraryException(UpdatePrefix + reply.message))
    ensures reply.Answered? && reply.response.status == 203 ==> r == Err(AuthenticationException(AuthenticationMessage))
    ensures reply.Answered? && reply.response.status != 203 && reply.response.status >= 300 ==>
      r == Err(LibraryException(StatusMessage(UpdatePrefix, reply.response.status)))
  {
    match reply
    case TransportFailure(m) => Err(LibraryException(UpdatePrefix + m))
    case Answered(response) =>
      if response.status == 203 then Err(AuthenticationException(AuthenticationMessage))
      else if response.status >= 300 then Err(LibraryException(StatusMessage(UpdatePrefix, response.status)))
      else Ok(())
  }

  /** Unlike reads, an update also counts 201, 204 (and any other status below 300 but 203) as success. */
  lemma UpdateAcceptsMoreThanReads(status: int, body: Body)
    requires status < 300 && status != 200 && status != 203
    ensures UpdateAnswer(Answered(Response(status, body))).Ok?
    ensures ExactAnswer(Answered(Response(status, body)), UpdatePrefix).Err?
  {
  }

  /**
   * The caller's headers for a request with a body, merged under the stored ones: every
   * stored header is sent with its value, and the content type is sent unless the stored
   * headers name one themselves.
   */
  function HeadersWith(contentType: string, authHeader: OrderedArray<string>): (h: OrderedArray<string>)
    requires authHeader.Valid()
    ensures h.Valid()
    ensures StringKeyed(authHeader) ==>
      && (forall k :: k in authHeader.values ==> k in h.values && h.values[k] == authHeader.values[k])
      && StrKey("Content-Type") in h.values
      && (StrKey("Content-Type") !in authHeader.values ==> h.values[StrKey("Content-Type")] == contentType)
      && (forall k :: k in h.values ==> k == StrKey("Content-Type") || k in authHeader.values)
  {
    MergeIntoOne("Content-Type", contentType, authHeader);
    Merge(Put(Empty(), StrKey("Content-Type"), contentType), authHeader)
  }

  const PatchContentType := "application/json-patch+json"
  const JsonContentType := "application/json"

  function UpdateUrl(projectBaseUrl: string, id: string): (u: string)
    ensures u == projectBaseUrl + "wit/workitems/" + id + "?api-version=7.1"
    ensures |u| == |projectBaseUrl| + 14 + |id| + 16
    ensures u[..|projectBaseUrl|] == projectBaseUrl && u[|projectBaseUrl| + 14..|u| - 16] == id
  {
    projectBaseUrl + "wit/workitems/" + id + "?api-version=7.1"
  }

  function RepositoryCommentUrl(projectBaseUrl: string, id: string): (u: string)
    ensures u == projectBaseUrl + "wit/workitems/" + id + "/comments?api-version=7.1"
    ensures |u| == |projectBaseUrl| + 14 + |id| + 25
    ensures u[..|projectBaseUrl|] == projectBaseUrl && u[|projectBaseUrl| + 14..|u| - 25] == id
  {
    projectBaseUrl + "wit/workitems/" + id + "/comments" + "?api-version=7.1"
  }

  function SearchUrl(organization: string, project: string): (u: string)
    ensures |u| == 32 + |organization| + 1 + |project| + 51
    ensures u[..32] == "https://almsearch.dev.azure.com/"
    ensures u[32..|u| - 51] == organization + "/" + project
    ensures u[|u| - 16..] == "?api-version=7.1"
  {
    "https://almsearch.dev.azure.com/" + organization + "/" + project + "/_apis/" + "search/workitemsearchresults" + "?api-version=7.1"
  }

  /** The search document: the text, the first hit only, ordered by id. */
  function SearchBody(searchtext: string): (p: Payload)
    ensures p.JsonBody? && Index(p.document, "searchText") == JStr(searchtext)
    ensures Index(p.document, "$top") == JInt(1) && Index(p.document, "$skip") == JInt(0)
    ensures Has(p.document, "filters") && Index(p.document, "filters") == JNull
    ensures Index(p.document, "$orderBy") == JObject([Member("field", JStr("system.id")), Member("sortOrder", JStr("ASC"))])
    ensures Index(p.document, "includeFacets") == JBool(true)
  {
    var members := [
      Member("searchText", JStr(searchtext)), Member("$skip", JInt(0)), Member("$top", JInt(1)),
      Member("filters", JNull),
      Member("$orderBy", JObject([Member("field", JStr("system.id")), Member("sortOrder", JStr("ASC"))])),
      Member("includeFacets", JBool(true))];
    LookupByLength(members);
    assert members[0].key == "searchText" && members[1].key == "$skip" && members[2].key == "$top";
    assert members[3].key == "filters" && members[4].key == "$orderBy" && members[5].key == "includeFacets";
    JsonBody(JObject(members))
  }

  /** The search answer: no hit, several hits, or the first result read as a work item. */
  function SearchOutcome(result: Json, searchtext: string): (r: Result<WorkitemData>)
    ensures Index(result, "count") == JInt(0) ==>
      r == Err(WorkItemNotFoundException("Could not find WorkItem for " + searchtext))
    ensures Index(result, "count") != JInt(0) && LooseGreaterThanOne(Index(result, "count")) ==>
      r == Err(WorkItemNotUniqueException("More than one WorkItem found for OTRS#" + searchtext))
    ensures Index(result, "count") != JInt(0) && !LooseGreaterThanOne(Index(result, "count")) ==>
      r == FromArray(Nth(Index(result, "results"), 0))
  {
    var count := Index(result, "count");
    if count == JInt(0) then Err(WorkItemNotFoundException("Could not find WorkItem for " + searchtext))
    else if LooseGreaterThanOne(count) then Err(WorkItemNotUniqueException("More than one WorkItem found for OTRS#" + searchtext))
    else FromArray(Nth(Index(result, "results"), 0))
  }

  /** A count of "0" is not the integer 0, and not above one. */
  lemma ZeroTextCountReadsFirst(results: Json, searchtext: string)
    ensures SearchOutcome(JObject([Member("count", JStr("0")), Member("results", results)]), searchtext) == FromArray(Nth(results, 0))
  {
    var members := [Member("count", JStr("0")), Member("results", results)];
    LookupByLength(members);
    assert members[0].key == "count" && members[1].key == "results";
    LooseComparisonOfZeroText();
  }

  /** A missing count reads as null, which is neither 0 nor above one. */
  lemma MissingCountReadsFirst(results: Json, searchtext: string)
    ensures SearchOutcome(JObject([Member("results", results)]), searchtext) == FromArray(Nth(results, 0))
  {
    var members := [Member("results", results)];
    assert Index(JObject(members), "count") == JNull by {
      assert |members[0].key| != |"count"|;
    }
    assert Index(JObject(members), "results") == results by { LookupAt(members, 0); }
  }

  /** Only the integer 0 means no hit: a count of "0" or null goes on to read the first result. */
  lemma SearchCountIsStrict(results: Json, searchtext: string)
    ensures SearchOutcome(JObject([Member("count", JStr("0")), Member("results", results)]), searchtext) == FromArray(Nth(results, 0))
    ensures SearchOutcome(JObject([Member("results", results)]), searchtext) == FromArray(Nth(results, 0))
  {
    ZeroTextCountReadsFirst(results, searchtext);
    MissingCountReadsFirst(results, searchtext);
  }

  /** Each row read with `read`; the first row that cannot be read ends the loop. */
  function ReadEach<T>(rows: seq<Json>, read: Json -> Result<T>): (r: Result<seq<T>>)
    decreases |rows|
  {
    if |rows| == 0 then Ok([])
    else
      var init :- ReadEach(rows[..|rows| - 1], read);
      var last :- read(rows[|rows| - 1]);
      Ok(init + [last])
  }

  /** The rows of an answer read as work items. */
  function ReadAll(rows: seq<Json>): (r: Result<seq<WorkitemData>>)
    ensures r.Ok? <==> forall k :: 0 <= k < |rows| ==> FromArray(rows[k]).Ok?
    ensures r.Ok? ==> |r.value| == |rows| && forall k :: 0 <= k < |rows| ==> FromArray(rows[k]) == Ok(r.value[k])
  {
    ReadEachSucceedsIff(rows, FromArray);
    var items := ReadEach(rows, FromArray);
    if items.Ok? then ReadEachOneForOne(rows, FromArray); items else items
  }

  /** Reading the rows succeeds exactly when every row can be read. */
  lemma {:induction false} ReadEachSucceedsIff<T>(rows: seq<Json>, read: Json -> Result<T>)
    ensures ReadEach(rows, read).Ok? <==> forall k :: 0 <= k < |rows| ==> read(rows[k]).Ok?
    decreases |rows|
  {
    if |rows| > 0 {
      var init := rows[..|rows| - 1];
      ReadEachSucceedsIff(init, read);
      assert forall k :: 0 <= k < |init| ==> init[k] == rows[k];
    }
  }

  /** A successful reading has one result per row, in order. */
  lemma {:induction false} ReadEachOneForOne<T>(rows: seq<Json>, read: Json -> Result<T>)
    requires ReadEach(rows, read).Ok?
    ensures |ReadEach(rows, read).value| == |rows|
    ensures forall k :: 0 <= k < |rows| ==> read(rows[k]) == Ok(ReadEach(rows, read).value[k])
    decreases |rows|
  {
    if |rows| > 0 {
      var init := rows[..|rows| - 1];
      ReadEachOneForOne(init, read);
      assert forall k :: 0 <= k < |init| ==> init[k] == rows[k];
    }
  }

  /** Work items are read one for one from the rows, or some row cannot be read. */
  lemma ReadAllOneForOne(rows: seq<Json>)
    ensures ReadAll(rows).Ok? <==> forall k :: 0 <= k < |rows| ==> FromArray(rows[k]).Ok?
    ensures ReadAll(rows).Ok? ==>
      && |ReadAll(rows).value| == |rows|
      && forall k :: 0 <= k < |rows| ==> FromArray(rows[k]) == Ok(ReadAll(rows).value[k])
  {
    ReadEachSucceedsIff(rows, FromArray);
    if ReadAll(rows).Ok? {
      ReadEachOneForOne(rows, FromArray);
    }
  }

  /** A failed row ends the loop: the whole reading fails the same way. */
  lemma {:induction false} ReadAllFailurePersists(rows: seq<Json>, n: nat)
    requires n <= |rows| && ReadAll(rows[..n]).Err?
    ensures ReadAll(rows) == ReadAll(rows[..n])
    decreases |rows| - n
  {
    if n < |rows| {
      assert rows[..n + 1][..n] == rows[..n];
      ReadAllFailurePersists(rows, n + 1);
    } else {
      assert rows[..n] == rows;
    }
  }

  /** One more row of a prefix: its reading is appended, or its error ends the reading. */
  lemma ReadEachPrefixStep<T>(rows: seq<Json>, read: Json -> Result<T>, i: nat, items: seq<T>)
    requires i < |rows| && ReadEach(rows[..i], read) == Ok(items)
    ensures ReadEach(rows[..i + 1], read) ==
      if read(rows[i]).Ok? then Ok(items + [read(rows[i]).value]) else Err(read(rows[i]).error)
  {
    assert rows[..i + 1][..i] == rows[..i];
  }

  /** `foreach ($result as $row) $retCol[] = Workitem::fromArray($row)`. */
  method ReadRows(rows: seq<Json>) returns (r: Result<seq<WorkitemData>>)
    ensures r == ReadAll(rows)
  {
    var items: seq<WorkitemData> := [];
    var i := 0;
    while i < |rows|
      invariant 0 <= i <= |rows|
      invariant ReadAll(rows[..i]) == Ok(items)
    {
      ReadEachPrefixStep(rows, FromArray, i, items);
      var item := FromArray(rows[i]);
      if item.Err? {
        ReadAllFailurePersists(rows, i + 1);
        return Err(item.error);
      }
      items := items + [item.value];
      i := i + 1;
    }
    assert rows[..|rows|] == rows;
    r := Ok(items);
  }

  function IdsUrl(projectBaseUrl: string, idsValue: string): (u: string)
    ensures |u| == |projectBaseUrl| + 34 + |idsValue|
    ensures u[..|projectBaseUrl|] == projectBaseUrl
    ensures u[|u| - |idsValue| - 5..|u| - |idsValue|] == "&ids="
    ensures u[|u| - |idsValue|..] == idsValue
  {
    projectBaseUrl + "wit/workitems" + "?api-version=7.1&ids=" + idsValue
  }

  class WorkitemRepository {
    const guzzle: Transport
    const projectBaseUrl: string
    const organization: string
    const project: string
    /** The stored Authorization header, as the caller built it. */
    const authHeader: OrderedArray<string>

    ghost predicate Valid()
    {
      authHeader.Valid()
    }

    constructor (guzzle: Transport, projectBaseUrl: string, organization: string, project: string, authHeader: OrderedArray<string>)
      requires authHeader.Valid()
      ensures Valid()
      ensures this.guzzle == guzzle && this.projectBaseUrl == projectBaseUrl && this.organization == organization
      ensures this.project == project && this.authHeader == authHeader
    {
      this.guzzle := guzzle;
      this.projectBaseUrl := projectBaseUrl;
      this.organization := organization;
      this.project := project;
      this.authHeader := authHeader;
    }

    /**
     * `createBug(...)`: no request when a tag cannot be converted; otherwise one
     * POST of the bug's operations to the creation endpoint.
     */
    method CreateBug(title: string, description: string, attachments: seq<AttachmentInput>, tags: seq<TagInput>, reply: Reply)
      returns (r: Result<WorkitemData>)
      requires Valid()
      modifies guzzle
      ensures TagNames(tags).None? ==> guzzle.sent == old(guzzle.sent) && r.Err? && r.error.TypeError?
      ensures TagNames(tags).Some? ==>
        var tagsValue := if |tags| == 0 then None else Some(Join(TagNames(tags).value, ';'));
        && guzzle.sent == old(guzzle.sent) +
             [Request(POST, CreateBugUrl(projectBaseUrl), HeadersWith(PatchContentType, authHeader),
                      PatchBody(BugOps(title, description, attachments, tagsValue)))]
        && r == WorkitemAnswer(reply, CreateBugPrefix)
    {
      var relations := RelationOps(attachments, TicketStudioComment);
      var tagsValue: Option<string> := None;
      if |tags| > 0 {
        var value :- TagsValue(tags);
        tagsValue := Some(value);
      }
      var ops := [AddField(TitlePath, true, title), AddField(ReproStepsPath, true, WrapInDiv(description))]
        + relations + (if tagsValue.Some? then [AddField(RepositoryTagsPath, false, tagsValue.value)] else []);
      var answer := guzzle.Send(Request(POST, CreateBugUrl(projectBaseUrl), HeadersWith(PatchContentType, authHeader), PatchBody(ops)), reply);
      r := WorkitemAnswer(answer, CreateBugPrefix);
    }

    /** `updateWorkitemReproStepsAndAttachments(...)` reading each attachment's url as `AttachmentUrl` does. */
    method UpdateWorkitemReproStepsAndAttachments(workitem: WorkitemData, reproStepsText: string,
                                                  attachments: seq<AttachmentInput>, reply: Reply)
      returns (r: Result<()>)
      requires Valid()
      modifies guzzle
      ensures guzzle.sent == old(guzzle.sent) +
        [Request(PATCH, UpdateUrl(projectBaseUrl, workitem.id), HeadersWith(PatchContentType, authHeader),
                 PatchBody([AddField(ReproStepsPath, true, WrapInDiv(reproStepsText))] + Relations(attachments, Some(OtrsComment))))]
      ensures r == UpdateAnswer(reply)
    {
      var relations := RelationOps(attachments, OtrsComment);
      var ops := [AddField(ReproStepsPath, true, WrapInDiv(reproStepsText))] + relations;
      var answer := guzzle.Send(Request(PATCH, UpdateUrl(projectBaseUrl, workitem.id), HeadersWith(PatchContentType, authHeader), PatchBody(ops)), reply);
      r := UpdateAnswer(answer);
    }

    /** `addCommentToWorkitem(...)`: one POST of `{"text": ...}`. */
    method AddCommentToWorkitem(workitem: WorkitemData, commentText: string, reply: Reply) returns (r: Result<()>)
      requires Valid()
      modifies guzzle
      ensures guzzle.sent == old(guzzle.sent) +
        [Request(POST, RepositoryCommentUrl(projectBaseUrl, workitem.id), HeadersWith(JsonContentType, authHeader),
                 CommentBody(commentText))]
      ensures r == UpdateAnswer(reply)
    {
      var answer := guzzle.Send(Request(POST, RepositoryCommentUrl(projectBaseUrl, workitem.id), HeadersWith(JsonContentType, authHeader), CommentBody(commentText)), reply);
      r := UpdateAnswer(answer);
    }

    /** `getWorkItemFromApiUrl($apiUrl)`: one GET of the url itself. */
    method GetWorkItemFromApiUrl(apiUrl: string, reply: Reply) returns (r: Result<WorkitemData>)
      requires Valid()
      modifies guzzle
      ensures guzzle.sent == old(guzzle.sent) + [Request(GET, apiUrl, authHeader, NoBody)]
      ensures r == WorkitemAnswer(reply, GetFailurePrefix)
    {
      var answer := guzzle.Send(Request(GET, apiUrl, authHeader, NoBody), reply);
      r := WorkitemAnswer(answer, GetFailurePrefix);
    }

    /** `searchWorkitem($text)`: one POST to the search service, then the count rules. */
    method SearchWorkitem(searchtext: string, reply: Reply) returns (r: Result<WorkitemData>)
      requires Valid()
      modifies guzzle
      ensures guzzle.sent == old(guzzle.sent) + [Request(POST, SearchUrl(organization, project), authHeader, SearchBody(searchtext))]
      ensures ExactAnswer(reply, GetFailurePrefix).Err? ==> r == Err(ExactAnswer(reply, GetFailurePrefix).error)
      ensures ExactAnswer(reply, GetFailurePrefix).Ok? ==> r == SearchOutcome(DecodedOrNull(reply.response.body), searchtext)
    {
      var answer := guzzle.Send(Request(POST, SearchUrl(organization, project), authHeader, SearchBody(searchtext)), reply);
      var response :- ExactAnswer(answer, GetFailurePrefix);
      r := SearchOutcome(DecodedOrNull(response.body), searchtext);
    }

    /** `getWorkitemsById($ids)`: nothing is requested for no ids; otherwise one GET, each row read in order. */
    method GetWorkitemsById(ids: seq<int>, reply: Reply) returns (r: Result<seq<WorkitemData>>)
      requires Valid()
      modifies guzzle
      ensures |ids| == 0 ==> r == Ok([]) && guzzle.sent == old(guzzle.sent)
      ensures |ids| > 0 ==>
        && guzzle.sent == old(guzzle.sent) + [Request(GET, IdsUrl(projectBaseUrl, Join(Decimals(ids), ',')), authHeader, NoBody)]
        && (ExactAnswer(reply, GetFailurePrefix).Err? ==> r == Err(ExactAnswer(reply, GetFailurePrefix).error))
        && (ExactAnswer(reply, GetFailurePrefix).Ok? ==>
              r == ReadAll(ForeachValues(Index(DecodedOrNull(reply.response.body), "value"))))
    {
      if |ids| == 0 {
        return Ok([]);
      }
      var idsValue := JoinIds(ids);
      var answer := guzzle.Send(Request(GET, IdsUrl(projectBaseUrl, idsValue), authHeader, NoBody), reply);
      var response :- ExactAnswer(answer, GetFailurePrefix);
      r := ReadRows(ForeachValues(Index(DecodedOrNull(response.body), "value")));
    }
  }
}
