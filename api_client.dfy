/**
 * The legacy facade `AzureDevOpsApiClient`: its project base url, the body of a bug
 * creation, the team lookup by name, the ids query, the count checks of the
 * iteration and search answers, and its range-based status rules (2xx for reads,
 * 400 and above as the failure of writes).
 */
module ApiClient {
  import opened Common
  import opened Text
  import opened PhpValues
  import opened JsonPatch
  import opened Wire
  import opened HttpGateway
  import opened LegacyWorkitems
  import opened WorkItemBuilders
  import opened WorkitemRepositories

  /** `baseUrl . organization . '/' . project . '/_apis/'`. */
  function ProjectBaseUrl(baseUrl: string, organization: string, project: string): (u: string)
    ensures |u| == |baseUrl| + |organization| + |project| + 8
    ensures u[..|baseUrl|] == baseUrl
    ensures u[|baseUrl|..|baseUrl| + |organization|] == organization
    ensures u[|baseUrl| + |organization|] == '/'
    ensures u[|baseUrl| + |organization| + 1..|u| - 7] == project
    ensures u[|u| - 7..] == "/_apis/"
  {
    baseUrl + organization + "/" + project + "/_apis/"
  }

  /** A 2xx status, the success range of the facade's reads and of bug creation. */
  predicate Success(status: int) { 200 <= status < 300 }

  const CreateFailurePrefix := "Could not create Bug: "
  const TeamFailurePrefix := "Could not get Team: "
  const WriteFailurePrefix := "Could not update workitem: "

  /** The first two operations of a legacy bug: the title, then the repro steps wrapped in a div. */
  function LegacyBugHead(title: string, description: string): (ops: seq<PatchOp>)
  {
    [AddField(TitlePath, true, title), AddField(ReproStepsPath, true, WrapInDiv(description))]
  }

  /**
   * The properties of the legacy work item a bug creation returns: a 2xx answer is
   * read as a ticket, any other status fails with the status in the message.
   */
  function CreateOutcome(response: Response): (r: Result<map<string, Json>>)
    ensures Success(response.status) ==> r == TicketProperties(DecodedOrNull(response.body))
    ensures !Success(response.status) ==> r == Err(LibraryException(StatusMessage(CreateFailurePrefix, response.status)))
  {
    if Success(response.status) then TicketProperties(DecodedOrNull(response.body))
    else Err(LibraryException(StatusMessage(CreateFailurePrefix, response.status)))
  }

  /** The teams of a listing whose name is exactly `name`, in listing order. */
  function NamedTeams(teams: seq<Json>, name: string): (r: seq<Json>)
    ensures |r| <= |teams|
    ensures forall k :: 0 <= k < |r| ==> Index(r[k], "name") == JStr(name)
    decreases |teams|
  {
    if |teams| == 0 then []
    else
      var init := NamedTeams(teams[..|teams| - 1], name);
      var last := teams[|teams| - 1];
      if Index(last, "name") == JStr(name) then init + [last] else init
  }

  /** The index of a team called `name` is the only one. */
  predicate OnlyNamed(teams: seq<Json>, name: string, k: nat)
  {
    k < |teams| && Index(teams[k], "name") == JStr(name)
    && forall j :: 0 <= j < |teams| && j != k ==> Index(teams[j], "name") != JStr(name)
  }

  /** With no team of that name the filter finds nothing. */
  lemma {:induction false} NoTeamNamed(teams: seq<Json>, name: string)
    requires forall j :: 0 <= j < |teams| ==> Index(teams[j], "name") != JStr(name)
    ensures NamedTeams(teams, name) == []
    decreases |teams|
  {
    if |teams| > 0 {
      var init := teams[..|teams| - 1];
      assert forall j :: 0 <= j < |init| ==> init[j] == teams[j];
      NoTeamNamed(init, name);
    }
  }

  /** With exactly one team of that name the filter finds that team alone. */
  lemma {:induction false} OneTeamNamed(teams: seq<Json>, name: string, k: nat)
    requires OnlyNamed(teams, name, k)
    ensures NamedTeams(teams, name) == [teams[k]]
    decreases |teams|
  {
    var init := teams[..|teams| - 1];
    assert forall j :: 0 <= j < |init| ==> init[j] == teams[j];
    if k == |teams| - 1 {
      NoTeamNamed(init, name);
    } else {
      OneTeamNamed(init, name, k);
    }
  }

  /** Two teams of that name make the filter find at least two. */
  lemma {:induction false} TwoTeamsNamed(teams: seq<Json>, name: string, i: nat, j: nat)
    requires i < j < |teams|
    requires Index(teams[i], "name") == JStr(name) && Index(teams[j], "name") == JStr(name)
    ensures |NamedTeams(teams, name)| >= 2
    decreases |teams|
  {
    var init := teams[..|teams| - 1];
    assert forall m :: 0 <= m < |init| ==> init[m] == teams[m];
    if j == |teams| - 1 {
      assert |NamedTeams(init, name)| >= 1 by {
        AtLeastOneNamed(init, name, i);
      }
    } else {
      TwoTeamsNamed(init, name, i, j);
    }
  }

  lemma {:induction false} AtLeastOneNamed(teams: seq<Json>, name: string, i: nat)
    requires i < |teams| && Index(teams[i], "name") == JStr(name)
    ensures |NamedTeams(teams, name)| >= 1
    decreases |teams|
  {
    var init := teams[..|teams| - 1];
    assert forall m :: 0 <= m < |init| ==> init[m] == teams[m];
    if i < |teams| - 1 {
      AtLeastOneNamed(init, name, i);
    }
  }

  /**
   * `getTeamIdByName` on the team listing it fetched: 400 and above fail, then the
   * teams of `value` are filtered by their exact name; none and more than one are
   * errors, and the one match gives its id, which the string return type demands.
   */
  function TeamIdByName(response: Response, name: string): (r: Result<string>)
    ensures response.status >= 400 ==> r == Err(LibraryException(StatusMessage(TeamFailurePrefix, response.status)))
  {
    if response.status >= 400 then Err(LibraryException(StatusMessage(TeamFailurePrefix, response.status)))
    else
      var matches := NamedTeams(CollectItems(Index(DecodedOrNull(response.body), "value")), name);
      if |matches| < 1 then Err(LibraryException("Team not found"))
      else if |matches| > 1 then Err(LibraryException("More than one team found"))
      else StrictString(Index(matches[0], "id"))
  }

  /** The teams of a listing, as `collect($decoded['value'])` holds them. */
  function ListedTeams(response: Response): seq<Json>
  {
    CollectItems(Index(DecodedOrNull(response.body), "value"))
  }

  /** Below 400, the lookup's answer is decided by how many listed teams carry the name. */
  lemma TeamLookup(response: Response, name: string)
    requires response.status < 400
    ensures (forall j :: 0 <= j < |ListedTeams(response)| ==> Index(ListedTeams(response)[j], "name") != JStr(name)) ==>
      TeamIdByName(response, name) == Err(LibraryException("Team not found"))
    ensures forall k: nat :: OnlyNamed(ListedTeams(response), name, k) ==>
      TeamIdByName(response, name) == StrictString(Index(ListedTeams(response)[k], "id"))
    ensures forall i: nat, j: nat ::
      (i < j < |ListedTeams(response)| && Index(ListedTeams(response)[i], "name") == JStr(name)
       && Index(ListedTeams(response)[j], "name") == JStr(name)) ==>
      TeamIdByName(response, name) == Err(LibraryException("More than one team found"))
  {
    var teams := ListedTeams(response);
    if forall j :: 0 <= j < |teams| ==> Index(teams[j], "name") != JStr(name) {
      NoTeamNamed(teams, name);
    }
    forall k: nat | OnlyNamed(teams, name, k)
      ensures TeamIdByName(response, name) == StrictString(Index(teams[k], "id"))
    {
      OneTeamNamed(teams, name, k);
    }
    forall i: nat, j: nat | i < j < |teams| && Index(teams[i], "name") == JStr(name) && Index(teams[j], "name") == JStr(name)
      ensures TeamIdByName(response, name) == Err(LibraryException("More than one team found"))
    {
      TwoTeamsNamed(teams, name, i, j);
    }
  }

  /** The work items url of `getWorkitemsById`, on the fixed dev.azure.com host. */
  function LegacyIdsUrl(organization: string, project: string, idsValue: string): (u: string)
    ensures |u| == 22 + |organization| + 1 + |project| + 41 + |idsValue|
    ensures u[..22] == "https://dev.azure.com/"
    ensures u[|u| - |idsValue| - 5..|u| - |idsValue|] == "&ids="
    ensures u[|u| - |idsValue|..] == idsValue
  {
    "https://dev.azure.com/" + organization + "/" + project + "/_apis/" + "wit/workitems" + "?api-version=6.0&ids=" + idsValue
  }

  /** Without ids there is no early return: the query ends in an empty `ids=`. */
  lemma NoIdsStillQuery(organization: string, project: string)
    ensures var u := LegacyIdsUrl(organization, project, Join(Decimals([]), ','));
      u[|u| - 5..] == "&ids="
  {
  }

  /** The rows of a 2xx answer to `getWorkitemsById`, each read as a legacy work item. */
  function LegacyRows(response: Response): (r: Result<seq<map<string, Json>>>)
    ensures !Success(response.status) ==> r == Err(LibraryException(StatusMessage(GetFailurePrefix, response.status)))
  {
    if Success(response.status) then ReadEach(CollectItems(Index(DecodedOrNull(response.body), "value")), TicketProperties)
    else Err(LibraryException(StatusMessage(GetFailurePrefix, response.status)))
  }

  /** A 2xx answer gives one legacy work item per row, in order, or fails when some row cannot be read. */
  lemma LegacyRowsOneForOne(response: Response)
    requires Success(response.status)
    ensures var rows := CollectItems(Index(DecodedOrNull(response.body), "value"));
      && (LegacyRows(response).Ok? <==> forall k :: 0 <= k < |rows| ==> TicketProperties(rows[k]).Ok?)
      && (LegacyRows(response).Ok? ==>
        && |LegacyRows(response).value| == |rows|
        && forall k :: 0 <= k < |rows| ==> TicketProperties(rows[k]) == Ok(LegacyRows(response).value[k]))
  {
    var rows := CollectItems(Index(DecodedOrNull(response.body), "value"));
    ReadEachSucceedsIff(rows, TicketProperties);
    if LegacyRows(response).Ok? {
      ReadEachOneForOne(rows, TicketProperties);
    }
  }

  /** The text the iteration messages end in: `organization/project/team`. */
  function IterationTarget(organization: string, project: string, team: string): string
  {
    organization + "/" + project + "/" + team
  }

  /**
   * The count checks of `getCurrentIterationPath`, with each check reading its own
   * decoding of the body: `first` for the zero count, `second` for the count above
   * one and `third` for the path of the first iteration.
   */
  function IterationReads(first: Json, second: Json, third: Json, target: string): (r: Result<string>)
    ensures Index(first, "count") == JInt(0) ==> r == Err(LibraryException("Could not find Iteration for " + target))
  {
    if Index(first, "count") == JInt(0) then Err(LibraryException("Could not find Iteration for " + target))
    else if LooseGreaterThanOne(Index(second, "count")) then Err(LibraryException("More than one Iteration found for " + target))
    else StrictString(Index(Nth(Index(third, "value"), 0), "path"))
  }

  /** The count checks on one decoded answer, as they are meant. */
  function IterationCount(doc: Json, target: string): (r: Result<string>)
    ensures Index(doc, "count") == JInt(0) ==> r == Err(LibraryException("Could not find Iteration for " + target))
    ensures forall n :: n > 1 && Index(doc, "count") == JInt(n) ==>
      r == Err(LibraryException("More than one Iteration found for " + target))
    ensures Index(doc, "count") == JInt(1) ==> r == StrictString(Index(Nth(Index(doc, "value"), 0), "path"))
    ensures Index(doc, "count") != JInt(0) && LooseGreaterThanOne(Index(doc, "count")) ==>
      r == Err(LibraryException("More than one Iteration found for " + target))
    ensures Index(doc, "count") != JInt(0) && !LooseGreaterThanOne(Index(doc, "count")) ==>
      r == StrictString(Index(Nth(Index(doc, "value"), 0), "path"))
  {
    IterationReads(doc, doc, doc, target)
  }

  /**
   * A count the service sends as a decimal string, with or without whitespace around it,
   * is compared as its number: above one is an error, and otherwise (the string "0"
   * included, since only the integer 0 is `=== 0`) the first iteration's path is read.
   */
  lemma IterationCountOfString(doc: Json, target: string, before: string, n: int, after: string)
    requires AllNumericSpace(before) && AllNumericSpace(after)
    requires Index(doc, "count") == JStr(before + IntToDecimal(n) + after)
    ensures n > 1 ==> IterationCount(doc, target) == Err(LibraryException("More than one Iteration found for " + target))
    ensures n <= 1 ==> IterationCount(doc, target) == StrictString(Index(Nth(Index(doc, "value"), 0), "path"))
  {
    LooseComparisonIgnoresPadding(before, n, after, 0);
  }

  /**
   * As written, each check decodes the body stream again; once the first decoding has
   * drained it, the later ones read an empty body, which `json_decode` makes null.
   */
  function IterationCountAsWritten(doc: Json, target: string): (r: Result<string>)
    ensures r.Err?
    ensures Index(doc, "count") != JInt(0) ==> r.error.TypeError?
  {
    IterationReads(doc, JNull, JNull, target)
  }

  /** As written, the iteration check never yields a path. */
  lemma IterationCountAsWrittenNeverSucceeds(doc: Json, target: string)
    ensures IterationCountAsWritten(doc, target).Err?
    ensures Index(doc, "count") != JInt(0) ==> IterationCountAsWritten(doc, target).error.TypeError?
  {
  }

  /** One current iteration with a path: the intended check returns it, the written one fails. */
  lemma IterationReReadLosesPath(path: string, target: string)
    ensures var doc := JObject([Member("count", JInt(1)), Member("value", JList([JObject([Member("path", JStr(path))])]))]);
      && IterationCount(doc, target) == Ok(path)
      && IterationCountAsWritten(doc, target).Err?
  {
    var entry := JObject([Member("path", JStr(path))]);
    var doc := JObject([Member("count", JInt(1)), Member("value", JList([entry]))]);
    LookupAt(doc.members, 1);
    LookupAt(entry.members, 0);
  }

  /**
   * `getCurrentIterationPath` given the team, the id the team lookup found and the
   * answer the iterations request got.
   */
  function IterationPath(team: Option<string>, teamId: Result<string>, response: Response,
                         organization: string, project: string): (r: Result<string>)
    ensures team.None? ==> r == Err(LibraryException("No Team configured"))
    ensures team.Some? && teamId.Err? ==> r == Err(teamId.error)
    ensures team.Some? && teamId.Ok? && !Success(response.status) ==>
      r == Err(LibraryException(StatusMessage(GetFailurePrefix, response.status)))
    ensures team.Some? && teamId.Ok? && Success(response.status) ==>
      r == IterationCount(DecodedOrNull(response.body), IterationTarget(organization, project, team.value))
  {
    if team.None? then Err(LibraryException("No Team configured"))
    else
      var _ :- teamId;
      if Success(response.status) then IterationCount(DecodedOrNull(response.body), IterationTarget(organization, project, team.value))
      else Err(LibraryException(StatusMessage(GetFailurePrefix, response.status)))
  }

  /**
   * The count checks of `searchWorkitem`, with each check reading its own decoding
   * of the body, as for the iterations.
   */
  function SearchReads(first: Json, second: Json, third: Json, searchtext: string): (r: Result<map<string, Json>>)
    ensures Index(first, "count") == JInt(0) ==> r == Err(WorkItemNotFoundException("Could not find WorkItem for " + searchtext))
  {
    if Index(first, "count") == JInt(0) then Err(WorkItemNotFoundException("Could not find WorkItem for " + searchtext))
    else if LooseGreaterThanOne(Index(second, "count")) then Err(WorkItemNotUniqueException("More than one WorkItem found for OTRS#" + searchtext))
    else TicketProperties(Nth(Index(third, "results"), 0))
  }

  /** The search count checks on one decoded answer, as they are meant. */
  function SearchCount(doc: Json, searchtext: string): (r: Result<map<string, Json>>)
    ensures Index(doc, "count") == JInt(0) ==>
      r == Err(WorkItemNotFoundException("Could not find WorkItem for " + searchtext))
    ensures forall n :: n > 1 && Index(doc, "count") == JInt(n) ==>
      r == Err(WorkItemNotUniqueException("More than one WorkItem found for OTRS#" + searchtext))
    ensures Index(doc, "count") == JInt(1) ==> r == TicketProperties(Nth(Index(doc, "results"), 0))
    ensures Index(doc, "count") != JInt(0) && LooseGreaterThanOne(Index(doc, "count")) ==>
      r == Err(WorkItemNotUniqueException("More than one WorkItem found for OTRS#" + searchtext))
    ensures Index(doc, "count") != JInt(0) && !LooseGreaterThanOne(Index(doc, "count")) ==>
      r == TicketProperties(Nth(Index(doc, "results"), 0))
  {
    SearchReads(doc, doc, doc, searchtext)
  }

  /**
   * A count sent as a decimal string, with or without whitespace around it, is compared
   * as its number: above one is not unique, and otherwise the first result is read.
   */
  lemma SearchCountOfString(doc: Json, searchtext: string, before: string, n: int, after: string)
    requires AllNumericSpace(before) && AllNumericSpace(after)
    requires Index(doc, "count") == JStr(before + IntToDecimal(n) + after)
    ensures n > 1 ==>
      SearchCount(doc, searchtext) == Err(WorkItemNotUniqueException("More than one WorkItem found for OTRS#" + searchtext))
    ensures n <= 1 ==> SearchCount(doc, searchtext) == TicketProperties(Nth(Index(doc, "results"), 0))
  {
    LooseComparisonIgnoresPadding(before, n, after, 0);
  }

  /** As written: the later checks read the drained body as null. */
  function SearchCountAsWritten(doc: Json, searchtext: string): (r: Result<map<string, Json>>)
    ensures r.Err?
    ensures Index(doc, "count") != JInt(0) ==> r.error.TypeError?
  {
    SearchReads(doc, JNull, JNull, searchtext)
  }

  /** As written, a search never yields a work item: the third read hands null to the legacy work item. */
  lemma SearchCountAsWrittenNeverSucceeds(doc: Json, searchtext: string)
    ensures SearchCountAsWritten(doc, searchtext).Err?
    ensures Index(doc, "count") != JInt(0) ==> SearchCountAsWritten(doc, searchtext).error.TypeError?
  {
  }

  /** A single hit that is a ticket: the intended check reads it, the written one fails. */
  lemma SearchReReadLosesHit(hit: Json, searchtext: string)
    requires IsArray(hit)
    ensures var doc := JObject([Member("count", JInt(1)), Member("results", JList([hit]))]);
      && SearchCount(doc, searchtext) == TicketProperties(hit)
      && (SearchCount(doc, searchtext).Ok? <==> AssignFields(HeaderProperties(hit), ForeachMembers(Index(hit, "fields"))).Ok?)
      && SearchCountAsWritten(doc, searchtext).Err?
  {
    var doc := JObject([Member("count", JInt(1)), Member("results", JList([hit]))]);
    LookupAt(doc.members, 1);
  }

  /** `searchWorkitem` on the answer it got: only 2xx is read. */
  function SearchOutcomeOf(response: Response, searchtext: string): (r: Result<map<string, Json>>)
    ensures Success(response.status) ==> r == SearchCount(DecodedOrNull(response.body), searchtext)
    ensures !Success(response.status) ==> r == Err(LibraryException(StatusMessage(GetFailurePrefix, response.status)))
  {
    if Success(response.status) then SearchCount(DecodedOrNull(response.body), searchtext)
    else Err(LibraryException(StatusMessage(GetFailurePrefix, response.status)))
  }

  /** The rule of the facade's update, comment and upload: 400 and above fail. */
  function WriteStatus(status: int): (r: Result<()>)
    ensures r.Ok? <==> status < 400
    ensures r.Err? ==> r.error == LibraryException(StatusMessage(WriteFailurePrefix, status))
  {
    if status >= 400 then Err(LibraryException(StatusMessage(WriteFailurePrefix, status))) else Ok(())
  }

  /** `uploadAttachment`: below 400 the decoded answer is returned as it is. */
  function UploadOutcome(response: Response): (r: Result<Json>)
    ensures r.Ok? <==> response.status < 400
    ensures r.Ok? ==> r.value == DecodedOrNull(response.body)
    ensures r.Err? ==> r.error == LibraryException(StatusMessage(WriteFailurePrefix, response.status))
  {
    var _ :- WriteStatus(response.status);
    Ok(DecodedOrNull(response.body))
  }

  /**
   * The ranges differ: a 3xx answer fails a bug creation and the repository's update,
   * but passes the facade's update.
   */
  lemma RangesDiffer(status: int, body: Body)
    requires 300 <= status < 400
    ensures CreateOutcome(Response(status, body)).Err?
    ensures WriteStatus(status).Ok?
    ensures UpdateAnswer(Answered(Response(status, body))).Err?
  {
  }

  /** The legacy facade: credentials, the project it works in, and its Guzzle client. */
  class AzureDevOpsApiClient {
    const username: string
    const password: string
    const baseUrl: string
    const organization: string
    const project: string
    const projectBaseUrl: string
    var guzzle: Transport
    /** Declared but never assigned by the facade. */
    var team: Option<string>

    /** `client` stands for the `new Client()` the constructor creates. */
    constructor (username: string, secret: string, baseUrl: string, organization: string, project: string, client: Transport)
      ensures this.username == username && this.password == secret
      ensures this.baseUrl == baseUrl && this.organization == organization && this.project == project
      ensures projectBaseUrl == ProjectBaseUrl(baseUrl, organization, project)
      ensures guzzle == client && team == None
    {
      this.username := username;
      this.password := secret;
      this.baseUrl := baseUrl;
      this.organization := organization;
      this.project := project;
      this.projectBaseUrl := baseUrl + organization + "/" + project + "/_apis/";
      this.guzzle := client;
      this.team := None;
    }

    method SetHttpClient(client: Transport)
      modifies this
      ensures guzzle == client && team == old(team)
    {
      guzzle := client;
    }

    /**
     * The url and operations `createBug` builds: each attachment is read as an array
     * for its `azureDevOpsUrl`, which an AttachmentReference object cannot be.
     */
    method CreateBugRequest(title: string, description: string, attachments: seq<AttachmentInput>)
      returns (url: string, body: Result<seq<PatchOp>>)
      ensures url == CreateUrl(projectBaseUrl, "Bug")
      ensures body.Ok? <==> forall k :: 0 <= k < |attachments| ==> attachments[k].Raw?
      ensures body.Ok? ==> body.value == LegacyBugHead(title, description) + Relations(attachments, Some(OtrsComment))
      ensures body.Err? ==> body.error.TypeError?
    {
      url := CreateUrl(projectBaseUrl, "Bug");
      var relations := ReadRelations(attachments, OtrsComment);
      ArrayRelationsRejectsReferences(attachments, OtrsComment);
      if relations.Err? {
        return url, Err(relations.error);
      }
      body := Ok(LegacyBugHead(title, description) + relations.value);
    }

    /** The url `getWorkitemsById` requests, with the ids joined by ',' and no early return. */
    method WorkitemsByIdUrl(ids: seq<int>) returns (url: string)
      ensures url == LegacyIdsUrl(organization, project, Join(Decimals(ids), ','))
    {
      var idsString := JoinIds(ids);
      url := "https://dev.azure.com/" + organization + "/" + project + "/_apis/" + "wit/workitems" + "?api-version=6.0&ids=" + idsString;
    }

    /** `getCurrentIterationPath` of this client. */
    function CurrentIterationPath(teamId: Result<string>, response: Response): (r: Result<string>)
      reads this
      ensures team.None? ==> r == Err(LibraryException("No Team configured"))
    {
      IterationPath(team, teamId, response, organization, project)
    }
  }
}
