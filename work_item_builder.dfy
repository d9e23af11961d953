/**
 * The fluent builder (WorkItemBuilder): named slots of a JSON Patch document that
 * later calls overwrite in place, attachment relations appended after them, and
 * one PATCH that creates the work item.
 */
module WorkItemBuilders {
  import opened Common
  import opened PhpValues
  import opened Text
  import opened OrderedArrays
  import opened JsonPatch
  import opened Wire
  import opened HttpGateway
  import opened Workitems

  const TitleSlot := StrKey("title")
  const ReproStepsSlot := StrKey("reproSteps")
  const DescriptionSlot := StrKey("description")
  const TagsSlot := StrKey("tags")
  const AreaPathSlot := StrKey("areaPath")
  const IterationPathSlot := StrKey("iterationPath")

  /** The body after `attachments($as)`: one appended relation per element, in order. */
  function AppendRelations(body: OrderedArray<PatchOp>, attachments: seq<AttachmentInput>): (r: OrderedArray<PatchOp>)
    requires body.Valid()
    ensures r.Valid()
    ensures |r.keys| == |body.keys| + |attachments| && r.keys[..|body.keys|] == body.keys
    ensures forall k :: k in body.values ==> k in r.values && r.values[k] == body.values[k]
    decreases |attachments|
  {
    if |attachments| == 0 then body
    else Append(AppendRelations(body, attachments[..|attachments| - 1]),
                AddRelation(AttachmentUrl(attachments[|attachments| - 1]), None))
  }

  /** One more attachment appends one more relation. */
  lemma AppendRelationsStep(body: OrderedArray<PatchOp>, attachments: seq<AttachmentInput>, i: nat)
    requires body.Valid() && i < |attachments|
    ensures AppendRelations(body, attachments[..i + 1]) ==
      Append(AppendRelations(body, attachments[..i]), AddRelation(AttachmentUrl(attachments[i]), None))
  {
    assert attachments[..i + 1][..i] == attachments[..i];
  }

  /** The last attachment's relation is the last one appended. */
  lemma AppendRelationsLast(body: OrderedArray<PatchOp>, attachments: seq<AttachmentInput>)
    requires body.Valid() && |attachments| > 0
    ensures var op := AddRelation(AttachmentUrl(attachments[|attachments| - 1]), None);
      && AppendRelations(body, attachments) == Append(AppendRelations(body, attachments[..|attachments| - 1]), op)
      && Relations(attachments, None) == Relations(attachments[..|attachments| - 1], None) + [op]
  {
  }

  /** The relations go after everything already in the body, in the order given. */
  lemma {:induction false} AppendRelationsValues(body: OrderedArray<PatchOp>, attachments: seq<AttachmentInput>)
    requires body.Valid()
    ensures Values(AppendRelations(body, attachments)) == Values(body) + Relations(attachments, None)
    decreases |attachments|
  {
    if |attachments| > 0 {
      var init := attachments[..|attachments| - 1];
      var op := AddRelation(AttachmentUrl(attachments[|attachments| - 1]), None);
      AppendRelationsLast(body, attachments);
      AppendRelationsValues(body, init);
      AppendAddsAtEnd(AppendRelations(body, init), op);
      SeqAssociates(Values(body), Relations(init, None), op);
    }
  }

  lemma SeqAssociates<T>(a: seq<T>, b: seq<T>, x: T)
    ensures (a + b) + [x] == a + (b + [x])
  {
  }

  /** The endpoint that creates a work item of the given type. */
  function CreateUrl(projectBaseUrl: string, workItemType: string): (u: string)
    ensures |u| == |projectBaseUrl| + 15 + |workItemType| + 26
    ensures u[..|projectBaseUrl|] == projectBaseUrl
    ensures u[|projectBaseUrl|..|projectBaseUrl| + 15] == "wit/workitems/$"
    ensures u[|projectBaseUrl| + 15..|projectBaseUrl| + 15 + |workItemType|] == workItemType
    ensures u[|projectBaseUrl| + 15 + |workItemType|..] == "?api-version=6.1-preview.3"
  {
    FourPieces(projectBaseUrl, "wit/workitems/$", workItemType, "?api-version=6.1-preview.3");
    projectBaseUrl + "wit/workitems/$" + workItemType + "?api-version=6.1-preview.3"
  }

  class WorkItemBuilder {
    /** The patch operations, under their slot names or appended integer keys. */
    var requestBody: OrderedArray<PatchOp>
    const workItemType: string
    /** The api client's project url, ending in '/_apis/'. */
    const projectBaseUrl: string
    /** The gateway the api client sends through. */
    const gateway: HttpClient

    ghost predicate Valid()
      reads this
    {
      requestBody.Valid()
    }

    constructor (projectBaseUrl: string, gateway: HttpClient, workItemType: string)
      ensures Valid() && requestBody == Empty()
      ensures this.workItemType == workItemType && this.projectBaseUrl == projectBaseUrl && this.gateway == gateway
    {
      requestBody := Empty();
      this.workItemType := workItemType;
      this.projectBaseUrl := projectBaseUrl;
      this.gateway := gateway;
    }

    static method BuildBug(projectBaseUrl: string, gateway: HttpClient) returns (b: WorkItemBuilder)
      ensures fresh(b) && b.Valid() && b.requestBody == Empty() && b.workItemType == "Bug"
      ensures b.projectBaseUrl == projectBaseUrl && b.gateway == gateway
    {
      b := new WorkItemBuilder(projectBaseUrl, gateway, "Bug");
    }

    static method BuildPBI(projectBaseUrl: string, gateway: HttpClient) returns (b: WorkItemBuilder)
      ensures fresh(b) && b.Valid() && b.requestBody == Empty() && b.workItemType == "Product Backlog Item"
      ensures b.projectBaseUrl == projectBaseUrl && b.gateway == gateway
    {
      b := new WorkItemBuilder(projectBaseUrl, gateway, "Product Backlog Item");
    }

    static method BuildIssue(projectBaseUrl: string, gateway: HttpClient) returns (b: WorkItemBuilder)
      ensures fresh(b) && b.Valid() && b.requestBody == Empty() && b.workItemType == "Issue"
      ensures b.projectBaseUrl == projectBaseUrl && b.gateway == gateway
    {
      b := new WorkItemBuilder(projectBaseUrl, gateway, "Issue");
    }

    static method BuildUserStory(projectBaseUrl: string, gateway: HttpClient) returns (b: WorkItemBuilder)
      ensures fresh(b) && b.Valid() && b.requestBody == Empty() && b.workItemType == "User Story"
      ensures b.projectBaseUrl == projectBaseUrl && b.gateway == gateway
    {
      b := new WorkItemBuilder(projectBaseUrl, gateway, "User Story");
    }

    method InIterationPath(iterationPath: string) returns (self: WorkItemBuilder)
      requires Valid()
      modifies this
      ensures Valid() && self == this
      ensures requestBody == Put(old(requestBody), IterationPathSlot, AddField(IterationPathPath, false, iterationPath))
    {
      requestBody := Put(requestBody, IterationPathSlot, AddField(IterationPathPath, false, iterationPath));
      self := this;
    }

    /** `inCurrentIterationPath($team)`; `current` is what the api client's lookup returns. */
    method InCurrentIterationPath(current: Result<string>) returns (r: Result<WorkItemBuilder>)
      requires Valid()
      modifies this
      ensures Valid()
      ensures current.Err? ==> r == Err(current.error) && requestBody == old(requestBody)
      ensures current.Ok? ==>
        && r == Ok(this)
        && requestBody == Put(old(requestBody), IterationPathSlot, AddField(IterationPathPath, false, current.value))
    {
      if current.Err? {
        return Err(current.error);
      }
      var self := InIterationPath(current.value);
      r := Ok(self);
    }

    method AreaPath(areaPath: string) returns (self: WorkItemBuilder)
      requires Valid()
      modifies this
      ensures Valid() && self == this
      ensures requestBody == Put(old(requestBody), AreaPathSlot, AddField(AreaPathPath, false, areaPath))
    {
      requestBody := Put(requestBody, AreaPathSlot, AddField(AreaPathPath, false, areaPath));
      self := this;
    }

    method Title(title: string) returns (self: WorkItemBuilder)
      requires Valid()
      modifies this
      ensures Valid() && self == this
      ensures requestBody == Put(old(requestBody), TitleSlot, AddField(TitlePath, true, title))
    {
      requestBody := Put(requestBody, TitleSlot, AddField(TitlePath, true, title));
      self := this;
    }

    method ReproSteps(reproSteps: string) returns (self: WorkItemBuilder)
      requires Valid()
      modifies this
      ensures Valid() && self == this
      ensures requestBody == Put(old(requestBody), ReproStepsSlot, AddField(ReproStepsPath, true, WrapInDiv(reproSteps)))
    {
      requestBody := Put(requestBody, ReproStepsSlot, AddField(ReproStepsPath, true, WrapInDiv(reproSteps)));
      self := this;
    }

    method Description(description: string) returns (self: WorkItemBuilder)
      requires Valid()
      modifies this
      ensures Valid() && self == this
      ensures requestBody == Put(old(requestBody), DescriptionSlot, AddField(DescriptionPath, true, WrapInDiv(description)))
    {
      requestBody := Put(requestBody, DescriptionSlot, AddField(DescriptionPath, true, WrapInDiv(description)));
      self := this;
    }

    method Tags(tags: string) returns (self: WorkItemBuilder)
      requires Valid()
      modifies this
      ensures Valid() && self == this
      ensures requestBody == Put(old(requestBody), TagsSlot, AddField(TagsPath, false, tags))
    {
      requestBody := Put(requestBody, TagsSlot, AddField(TagsPath, false, tags));
      self := this;
    }

    /** `attachments($as)`: one `AttachedFile` relation per element, appended in order. */
    method Attachments(attachments: seq<AttachmentInput>) returns (self: WorkItemBuilder)
      requires Valid()
      modifies this
      ensures Valid() && self == this
      ensures requestBody == AppendRelations(old(requestBody), attachments)
    {
      var i := 0;
      while i < |attachments|
        invariant 0 <= i <= |attachments|
        invariant requestBody.Valid()
        invariant requestBody == AppendRelations(old(requestBody), attachments[..i])
      {
        AppendRelationsStep(old(requestBody), attachments, i);
        requestBody := Append(requestBody, AddRelation(AttachmentUrl(attachments[i]), None));
        i := i + 1;
      }
      assert attachments[..|attachments|] == attachments;
      self := this;
    }

    /**
     * `create()`: one PATCH of the operations in insertion order; the decoded answer
     * is read as a Workitem (a body that does not decode to an array is a TypeError).
     */
    method Create(reply: Reply) returns (r: Result<Workitem>)
      requires Valid()
      modifies gateway.guzzle
      ensures gateway.guzzle.sent == old(gateway.guzzle.sent) +
        [Request(PATCH, CreateUrl(projectBaseUrl, workItemType),
                 OutgoingHeaders(Empty(), gateway.username, gateway.password), PatchBody(Values(requestBody)))]
      ensures Outcome(reply, SendFailurePrefix).Err? ==> r == Err(Outcome(reply, SendFailurePrefix).error)
      ensures Outcome(reply, SendFailurePrefix).Ok? ==>
        var data := FromArray(DecodedOrNull(reply.response.body));
        && (r.Ok? <==> data.Ok?)
        && (r.Err? ==> r.error == data.error)
        && (r.Ok? ==>
              && fresh(r.value) && r.value.data == data.value && r.value.htmlLink == JNull
              && r.value.projectBaseUrl == projectBaseUrl && r.value.gateway == gateway)
    {
      var url := CreateUrl(projectBaseUrl, workItemType);
      var response :- gateway.Patch(url, PatchBody(Values(requestBody)), Empty(), reply);
      var data :- FromArray(DecodedOrNull(response.body));
      var w := new Workitem(data, projectBaseUrl, gateway);
      r := Ok(w);
    }
  }

  /** Setting a slot again replaces its operation where it stood; nothing is added. */
  lemma SlotKeepsItsPlace(body: OrderedArray<PatchOp>, slot: Key, op: PatchOp)
    requires body.Valid() && slot in body.values
    ensures |Values(Put(body, slot, op))| == |Values(body)|
    ensures forall i :: 0 <= i < |body.keys| ==> Values(Put(body, slot, op))[i] == if body.keys[i] == slot then op else Values(body)[i]
  {
    PutExistingKeepsPosition(body, slot, op);
  }

  /** Writing the title slot, then the description slot, of an empty body gives exactly those two values. */
  lemma TitleThenDescription(t: PatchOp, d: PatchOp)
    ensures var b0: OrderedArray<PatchOp> := Empty();
      Values(Put(Put(b0, TitleSlot, t), DescriptionSlot, d)) == [t, d]
  {
    var b0: OrderedArray<PatchOp> := Empty();
    var b1 := Put(b0, TitleSlot, t);
    PutNewAppendsValue(b0, TitleSlot, t);
    assert DescriptionSlot !in b1.values by { assert DescriptionSlot != TitleSlot; }
    PutNewAppendsValue(b1, DescriptionSlot, d);
  }

  /** One attachment after two values appends its relation as the third. */
  lemma OneRelationAfterTwo(body: OrderedArray<PatchOp>, t: PatchOp, d: PatchOp, a: AttachmentInput)
    requires body.Valid() && Values(body) == [t, d]
    ensures Values(AppendRelations(body, [a])) == [t, d, AddRelation(AttachmentUrl(a), None)]
  {
    AppendRelationsValues(body, [a]);
    var r := AddRelation(AttachmentUrl(a), None);
    assert Relations([a], None) == [r];
    assert [t, d] + [r] == [t, d, r];
  }

  /** A title, then a description, then one attachment: the patch holds exactly those three operations in that order. */
  lemma TitleDescriptionAttachment(title: string, description: string, a: AttachmentInput)
    ensures var b0: OrderedArray<PatchOp> := Empty();
      var b1 := Put(b0, TitleSlot, AddField(TitlePath, true, title));
      var b2 := Put(b1, DescriptionSlot, AddField(DescriptionPath, true, WrapInDiv(description)));
      Values(AppendRelations(b2, [a])) ==
        [AddField(TitlePath, true, title), AddField(DescriptionPath, true, WrapInDiv(description)),
         AddRelation(AttachmentUrl(a), None)]
  {
    var t := AddField(TitlePath, true, title);
    var d := AddField(DescriptionPath, true, WrapInDiv(description));
    var b0: OrderedArray<PatchOp> := Empty();
    var b2 := Put(Put(b0, TitleSlot, t), DescriptionSlot, d);
    TitleThenDescription(t, d);
    OneRelationAfterTwo(b2, t, d, a);
  }
}
