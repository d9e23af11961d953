/**
 * JSON Patch operations as the client writes them into work-item requests
 * (`{op, path, from?, value}`), the fixed field paths, and the url an attachment
 * relation points at.
 */
module JsonPatch {
  import opened Common
  import opened PhpValues
  import opened AttachmentReferences

  /** The value of an operation: a field text, or an `AttachedFile` relation. */
  datatype OpValue =
    | Text(text: string)
    /** `{rel: 'AttachedFile', url, attributes?: {comment}}`; the url is whatever the input held. */
    | AttachedFile(url: Json, comment: Option<string>)

  /** One operation; `withFrom` says whether the op carries a `'from' => null` member. */
  datatype PatchOp = PatchOp(op: string, path: string, withFrom: bool, value: OpValue)

  const TitlePath := "/fields/System.Title"
  const ReproStepsPath := "/fields/Microsoft.VSTS.TCM.ReproSteps"
  const DescriptionPath := "/fields/System.Description"
  const TagsPath := "/fields/System.Tags"
  const AreaPathPath := "/fields/System.AreaPath"
  const IterationPathPath := "/fields/System.IterationPath"
  const RelationsPath := "/relations/-"
  /** The tags path of the repository's bug creation, written without the leading '/'. */
  const RepositoryTagsPath := "fields/System.Tags"

  /** Rich-text inputs are sent enclosed in a div. */
  function WrapInDiv(text: string): (r: string)
    ensures |r| == |text| + 11
    ensures r[..5] == "<div>" && r[5..|text| + 5] == text && r[|text| + 5..] == "</div>"
  {
    "<div>" + text + "</div>"
  }

  /** An `add` of a field value. */
  function AddField(path: string, withFrom: bool, text: string): (o: PatchOp)
    ensures o.op == "add" && o.path == path && o.withFrom == withFrom && o.value == Text(text)
  {
    PatchOp("add", path, withFrom, Text(text))
  }

  /** An `add` of an attachment relation. */
  function AddRelation(url: Json, comment: Option<string>): (o: PatchOp)
    ensures o.op == "add" && o.path == RelationsPath && !o.withFrom
    ensures o.value == AttachedFile(url, comment)
  {
    PatchOp("add", RelationsPath, false, AttachedFile(url, comment))
  }

  /**
   * An element of an attachments argument: an AttachmentReference object, or an
   * associative array whose 'azureDevOpsUrl' holds the url.
   */
  datatype AttachmentInput = Reference(ref: AttachmentReference) | Raw(entries: seq<Member>)

  /** `$a instanceof AttachmentReference ? $a->getUrl() : $a['azureDevOpsUrl']` (a missing key reads null). */
  function AttachmentUrl(a: AttachmentInput): (u: Json)
    ensures a.Reference? ==> u == JStr(a.ref.url)
    ensures a.Raw? && Has(JObject(a.entries), "azureDevOpsUrl") ==> u == Index(JObject(a.entries), "azureDevOpsUrl")
    ensures a.Raw? && !Has(JObject(a.entries), "azureDevOpsUrl") ==> u == JNull
  {
    match a
    case Reference(ref) => JStr(ref.url)
    case Raw(entries) => Index(JObject(entries), "azureDevOpsUrl")
  }

  /** `$a['azureDevOpsUrl']` without the instanceof test: an object cannot be read as an array. */
  function ArrayAttachmentUrl(a: AttachmentInput): (u: Result<Json>)
    ensures u.Ok? <==> a.Raw?
    ensures u.Ok? ==> u.value == AttachmentUrl(a)
    ensures a.Reference? ==> u.error.TypeError?
  {
    match a
    case Reference(_) => Err(TypeError("Cannot use object of type AttachmentReference as array"))
    case Raw(entries) => Ok(Index(JObject(entries), "azureDevOpsUrl"))
  }

  /** The relation operations of a list of attachments, in order, each with the given comment. */
  function Relations(attachments: seq<AttachmentInput>, comment: Option<string>): (ops: seq<PatchOp>)
    ensures |ops| == |attachments|
    ensures forall i :: 0 <= i < |ops| ==> ops[i] == AddRelation(AttachmentUrl(attachments[i]), comment)
    decreases |attachments|
  {
    if |attachments| == 0 then []
    else
      var init := attachments[..|attachments| - 1];
      assert forall i :: 0 <= i < |init| ==> init[i] == attachments[i];
      Relations(init, comment) + [AddRelation(AttachmentUrl(attachments[|attachments| - 1]), comment)]
  }

  /** A relation loop that reads every element as an array, as the update and the legacy bug creation do. */
  function ArrayRelations(attachments: seq<AttachmentInput>, comment: string): (r: Result<seq<PatchOp>>)
    ensures r.Err? ==> r.error.TypeError?
    decreases |attachments|
  {
    if |attachments| == 0 then Ok([])
    else
      var init :- ArrayRelations(attachments[..|attachments| - 1], comment);
      var url :- ArrayAttachmentUrl(attachments[|attachments| - 1]);
      Ok(init + [AddRelation(url, Some(comment))])
  }

  /** Reading elements as arrays fails exactly when an attachment is an AttachmentReference. */
  lemma {:induction false} ArrayRelationsFailsOnReference(attachments: seq<AttachmentInput>, comment: string)
    ensures ArrayRelations(attachments, comment).Err? <==> exists k :: 0 <= k < |attachments| && attachments[k].Reference?
    decreases |attachments|
  {
    if |attachments| > 0 {
      var init := attachments[..|attachments| - 1];
      ArrayRelationsFailsOnReference(init, comment);
      assert forall k :: 0 <= k < |init| ==> init[k] == attachments[k];
      if exists k :: 0 <= k < |attachments| && attachments[k].Reference? {
        var k :| 0 <= k < |attachments| && attachments[k].Reference?;
        if k < |init| {
          assert init[k].Reference?;
        }
      }
    }
  }

  /** A successful reading of elements as arrays agrees with the relation loop. */
  lemma {:induction false} ArrayRelationsAgrees(attachments: seq<AttachmentInput>, comment: string)
    ensures ArrayRelations(attachments, comment).Ok? ==> ArrayRelations(attachments, comment).value == Relations(attachments, Some(comment))
    decreases |attachments|
  {
    if |attachments| > 0 {
      ArrayRelationsAgrees(attachments[..|attachments| - 1], comment);
    }
  }

  /** Reading elements as arrays fails exactly when an attachment is an AttachmentReference; otherwise it agrees with the relation loop. */
  lemma ArrayRelationsRejectsReferences(attachments: seq<AttachmentInput>, comment: string)
    ensures ArrayRelations(attachments, comment).Err? <==> exists k :: 0 <= k < |attachments| && attachments[k].Reference?
    ensures ArrayRelations(attachments, comment).Ok? ==> ArrayRelations(attachments, comment).value == Relations(attachments, Some(comment))
  {
    ArrayRelationsFailsOnReference(attachments, comment);
    ArrayRelationsAgrees(attachments, comment);
  }

  /** One more attachment of a prefix: its relation is appended, or its error ends the loop. */
  lemma ArrayRelationsPrefixStep(attachments: seq<AttachmentInput>, comment: string, i: nat, ops: seq<PatchOp>)
    requires i < |attachments| && ArrayRelations(attachments[..i], comment) == Ok(ops)
    ensures var link := ArrayAttachmentUrl(attachments[i]);
      ArrayRelations(attachments[..i + 1], comment) ==
        if link.Ok? then Ok(ops + [AddRelation(link.value, Some(comment))]) else Err(link.error)
  {
    assert attachments[..i + 1][..i] == attachments[..i];
  }

  /** Once an attachment cannot be read, the rest of the loop is never reached. */
  lemma {:induction false} ArrayRelationsFailurePersists(attachments: seq<AttachmentInput>, comment: string, n: nat)
    requires n <= |attachments| && ArrayRelations(attachments[..n], comment).Err?
    ensures ArrayRelations(attachments, comment) == ArrayRelations(attachments[..n], comment)
    decreases |attachments| - n
  {
    if n < |attachments| {
      assert attachments[..n + 1][..n] == attachments[..n];
      ArrayRelationsFailurePersists(attachments, comment, n + 1);
    } else {
      assert attachments[..n] == attachments;
    }
  }

  /** `foreach ($attachments as $attachment) $body[] = [... $attachment['azureDevOpsUrl'] ...]`. */
  method ReadRelations(attachments: seq<AttachmentInput>, comment: string) returns (r: Result<seq<PatchOp>>)
    ensures r == ArrayRelations(attachments, comment)
  {
    var ops: seq<PatchOp> := [];
    var i := 0;
    while i < |attachments|
      invariant 0 <= i <= |attachments|
      invariant ArrayRelations(attachments[..i], comment) == Ok(ops)
    {
      var link := ArrayAttachmentUrl(attachments[i]);
      ArrayRelationsPrefixStep(attachments, comment, i, ops);
      if link.Err? {
        ArrayRelationsFailurePersists(attachments, comment, i + 1);
        return Err(link.error);
      }
      ops := ops + [AddRelation(link.value, Some(comment))];
      i := i + 1;
    }
    assert attachments[..|attachments|] == attachments;
    r := Ok(ops);
  }
}
