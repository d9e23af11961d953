/**
 * The legacy work item (AzureDevOpsWorkitem): an object whose declared properties
 * are filled from a few top-level keys and whose 'fields' become dynamic properties
 * named after the lower-cased last segment of each field key; and the memo cell
 * `htmlLink`, which this object and Workitem fill in the same way.
 */
module LegacyWorkitems {
  import opened Common
  import opened Text
  import opened PhpValues

  /** The declared public properties, null until assigned. */
  const DeclaredProperties: map<string, Json> :=
    map["id" := JNull, "title" := JNull, "project" := JNull, "htmlLink" := JNull,
        "apiUrl" := JNull, "state" := JNull, "reprosteps" := JNull]

  /** `mb_strtolower(array_pop(explode('.', $key)))`: the property a field key is stored under. */
  function PropertyName(key: string): (name: string)
    ensures '.' !in name
    ensures forall i :: 0 <= i < |name| ==> !IsUpper(name[i])
    ensures |name| == |LastSegment(key)|
    ensures forall i :: 0 <= i < |name| ==> name[i] == LowerChar(LastSegment(key)[i])
  {
    ToLowerAscii(LastSegment(key))
  }

  /** A dotted key names the lower-cased text after its last dot; a key without a dot, itself lower-cased. */
  lemma PropertyNameOfKey(prefix: string, segment: string)
    requires '.' !in segment
    ensures PropertyName(prefix + "." + segment) == ToLowerAscii(segment)
    ensures PropertyName(segment) == ToLowerAscii(segment)
  {
    LastSegmentOfDottedKey(prefix, segment);
    LastSegmentOfPlainKey(segment);
  }

  /** PHP refuses the empty property name and names starting with a NUL byte (an Error). */
  predicate UsableName(name: string)
  {
    |name| > 0 && name[0] != '\0'
  }

  /** The properties after the constructor's four conditional assignments. */
  function HeaderProperties(ticket: Json): (p: map<string, Json>)
    ensures p.Keys == DeclaredProperties.Keys
    ensures p["id"] == if Has(ticket, "id") then Index(ticket, "id") else JNull
    ensures p["project"] == if Has(ticket, "project") then Index(Index(ticket, "project"), "name") else JNull
    ensures p["htmlLink"] ==
      if Has(ticket, "_links") then Index(Index(Index(ticket, "_links"), "html"), "href") else JNull
    ensures p["apiUrl"] == if Has(ticket, "url") then Index(ticket, "url") else JNull
    ensures p["title"] == JNull && p["state"] == JNull && p["reprosteps"] == JNull
  {
    var p0 := DeclaredProperties;
    assert p0["title"] == p0["state"] == p0["reprosteps"] == JNull;
    var p1 := if Has(ticket, "id") then p0["id" := Index(ticket, "id")] else p0;
    assert p1.Keys == p0.Keys && p1["title"] == p1["state"] == p1["reprosteps"] == JNull;
    assert p1["project"] == p1["htmlLink"] == p1["apiUrl"] == JNull;
    var p2 := if Has(ticket, "project") then p1["project" := Index(Index(ticket, "project"), "name")] else p1;
    assert p2.Keys == p0.Keys && p2["title"] == p2["state"] == p2["reprosteps"] == JNull;
    assert p2["htmlLink"] == p2["apiUrl"] == JNull && p2["id"] == p1["id"];
    var p3 := if Has(ticket, "_links") then p2["htmlLink" := Index(Index(Index(ticket, "_links"), "html"), "href")] else p2;
    assert p3.Keys == p0.Keys && p3["title"] == p3["state"] == p3["reprosteps"] == JNull;
    assert p3["apiUrl"] == JNull && p3["id"] == p1["id"] && p3["project"] == p2["project"];
    if Has(ticket, "url") then p3["apiUrl" := Index(ticket, "url")] else p3
  }

  /** The loop over 'fields': each member, in order, assigns the property its key names. */
  function AssignFields(props: map<string, Json>, fields: seq<Member>): (r: Result<map<string, Json>>)
    ensures r.Ok? ==> props.Keys <= r.value.Keys
    decreases |fields|
  {
    if |fields| == 0 then Ok(props)
    else
      var before :- AssignFields(props, fields[..|fields| - 1]);
      var last := fields[|fields| - 1];
      var name := PropertyName(last.key);
      if UsableName(name) then Ok(before[name := last.value])
      else Err(TypeError("Cannot access empty property"))
  }

  /** The property names the fields set. */
  function FieldNames(fields: seq<Member>): set<string>
  {
    set i | 0 <= i < |fields| :: PropertyName(fields[i].key)
  }

  /** The loop adds no property beyond the names its fields map to. */
  lemma {:induction false} AssignFieldsAddsOnlyFieldNames(props: map<string, Json>, fields: seq<Member>)
    ensures AssignFields(props, fields).Ok? ==> AssignFields(props, fields).value.Keys <= props.Keys + FieldNames(fields)
    decreases |fields|
  {
    if |fields| > 0 && AssignFields(props, fields).Ok? {
      var init := fields[..|fields| - 1];
      AssignFieldsAddsOnlyFieldNames(props, init);
      assert forall i :: 0 <= i < |init| ==> init[i] == fields[i];
      assert FieldNames(init) <= FieldNames(fields);
      assert PropertyName(fields[|fields| - 1].key) in FieldNames(fields);
    }
  }

  lemma AssignFieldsPrefixStep(props: map<string, Json>, fields: seq<Member>, i: nat, p: map<string, Json>)
    requires i < |fields| && AssignFields(props, fields[..i]) == Ok(p)
    ensures var name := PropertyName(fields[i].key);
      AssignFields(props, fields[..i + 1]) ==
        if UsableName(name) then Ok(p[name := fields[i].value]) else Err(TypeError("Cannot access empty property"))
  {
    assert fields[..i + 1][..i] == fields[..i];
  }

  /** The whole property table `new AzureDevOpsWorkitem($ticket)` builds; a non-array is a TypeError. */
  function TicketProperties(ticket: Json): (r: Result<map<string, Json>>)
    ensures !IsArray(ticket) ==> r.Err? && r.error.TypeError?
    ensures r.Ok? ==> DeclaredProperties.Keys <= r.value.Keys
    ensures r.Ok? ==> r.value.Keys <= DeclaredProperties.Keys + FieldNames(ForeachMembers(Index(ticket, "fields")))
  {
    AssignFieldsAddsOnlyFieldNames(HeaderProperties(ticket), ForeachMembers(Index(ticket, "fields")));
    var t :- ArrayParameter(ticket);
    AssignFields(HeaderProperties(t), ForeachMembers(Index(t, "fields")))
  }

  /** Once a field key names no usable property, the rest of the loop is never reached. */
  lemma {:induction false} AssignFieldsFailurePersists(props: map<string, Json>, fields: seq<Member>, n: nat)
    requires n <= |fields| && AssignFields(props, fields[..n]).Err?
    ensures AssignFields(props, fields) == AssignFields(props, fields[..n])
    decreases |fields| - n
  {
    if n < |fields| {
      assert fields[..n + 1][..n] == fields[..n];
      AssignFieldsFailurePersists(props, fields, n + 1);
    } else {
      assert fields[..n] == fields;
    }
  }

  /** The loop fails exactly when some field key names no usable property. */
  lemma {:induction false} AssignFieldsFailsOnUnusableName(props: map<string, Json>, fields: seq<Member>)
    ensures AssignFields(props, fields).Err? <==>
      exists i :: 0 <= i < |fields| && !UsableName(PropertyName(fields[i].key))
    decreases |fields|
  {
    if |fields| > 0 {
      var init := fields[..|fields| - 1];
      AssignFieldsFailsOnUnusableName(props, init);
      if exists i :: 0 <= i < |init| && !UsableName(PropertyName(init[i].key)) {
        var i :| 0 <= i < |init| && !UsableName(PropertyName(init[i].key));
        assert fields[i] == init[i];
      }
      if exists i :: 0 <= i < |fields| && !UsableName(PropertyName(fields[i].key)) {
        var i :| 0 <= i < |fields| && !UsableName(PropertyName(fields[i].key));
        if i < |fields| - 1 {
          assert init[i] == fields[i];
        }
      }
    }
  }

  /** No later field key names the same property as the one at `i`. */
  predicate LastFor(fields: seq<Member>, i: nat)
    requires i < |fields|
  {
    forall j :: i < j < |fields| ==> PropertyName(fields[j].key) != PropertyName(fields[i].key)
  }

  /** A successful loop is the shorter loop with the last field assigned. */
  lemma AssignFieldsStep(props: map<string, Json>, fields: seq<Member>)
    requires |fields| > 0 && AssignFields(props, fields).Ok?
    ensures var last := fields[|fields| - 1];
      && AssignFields(props, fields[..|fields| - 1]).Ok?
      && AssignFields(props, fields).value ==
         AssignFields(props, fields[..|fields| - 1]).value[PropertyName(last.key) := last.value]
  {
  }

  /** The property the field at `i` names holds its value when no later field names it. */
  lemma {:induction false} AssignFieldsLastWinsAt(props: map<string, Json>, fields: seq<Member>, i: nat)
    requires AssignFields(props, fields).Ok? && i < |fields| && LastFor(fields, i)
    ensures var r := AssignFields(props, fields).value;
      PropertyName(fields[i].key) in r && r[PropertyName(fields[i].key)] == fields[i].value
    decreases |fields|
  {
    var init := fields[..|fields| - 1];
    var last := fields[|fields| - 1];
    AssignFieldsStep(props, fields);
    if i < |fields| - 1 {
      assert forall j :: 0 <= j < |init| ==> init[j] == fields[j];
      assert PropertyName(last.key) != PropertyName(fields[i].key);
      AssignFieldsLastWinsAt(props, init, i);
    }
  }

  /**
   * When the loop succeeds, every property a field names holds the value of the
   * last field naming it.
   */
  lemma AssignFieldsLastWins(props: map<string, Json>, fields: seq<Member>)
    requires AssignFields(props, fields).Ok?
    ensures forall i :: 0 <= i < |fields| && LastFor(fields, i) ==>
      PropertyName(fields[i].key) in AssignFields(props, fields).value &&
      AssignFields(props, fields).value[PropertyName(fields[i].key)] == fields[i].value
  {
    forall i | 0 <= i < |fields| && LastFor(fields, i)
      ensures PropertyName(fields[i].key) in AssignFields(props, fields).value
      ensures AssignFields(props, fields).value[PropertyName(fields[i].key)] == fields[i].value
    {
      AssignFieldsLastWinsAt(props, fields, i);
    }
  }

  /** Every property no field names keeps its value. */
  lemma {:induction false} AssignFieldsKeepsOthers(props: map<string, Json>, fields: seq<Member>, n: string)
    requires AssignFields(props, fields).Ok? && n in props
    requires forall i :: 0 <= i < |fields| ==> PropertyName(fields[i].key) != n
    ensures n in AssignFields(props, fields).value && AssignFields(props, fields).value[n] == props[n]
    decreases |fields|
  {
    if |fields| > 0 {
      var init := fields[..|fields| - 1];
      assert forall i :: 0 <= i < |init| ==> init[i] == fields[i];
      AssignFieldsKeepsOthers(props, init, n);
    }
  }

  /** Property names made from field keys are lower case, so `htmlLink` and `apiUrl` are never overwritten. */
  lemma FieldsNeverOverwriteLinks(props: map<string, Json>, fields: seq<Member>)
    requires AssignFields(props, fields).Ok? && "htmlLink" in props && "apiUrl" in props
    ensures var r := AssignFields(props, fields).value;
      && "htmlLink" in r && r["htmlLink"] == props["htmlLink"]
      && "apiUrl" in r && r["apiUrl"] == props["apiUrl"]
  {
    forall i | 0 <= i < |fields|
      ensures PropertyName(fields[i].key) != "htmlLink" && PropertyName(fields[i].key) != "apiUrl"
    {
      var name := PropertyName(fields[i].key);
      assert IsUpper("htmlLink"[4]) && IsUpper("apiUrl"[3]);
    }
    AssignFieldsKeepsOthers(props, fields, "htmlLink");
    AssignFieldsKeepsOthers(props, fields, "apiUrl");
  }

  lemma LowerTitle()
    ensures ToLowerAscii("Title") == "title"
  {
    var w := "Title";
    var s := ToLowerAscii(w);
    assert LowerChar('T') == 't';
    assert forall i :: 0 <= i < |w| ==> s[i] == LowerChar(w[i]);
  }

  lemma LowerReproSteps()
    ensures ToLowerAscii("ReproSteps") == "reprosteps"
  {
    var w := "ReproSteps";
    var s := ToLowerAscii(w);
    assert LowerChar('R') == 'r' && LowerChar('S') == 's';
    assert forall i :: 0 <= i < |w| ==> s[i] == LowerChar(w[i]);
  }

  /** 'System.Title' is stored as `title`. */
  lemma TitleFieldKey()
    ensures PropertyName("System.Title") == "title"
  {
    assert LastSegment("System.Title") == "Title" by {
      LastSegmentOfDottedKey("System", "Title");
      assert "System" + "." + "Title" == "System.Title";
    }
    LowerTitle();
  }

  /** 'Microsoft.VSTS.TCM.ReproSteps' is stored as `reprosteps`, the declared property. */
  lemma ReproStepsFieldKey()
    ensures PropertyName("Microsoft.VSTS.TCM.ReproSteps") == "reprosteps"
  {
    assert LastSegment("Microsoft.VSTS.TCM.ReproSteps") == "ReproSteps" by {
      LastSegmentOfDottedKey("Microsoft.VSTS.TCM", "ReproSteps");
      assert "Microsoft.VSTS.TCM" + "." + "ReproSteps" == "Microsoft.VSTS.TCM.ReproSteps";
    }
    LowerReproSteps();
  }

  /** `isDone()`: the state is exactly the string 'Done'. */
  predicate IsDoneState(state: Json)
  {
    state == JStr("Done")
  }

  /**
   * A work item built from a ticket is done exactly when the last field stored as
   * `state` (such as 'System.State') holds 'Done'.
   */
  lemma DoneFollowsLastStateField(ticket: Json, i: nat)
    requires TicketProperties(ticket).Ok?
    requires var fields := ForeachMembers(Index(ticket, "fields"));
      i < |fields| && PropertyName(fields[i].key) == "state" && LastFor(fields, i)
    ensures "state" in TicketProperties(ticket).value
    ensures IsDoneState(TicketProperties(ticket).value["state"]) <==>
      ForeachMembers(Index(ticket, "fields"))[i].value == JStr("Done")
  {
    AssignFieldsLastWins(HeaderProperties(ticket), ForeachMembers(Index(ticket, "fields")));
  }

  /** The outcome of one `getHtmlLink` call: the new cache, the url looked up if any, the result. */
  datatype LinkOutcome = LinkOutcome(cache: Json, lookup: Option<string>, link: Result<string>)

  /**
   * `getHtmlLink`: a set cache is returned without a lookup; otherwise the api url
   * goes to a `string` parameter (null is a TypeError, before any request), the
   * looked-up item's `htmlLink` is cached and returned through the `string` return type.
   * `fetched` is what the lookup of that url yields.
   */
  function ResolveHtmlLink(cache: Json, apiUrl: Json, fetched: Result<Json>): (o: LinkOutcome)
    ensures IsSet(cache) ==> o == LinkOutcome(cache, None, CoerceToString(cache))
    ensures !IsSet(cache) && CoerceToString(apiUrl).Err? ==> o.lookup.None? && o.link.Err? && o.cache == cache
    ensures !IsSet(cache) && CoerceToString(apiUrl).Ok? ==> o.lookup == Some(CoerceToString(apiUrl).value)
    ensures fetched.Err? && o.lookup.Some? ==> o.link == Err(fetched.error) && o.cache == cache
    ensures fetched.Ok? && o.lookup.Some? ==> o.cache == fetched.value && o.link == CoerceToString(fetched.value)
  {
    if IsSet(cache) then LinkOutcome(cache, None, CoerceToString(cache))
    else
      match CoerceToString(apiUrl)
      case Err(e) => LinkOutcome(cache, None, Err(e))
      case Ok(url) =>
        match fetched
        case Err(e) => LinkOutcome(cache, Some(url), Err(e))
        case Ok(v) => LinkOutcome(v, Some(url), CoerceToString(v))
  }

  /** After a call that returned a link, the next call returns the same link without a lookup. */
  lemma HtmlLinkIsMemoised(cache: Json, apiUrl: Json, first: Result<Json>, second: Result<Json>)
    requires ResolveHtmlLink(cache, apiUrl, first).link.Ok?
    ensures var o := ResolveHtmlLink(cache, apiUrl, first);
      ResolveHtmlLink(o.cache, apiUrl, second) == LinkOutcome(o.cache, None, o.link)
  {
    var o := ResolveHtmlLink(cache, apiUrl, first);
    assert IsSet(o.cache);
  }

  /** A lookup that yields null leaves the cache unset, so the next call looks up again. */
  lemma NullLinkIsNotCached(apiUrl: Json, second: Result<Json>)
    requires CoerceToString(apiUrl).Ok?
    ensures var o := ResolveHtmlLink(JNull, apiUrl, Ok(JNull));
      o.link.Err? && ResolveHtmlLink(o.cache, apiUrl, second).lookup.Some?
  {
  }

  /** The constructor's `foreach` over the fields, property by property. */
  method AssignEach(header: map<string, Json>, fields: seq<Member>) returns (r: Result<map<string, Json>>)
    ensures r == AssignFields(header, fields)
  {
    var props := header;
    var i := 0;
    while i < |fields|
      invariant 0 <= i <= |fields|
      invariant AssignFields(header, fields[..i]) == Ok(props)
    {
      var name := PropertyName(fields[i].key);
      AssignFieldsPrefixStep(header, fields, i, props);
      if !UsableName(name) {
        AssignFieldsFailurePersists(header, fields, i + 1);
        return Err(TypeError("Cannot access empty property"));
      }
      props := props[name := fields[i].value];
      i := i + 1;
    }
    assert fields[..|fields|] == fields;
    r := Ok(props);
  }

  class AzureDevOpsWorkitem {
    /** The object's property table: declared and dynamic properties alike. */
    var properties: map<string, Json>
    /** The api urls `getHtmlLink` has looked up, oldest first. */
    var lookups: seq<string>

    ghost predicate Valid()
      reads this
    {
      DeclaredProperties.Keys <= properties.Keys
    }

    constructor WithProperties(p: map<string, Json>)
      requires DeclaredProperties.Keys <= p.Keys
      ensures Valid() && properties == p && lookups == []
    {
      properties := p;
      lookups := [];
    }

    /** `new AzureDevOpsWorkitem($ticketArr)`. */
    static method New(ticket: Json) returns (r: Result<AzureDevOpsWorkitem>)
      ensures r.Ok? <==> TicketProperties(ticket).Ok?
      ensures r.Ok? ==> fresh(r.value) && r.value.Valid() && r.value.lookups == []
      ensures r.Ok? ==> r.value.properties == TicketProperties(ticket).value
      ensures r.Err? ==> r.error == TicketProperties(ticket).error
    {
      if !IsArray(ticket) {
        return Err(TypeError("array expected"));
      }
      var header := HeaderProperties(ticket);
      var fields := ForeachMembers(Index(ticket, "fields"));
      var outcome := AssignEach(header, fields);
      if outcome.Err? {
        return Err(outcome.error);
      }
      var props := outcome.value;
      assert DeclaredProperties.Keys <= props.Keys;
      var w := new AzureDevOpsWorkitem.WithProperties(props);
      r := Ok(w);
    }

    /** `isDone()`. */
    predicate IsDone()
      reads this
      requires Valid()
      ensures IsDone() ==> properties["state"].JStr?
    {
      IsDoneState(properties["state"])
    }

    /** `getHtmlLink($azureApiClient)`; `fetched` is the looked-up item's `htmlLink`, or the lookup's error. */
    method GetHtmlLink(fetched: Result<Json>) returns (r: Result<string>)
      requires Valid()
      modifies this
      ensures Valid()
      ensures var o := ResolveHtmlLink(old(properties["htmlLink"]), old(properties["apiUrl"]), fetched);
        && r == o.link
        && properties == old(properties)["htmlLink" := o.cache]
        && lookups == old(lookups) + (if o.lookup.Some? then [o.lookup.value] else [])
    {
      var o := ResolveHtmlLink(properties["htmlLink"], properties["apiUrl"], fetched);
      properties := properties["htmlLink" := o.cache];
      if o.lookup.Some? {
        lookups := lookups + [o.lookup.value];
      }
      r := o.link;
    }
  }
}
