# A verified model of the ado-api-php-client core

This project is a Dafny model of the PHP client library for the Azure DevOps REST API
(`reb3r/ado-api-php-client`), with proofs about it. The model covers these parts of the library:

- the HTTP gateway `AzureDevOpsHttpClient`: the Authorization header, the exact-200 status rule, and the JSON decoding helper;
- the fluent `WorkItemBuilder`: named slots that the last write wins, relations that are appended, the flattened body of `create`;
- the `WorkitemRepository`: bug creation, update, comment, search and read-by-id, plus their status rules;
- the entity mappers `Workitem`, `AzureDevOpsWorkitem`, `Team`, `Project`, `AttachmentReference` and `Tag`;
- the self-contained pieces of the legacy facade `AzureDevOpsApiClient`.

PHP's value semantics are written out in plain Dafny terms:

- decoded JSON is the `PhpValues.Json` datatype;
- a missing key reads as null, `??` replaces null, and `empty()` of a string is true for `''` and `'0'`;
- the conversions at typed parameters differ by file. Files without `strict_types` accept ints and bools for a `string`. Strict files accept only strings. Null or an array raises a `TypeError` in both;
- PHP arrays are `OrderedArrays.OrderedArray`: insertion-ordered keys, `$a[] = v`, `array_values`, `array_merge`;
- integer-to-decimal conversion, `implode`/`explode`, lower-casing of the letters `A`-`Z` in place of `mb_strtolower`, and Base64 as defined in section 4 of RFC 4648.

Calls to the Guzzle client are modelled as `Wire.Transport.Send`. It records the request it is given into the `sent` log and returns the reply passed in as a parameter. A method that talks to the network therefore states two things: exactly which requests it sent, and what it returns for every possible reply.

Error modelling:

- the library's exceptions are the constructors of `Common.Error`;
- a PHP `Error` thrown by reading an object as an array, or by converting an object to a string, is modelled as `TypeError`;
- `Exceptions\Exception` is `LibraryException`.

## Model

| member | source | states |
|---|---|---|
| HttpGateway.AuthorizationValue | src/Http/AzureDevOpsHttpClient.php:27-33 | An empty username (`''` or `'0'`) gives `Bearer <password>`. Any other gives `Basic ` followed by the canonical Base64 text of the bytes of `username:password`, which decodes back to those bytes. |
| HttpGateway.AuthHeader | src/Http/AzureDevOpsHttpClient.php:27-33 | A one-entry array whose only key is `Authorization`, carrying the value above. |
| HttpGateway.AuthorizationOverridesCallerHeaders | src/Http/AzureDevOpsHttpClient.php:42 | After `array_merge`, the gateway's Authorization replaces any the caller passed. Every other caller header keeps its value and its place. Authorization is added at the end only when it was missing. |
| HttpGateway.OutgoingHeaders | src/Http/AzureDevOpsHttpClient.php:42 | The headers sent are a valid array. For string-keyed caller headers, `Authorization` carries the gateway's value whatever the caller passed. |
| HttpGateway.StatusMessage | src/Http/AzureDevOpsHttpClient.php:55 | A failure message is the prefix followed by a decimal literal that parses back to the status. |
| HttpGateway.ExactStatus | src/Http/AzureDevOpsHttpClient.php:49-55 | Success exactly when the status is 200. 203 is an AuthenticationException. Any other status is a library exception carrying that status. |
| HttpGateway.Outcome | src/Http/AzureDevOpsHttpClient.php:44-104 | A transport failure propagates as a Guzzle exception. A response is returned only on status 200; any other status fails by the exact-200 rule. |
| HttpGateway.DecodeJsonResponse | src/Http/AzureDevOpsHttpClient.php:109-122 | A malformed body fails with the decode message, and a decoded one never fails. Under a non-empty key, the value is returned exactly when it is set (present and not null); otherwise, or with an empty key, the whole document is returned. |
| HttpGateway.DecodeSelectsListItem | src/Http/AzureDevOpsHttpClient.php:117-119 | On a list document, the decimal text of an offset selects the item there when it is not null. |
| HttpGateway.DecodeSelectsFirstMember | src/Http/AzureDevOpsHttpClient.php:117-119 | A key that is present with a non-null value selects exactly that value. |
| HttpGateway.DecodeIgnoresNullMember | src/Http/AzureDevOpsHttpClient.php:117-121 | A null under the key is treated as unset, so the whole document comes back. |
| HttpGateway.HttpClient.constructor | src/Http/AzureDevOpsHttpClient.php:16-22 | Stores the credentials and the given client. |
| HttpGateway.HttpClient.Get | src/Http/AzureDevOpsHttpClient.php:40-56 | Sends exactly one GET, with the merged headers and no body. Returns the exact-200 outcome with the GET message. |
| HttpGateway.HttpClient.Post | src/Http/AzureDevOpsHttpClient.php:63-80 | Sends exactly one POST, with the body and the merged headers. Returns the exact-200 outcome with the send message. |
| HttpGateway.HttpClient.Patch | src/Http/AzureDevOpsHttpClient.php:87-104 | Sends exactly one PATCH, with the body and the merged headers. Returns the exact-200 outcome with the send message. |
| Base64.DecodeEncode | src/Http/AzureDevOpsHttpClient.php:32 | Decoding the Base64 text of any byte string gives the bytes back. |
| Base64.EncodedLength | src/Http/AzureDevOpsHttpClient.php:32 | The encoding has four characters per started group of three bytes. |
| OrderedArrays.Put | src/Models/WorkItemBuilder.php:104-112 | A key already present keeps its position and takes the new value. A new key is added at the end. No other key changes. |
| OrderedArrays.Append | src/Models/WorkItemBuilder.php:212-219 | `$a[] = v` adds the value at a fresh integer key above every integer key already present, at the end, and keeps every earlier entry. |
| OrderedArrays.NextIndex | src/Models/WorkItemBuilder.php:212-219 | The key `$a[]` uses is above every integer key, and is either 0 or one more than an integer key that is present. |
| OrderedArrays.Merge | src/Http/AzureDevOpsHttpClient.php:42 | `array_merge` gives a valid array. Its contents are stated by `OrderedArrays.MergeStringKeyed` and `OrderedArrays.MergeOneOverrides`. |
| OrderedArrays.Values | src/Models/WorkItemBuilder.php:236 | `array_values`: one value per key, in key order. |
| OrderedArrays.PutExistingKeepsPosition | src/Models/WorkItemBuilder.php:104-197 | Overwriting a slot changes only that slot's value in the flattened body. |
| OrderedArrays.PutTwiceLastWins | src/Models/WorkItemBuilder.php:136-145 | Writing a slot twice gives the same array as writing it once with the second value. |
| OrderedArrays.AppendAddsAtEnd | src/Models/WorkItemBuilder.php:212-219 | An appended relation comes after all earlier values. |
| OrderedArrays.MergeStringKeyed | src/Http/AzureDevOpsHttpClient.php:42 | For two string-keyed arrays, `array_merge` holds every key of either, with the second array's value wherever both have the key. |
| OrderedArrays.MergeIntoOne | src/Repository/WorkitemRepository.php:108-109 | Merging a string-keyed array into a one-entry array keeps that entry unless the second array has its key, and takes every entry of the second array. |
| OrderedArrays.MergeOneOverrides | src/Http/AzureDevOpsHttpClient.php:42 | `array_merge` of a string-keyed array with one entry: the entry overrides its key, and every other entry is kept in place. |
| Text.IntToDecimal | src/Repository/WorkitemRepository.php:355 | PHP's int-to-string conversion always gives a decimal integer literal. |
| Text.ParseIntOfDecimal | src/Repository/WorkitemRepository.php:355 | Reading back the decimal form of any integer gives that integer. |
| Text.TerminatedIsJoinPlusSeparator | src/Repository/WorkitemRepository.php:96-100 | Appending each part followed by a separator gives the joined parts plus one trailing separator. |
| Text.SplitJoin | src/Repository/WorkitemRepository.php:95-106 | `explode` undoes `implode` when no part contains the separator. |
| Text.LastSegment | src/Models/AzureDevOpsWorkitem.php:42 | `array_pop(explode('.', key))` contains no dot. |
| Text.LastSegmentOfDottedKey | src/Models/AzureDevOpsWorkitem.php:42 | For `prefix.segment`, the last segment is `segment`. |
| Text.LowerChar | src/Models/AzureDevOpsWorkitem.php:45 | A capital `A`-`Z` becomes the small letter 32 code points above it. Every other character is kept. |
| Text.ToLowerAscii | src/Models/AzureDevOpsWorkitem.php:45 | Same length, no capital left, each capital replaced by its small letter, and every non-capital kept. |
| Text.NumericIntLiteral | src/Repository/WorkitemRepository.php:322 | A decimal integer with leading and trailing whitespace is a numeric string whose value is that integer. |
| Text.NumericPlusLiteral | src/Repository/WorkitemRepository.php:322 | A `+` before the digits is accepted as a sign. |
| Text.NumericExponentLiteral | src/Repository/WorkitemRepository.php:322 | `m e k` is the numeric string of value m times ten to the k. |
| Text.NumericFractionLiteral | src/Repository/WorkitemRepository.php:322 | `w.f` is the numeric string of the digits of w and f, scaled down by the length of f. |
| PhpValues.IndexListOffset | src/Http/AzureDevOpsHttpClient.php:117 | On a list, a decimal key reads the item at that offset and exists exactly below the length; a key with a leading zero reads null. |
| PhpValues.CoerceToString | src/Models/Workitem.php:41-57 | In a non-strict file, a string parameter takes a string unchanged, an int as its decimal text (which reads back as the int) and a bool as `'1'` or `''`. Null and arrays raise a TypeError. |
| PhpValues.StrictString | src/AzureDevOpsApiClient.php:165 | Under strict types, exactly a string passes as a string, unchanged. Anything else is a TypeError. |
| PhpValues.ArrayParameter | src/Models/AzureDevOpsWorkitem.php:25 | An `array` parameter accepts exactly the arrays and passes them on unchanged. |
| PhpValues.CastToString | src/Models/AttachmentReference.php:36-37 | `(string)` never fails: it keeps a string as it is, turns null into `''`, an int into its decimal text, a bool into `'1'` or `''`, and an array into `'Array'`. |
| PhpValues.ForeachMembers | src/Models/AzureDevOpsWorkitem.php:40 | `foreach` over keys and values visits one entry per value, in order: an object's members as they are, a list's items under the keys `0`, `1`, .... A non-array is skipped. |
| PhpValues.ForeachValues | src/AzureDevOpsApiClient.php:369-375 | `foreach` over values visits each value of an object or a list once, in order. A non-array is skipped. |
| PhpValues.CollectItems | src/AzureDevOpsApiClient.php:157 | `collect()` of an array holds its values, of null nothing, and of any other value that value alone. |
| PhpValues.LooseComparisonOnIntegers | src/Repository/WorkitemRepository.php:322 | The loose `> 1` agrees with integer comparison for an int and for its decimal string. |
| PhpValues.LooseComparisonIgnoresPadding | src/Repository/WorkitemRepository.php:322 | Whitespace around a decimal count and a leading `+` do not change the loose `> 1`. |
| PhpValues.LooseComparisonOnExponents | src/Repository/WorkitemRepository.php:322 | A count in exponent form is above one exactly when its value is. |
| PhpValues.LooseComparisonOnFractions | src/Repository/WorkitemRepository.php:322 | A count with a fraction is above one exactly when its value is. |
| AttachmentReferences.FromArray | src/Models/AttachmentReference.php:33-39 | Succeeds exactly for arrays. String values under `id` and `url` are taken over. A missing key gives `''`. |
| AttachmentReferences.FromArrayOfAsArray | src/Models/AttachmentReference.php:20-39 | Mapping a reference's array form back gives the same reference. |
| AttachmentReferences.UrlComesFromUrlKey | src/Models/AttachmentReference.php:37 | The url is read from `url` only; an `azureDevOpsUrl` member is not consulted. |
| Tags.FromArray | src/Models/Tag.php:38-45 | Succeeds exactly for arrays. The three string members are taken over. A missing name gives `''`. |
| Tags.FromArrayIgnoresOtherKeys | src/Models/Tag.php:19-45 | A tag's array form maps back to the same tag, whatever other members follow. |
| Projects.FromArray | src/Models/Project.php:49-58 | Succeeds exactly for arrays whose description is not an array. `id`, `name`, `url` and `state` are the `(string)` casts of their inputs, so strings are taken over and a missing state gives `''`. The description is the string conversion of the input, `''` when it is missing. |
| Projects.FromArrayOfAsArray | src/Models/Project.php:21-58 | Every getter returns the input under its key. |
| Teams.FromArray | src/Models/Team.php:73-85 | Succeeds exactly for arrays whose every read converts to its parameter type, so a missing `id`, `name`, `url`, `description` or `identityUrl` is a TypeError. Each of those five is the string conversion of its input. `identity` defaults to an empty array. `projectId` and `projectName` default to `''`, and a given string is taken over. |
| Teams.FromArrayFillsDefaults | src/Models/Team.php:27-85 | Without the optional keys, the defaults fill in and every other member is taken over unchanged. |
| JsonPatch.WrapInDiv | src/Models/WorkItemBuilder.php:153-163 | Text inputs are `<div>` + text + `</div>`. |
| JsonPatch.AddField | src/Models/WorkItemBuilder.php:136-145 | An `add` operation on the field path, with or without a null `from`, carrying the text. |
| JsonPatch.AddRelation | src/Repository/WorkitemRepository.php:81-91 | An `add` to `/relations/-` of an AttachedFile with the url and the optional comment. |
| JsonPatch.AttachmentUrl | src/Models/WorkItemBuilder.php:208-210 | A reference object gives its url. A raw array gives its `azureDevOpsUrl` member. |
| JsonPatch.ArrayAttachmentUrl | src/Repository/WorkitemRepository.php:166 | Reading an attachment as an array fails exactly on a reference object. |
| JsonPatch.Relations | src/Models/WorkItemBuilder.php:207-220 | One relation per attachment, in order, each with that attachment's url. |
| JsonPatch.ArrayRelations | src/Repository/WorkitemRepository.php:159-173 | The loop that reads every attachment as an array fails only with a TypeError; `JsonPatch.ArrayRelationsRejectsReferences` states when. |
| JsonPatch.ArrayRelationsRejectsReferences | src/Repository/WorkitemRepository.php:159-173 | The array-reading relation loop fails exactly when some attachment is a reference object. When it succeeds it equals `Relations`. |
| Wire.Transport.Send | src/Http/AzureDevOpsHttpClient.php:44-47 | Appends the request to the log and returns the reply. |
| LegacyWorkitems.PropertyName | src/Models/AzureDevOpsWorkitem.php:42-45 | The property a field sets is the key's last dot-separated segment, character by character lower-cased, so it has no dot and no capital. |
| LegacyWorkitems.PropertyNameOfKey | src/Models/AzureDevOpsWorkitem.php:42-45 | `prefix.segment` and a plain `segment` both name the property `segment` in lower case. |
| LegacyWorkitems.HeaderProperties | src/Models/AzureDevOpsWorkitem.php:10-39 | The properties are exactly the declared ones. Each is null unless its key is present. `id` and `apiUrl` come from `id` and `url`, `project` from `project.name`, `htmlLink` from `_links.html.href`. |
| LegacyWorkitems.AssignFields | src/Models/AzureDevOpsWorkitem.php:40-46 | Dynamic assignment never removes a property. |
| LegacyWorkitems.AssignFieldsFailsOnUnusableName | src/Models/AzureDevOpsWorkitem.php:45 | The constructor fails exactly when some field maps to an empty name, or to a name starting with NUL. |
| LegacyWorkitems.AssignFieldsFailurePersists | src/Models/AzureDevOpsWorkitem.php:40-46 | Once a field fails, the whole loop fails the same way. |
| LegacyWorkitems.AssignFieldsLastWins | src/Models/AzureDevOpsWorkitem.php:40-46 | When two field keys share a lowered last segment, the later field's value is the one kept. |
| LegacyWorkitems.AssignFieldsKeepsOthers | src/Models/AzureDevOpsWorkitem.php:40-46 | A property that no field maps to keeps its value. |
| LegacyWorkitems.AssignFieldsAddsOnlyFieldNames | src/Models/AzureDevOpsWorkitem.php:40-46 | The loop adds no property beyond the lowered last segments of the field keys. |
| LegacyWorkitems.TicketProperties | src/Models/AzureDevOpsWorkitem.php:25-46 | A ticket that is not an array is a TypeError. The properties built hold every declared property and no name beyond the declared ones and the field names. |
| LegacyWorkitems.FieldsNeverOverwriteLinks | src/Models/AzureDevOpsWorkitem.php:34-46 | No field can overwrite `htmlLink` or `apiUrl`, because lowered names contain no capital. |
| LegacyWorkitems.TitleFieldKey | src/Models/AzureDevOpsWorkitem.php:42-45 | `System.Title` sets `title`. |
| LegacyWorkitems.ReproStepsFieldKey | src/Models/AzureDevOpsWorkitem.php:42-45 | `Microsoft.VSTS.TCM.ReproSteps` sets `reprosteps`. |
| LegacyWorkitems.DoneFollowsLastStateField | src/Models/AzureDevOpsWorkitem.php:40-55 | `isDone` holds exactly when the last field named `state` carries `Done`. |
| LegacyWorkitems.ResolveHtmlLink | src/Models/AzureDevOpsWorkitem.php:57-68 | A set cache answers without a lookup. Otherwise the api url is looked up once: a failed fetch leaves the cache unchanged, and a fetched link is cached and returned. |
| LegacyWorkitems.HtmlLinkIsMemoised | src/Models/AzureDevOpsWorkitem.php:57-68 | After a successful lookup that returns a set link, a second call needs no lookup and gives the same link. |
| LegacyWorkitems.NullLinkIsNotCached | src/Models/AzureDevOpsWorkitem.php:63-67 | A fetched null link fails the string return type and is looked up again next time. |
| LegacyWorkitems.AssignEach | src/Models/AzureDevOpsWorkitem.php:40-46 | The constructor's field loop returns exactly the property table the loop specification gives, including its failure. |
| LegacyWorkitems.AzureDevOpsWorkitem.New | src/Models/AzureDevOpsWorkitem.php:25-47 | The loop over `fields` builds exactly the ticket's properties, and fails exactly when they cannot be built. |
| LegacyWorkitems.AzureDevOpsWorkitem.WithProperties | src/Models/AzureDevOpsWorkitem.php:25-47 | The object holds the given property table, which has every declared property, and has looked nothing up. |
| LegacyWorkitems.AzureDevOpsWorkitem.IsDone | src/Models/AzureDevOpsWorkitem.php:49-55 | The comparison is strict: only the string `Done` is done, so a state that is not a string never is. |
| LegacyWorkitems.AzureDevOpsWorkitem.GetHtmlLink | src/Models/AzureDevOpsWorkitem.php:57-68 | Updates the cache and the lookup log as `ResolveHtmlLink` says. |
| Workitems.FieldText | src/Models/Workitem.php:212-223 | A field missing or null reads `''`. A string field is taken over. An array field is a TypeError. |
| Workitems.ArrayOrEmpty | src/Models/Workitem.php:213-214 | `project` and `links` default to an empty array and must be arrays. |
| Workitems.FromArray | src/Models/Workitem.php:208-226 | Not an array, or no `id` or `url`, is a TypeError. It succeeds exactly when all fourteen values convert, and then each property is the converted input under its key or field. |
| Workitems.FromArrayFillsDefaults | src/Models/Workitem.php:208-226 | With only `id` and `url`, every text property is `''` and `project` and `links` are empty. |
| Workitems.IsDone | src/Models/Workitem.php:74-80 | `isDone()` compares the state with `Done`; `Workitems.DoneFollowsStateField` ties it to the document. |
| Workitems.DoneFollowsStateField | src/Models/Workitem.php:74-80 | `isDone` holds exactly when the state field is `Done`. |
| Workitems.ProjectName | src/Models/Workitem.php:69-72 | The project's `name` when it is a string. A missing name fails the string return type. |
| Workitems.ProjectNameNeedsProject | src/Models/Workitem.php:69-72 | A work item read without `project` has no project name. |
| Workitems.TextAreaFields | src/Models/Workitem.php:138-169 | Each of the four text areas is present exactly when its text is not empty, and the areas come in source order. |
| Workitems.TextAreaFieldsContents | src/Models/Workitem.php:140-166 | Each area present holds its display name and the field's content. |
| Workitems.CommentUrl | src/Models/Workitem.php:196-198 | The comments url of that id under the project base url. |
| Workitems.CommentBody | src/Models/Workitem.php:201-203 | The JSON body whose `text` is the comment. |
| Workitems.Workitem.constructor | src/Models/Workitem.php:41-57 | Stores the data. The link cache and the api url start unset. |
| Workitems.Workitem.GetHtmlLinkAsWritten | src/Models/Workitem.php:171-182 | Resolves the link from the never-assigned `apiUrl`, as the code does. |
| Workitems.Workitem.GetHtmlLink | src/Models/Workitem.php:171-182 | Resolves the link from the work item's own url, with the same memo. |
| Workitems.FreshLinkAsWrittenFails | src/Models/Workitem.php:171-182 | As written, a fresh work item never looks anything up: its first link request fails. |
| Workitems.FreshLinkLooksUpOwnUrl | src/Models/Workitem.php:171-182 | The corrected link looks up the item's own url once. |
| Workitems.Workitem.AddComment | src/Models/Workitem.php:192-206 | Sends exactly one POST of the comment body to the comments url, and fails exactly when the gateway does. |
| WorkItemBuilders.AppendRelationsValues | src/Models/WorkItemBuilder.php:205-222 | The attachment relations come after the existing body, one per attachment, in order. |
| WorkItemBuilders.AppendRelations | src/Models/WorkItemBuilder.php:205-222 | The loop adds exactly one entry per attachment after the existing entries, and leaves every existing entry with its value. |
| WorkItemBuilders.CreateUrl | src/Models/WorkItemBuilder.php:232-234 | The create url is the project base url, then `wit/workitems/$`, the type, and the query. |
| WorkItemBuilders.WorkItemBuilder.constructor | src/Models/WorkItemBuilder.php:37-41 | An empty body for the given type. |
| WorkItemBuilders.WorkItemBuilder.BuildBug | src/Models/WorkItemBuilder.php:49-52 | A fresh builder for `Bug`. |
| WorkItemBuilders.WorkItemBuilder.BuildPBI | src/Models/WorkItemBuilder.php:60-63 | A fresh builder for `Product Backlog Item`. |
| WorkItemBuilders.WorkItemBuilder.BuildIssue | src/Models/WorkItemBuilder.php:71-74 | A fresh builder for `Issue`. |
| WorkItemBuilders.WorkItemBuilder.BuildUserStory | src/Models/WorkItemBuilder.php:82-85 | A fresh builder for `User Story`. |
| WorkItemBuilders.WorkItemBuilder.InIterationPath | src/Models/WorkItemBuilder.php:104-112 | Puts the iteration path operation into its slot and returns the same builder. |
| WorkItemBuilders.WorkItemBuilder.InCurrentIterationPath | src/Models/WorkItemBuilder.php:93-96 | The same as `InIterationPath` of the current path. A failed lookup leaves the body unchanged. |
| WorkItemBuilders.WorkItemBuilder.AreaPath | src/Models/WorkItemBuilder.php:120-128 | Puts the area path operation into its slot. |
| WorkItemBuilders.WorkItemBuilder.Title | src/Models/WorkItemBuilder.php:136-145 | Puts the title operation, with a null `from`, into its slot. |
| WorkItemBuilders.WorkItemBuilder.ReproSteps | src/Models/WorkItemBuilder.php:153-163 | Puts the wrapped repro steps into their slot. |
| WorkItemBuilders.WorkItemBuilder.Description | src/Models/WorkItemBuilder.php:171-181 | Puts the wrapped description into its slot. |
| WorkItemBuilders.WorkItemBuilder.Tags | src/Models/WorkItemBuilder.php:189-197 | Puts the tags value, unchanged, into its slot. |
| WorkItemBuilders.WorkItemBuilder.Attachments | src/Models/WorkItemBuilder.php:205-222 | Appends one relation per attachment, in order. |
| WorkItemBuilders.WorkItemBuilder.Create | src/Models/WorkItemBuilder.php:230-239 | Sends one PATCH of the flattened body to the create url. A 200 answer is read as a work item bound to the same gateway. |
| WorkItemBuilders.SlotKeepsItsPlace | src/Models/WorkItemBuilder.php:104-197 | Re-setting a slot keeps its original position in the body. |
| WorkItemBuilders.TitleDescriptionAttachment | src/Models/WorkItemBuilder.php:136-222 | Title, then description, then one attachment flatten to exactly those three operations, in that order. |
| WorkitemRepositories.TagNames | src/Repository/WorkitemRepository.php:97-99 | The names of string tags. None when some tag is an object. |
| WorkitemRepositories.TagsValue | src/Repository/WorkitemRepository.php:96-100 | The tags loop gives the names joined by `;`, and fails exactly when a tag is an object. |
| WorkitemRepositories.TagsValueSplitsBack | src/Repository/WorkitemRepository.php:96-100 | Names without `;` come back out of the value one by one. |
| WorkitemRepositories.JoinIds | src/Repository/WorkitemRepository.php:353-357 | The ids loop gives the ids joined by `,`, with no trailing comma. |
| WorkitemRepositories.IdsRoundTrip | src/Repository/WorkitemRepository.php:353-357 | Splitting the ids value and parsing each piece gives the ids in order. |
| WorkitemRepositories.RelationOps | src/Repository/WorkitemRepository.php:75-93 | The attachment loop gives one relation per attachment, in order, with the TicketStudio comment. |
| WorkitemRepositories.CreateBugUrl | src/Repository/WorkitemRepository.php:52-55 | The bug endpoint under the project base url. |
| WorkitemRepositories.CreateBugTargetAsWritten | src/Repository/WorkitemRepository.php:55-79 | As written, the post goes to the last attachment's url whenever there are attachments. |
| WorkitemRepositories.CreateBugWithAttachmentMissesEndpoint | src/Repository/WorkitemRepository.php:55-79 | With one uploaded attachment, the written target is that attachment's url, not the endpoint. |
| WorkitemRepositories.BugOps | src/Repository/WorkitemRepository.php:57-106 | Title, wrapped repro steps, the relations, then the tags when there are any. |
| WorkitemRepositories.ExactAnswer | src/Repository/WorkitemRepository.php:120-131 | A transport failure gets the prefix. Exactly 200 succeeds, 203 is an authentication failure, and anything else carries the status. |
| WorkitemRepositories.WorkitemAnswer | src/Repository/WorkitemRepository.php:124-130 | An answer refused by the exact-200 rule gives that rule's error. A 200 answer is the work item `fromArray` reads from the decoded body. |
| WorkitemRepositories.UpdateUrl | src/Repository/WorkitemRepository.php:144-146 | The update url starts with the project base url, ends in `?api-version=7.1`, and the id can be read back from between them. |
| WorkitemRepositories.RepositoryCommentUrl | src/Repository/WorkitemRepository.php:212-214 | The comments url starts with the project base url, ends in `/comments?api-version=7.1`, and the id can be read back from between them. |
| WorkitemRepositories.SearchUrl | src/Repository/WorkitemRepository.php:289-291 | The search url is on the almsearch host, carries `organization/project` between the host and `/_apis/`, and ends in `?api-version=7.1`. |
| WorkitemRepositories.IdsUrl | src/Repository/WorkitemRepository.php:359-361 | The ids url starts with the project base url and ends in `&ids=` followed by the ids value. |
| WorkitemRepositories.UpdateAnswer | src/Repository/WorkitemRepository.php:187-196 | Success exactly below 300 and not 203. |
| WorkitemRepositories.UpdateAcceptsMoreThanReads | src/Repository/WorkitemRepository.php:191-196 | An update accepts a status below 300 other than 200 and 203, which a read rejects. |
| WorkitemRepositories.HeadersWith | src/Repository/WorkitemRepository.php:108-109 | `array_merge` of the content type with the stored header array: every stored header is kept with its value, `Content-Type` is present and is the given type unless the stored array sets it, and no other header appears. |
| WorkitemRepositories.SearchBody | src/Repository/WorkitemRepository.php:292-302 | The search document carries the text, `$skip` 0, `$top` 1, a null `filters`, `$orderBy` on `system.id` ascending and `includeFacets` true. |
| WorkitemRepositories.SearchOutcome | src/Repository/WorkitemRepository.php:318-326 | Count 0 is not found. A count above 1 is not unique. Otherwise the first result is read. |
| WorkitemRepositories.ZeroTextCountReadsFirst | src/Repository/WorkitemRepository.php:319-326 | A count of `"0"` is neither `=== 0` nor above one, so the first result is read. |
| WorkitemRepositories.MissingCountReadsFirst | src/Repository/WorkitemRepository.php:319-326 | A missing count reads as null, so the first result is read. |
| WorkitemRepositories.SearchCountIsStrict | src/Repository/WorkitemRepository.php:319-326 | A count of `"0"` or a missing count is not "not found": the first result is read. |
| WorkitemRepositories.ReadEachSucceedsIff | src/Repository/WorkitemRepository.php:380-382 | Reading the rows succeeds exactly when every row can be read. |
| WorkitemRepositories.ReadEachOneForOne | src/Repository/WorkitemRepository.php:380-382 | A successful reading has one result per row, in order. |
| WorkitemRepositories.ReadAllOneForOne | src/Repository/WorkitemRepository.php:380-382 | The same, for the rows read as work items. |
| WorkitemRepositories.ReadAll | src/Repository/WorkitemRepository.php:380-382 | Reading the rows succeeds exactly when every row is a valid work item document, and then gives one work item per row, in order. |
| WorkitemRepositories.ReadAllFailurePersists | src/Repository/WorkitemRepository.php:380-382 | The first row that fails decides the whole result. |
| WorkitemRepositories.ReadRows | src/Repository/WorkitemRepository.php:378-383 | The rows loop equals reading every row. |
| WorkitemRepositories.WorkitemRepository.constructor | src/Repository/WorkitemRepository.php:20-30 | Stores the client, the urls and the Authorization header. |
| WorkitemRepositories.WorkitemRepository.CreateBug | src/Repository/WorkitemRepository.php:44-131 | The intended behaviour, corrected for the first finding below: an object tag fails before anything is sent. Otherwise one POST of the bug operations goes to the bug endpoint, and the exact-200 answer is read as a work item. |
| WorkitemRepositories.WorkitemRepository.UpdateWorkitemReproStepsAndAttachments | src/Repository/WorkitemRepository.php:142-197 | The intended behaviour, corrected for the second finding below: a reference object contributes its url. One PATCH of the wrapped repro steps and the relations, under the update rule. |
| WorkitemRepositories.WorkitemRepository.AddCommentToWorkitem | src/Repository/WorkitemRepository.php:208-242 | One POST of the comment body, under the update rule. |
| WorkitemRepositories.WorkitemRepository.GetWorkItemFromApiUrl | src/Repository/WorkitemRepository.php:252-273 | One GET of the url itself. The exact-200 answer is read as a work item. |
| WorkitemRepositories.WorkitemRepository.SearchWorkitem | src/Repository/WorkitemRepository.php:285-332 | One POST of the search document to the search host, then the count rules. |
| WorkitemRepositories.WorkitemRepository.GetWorkitemsById | src/Repository/WorkitemRepository.php:345-389 | No ids give no request and no items. Otherwise one GET with the joined ids, and every row is read in order. |
| ApiClient.ProjectBaseUrl | src/AzureDevOpsApiClient.php:40 | The base url, the organization, `/`, the project, then `/_apis/`. |
| ApiClient.AzureDevOpsApiClient.constructor | src/AzureDevOpsApiClient.php:33-42 | Stores the fields and computes the project base url. No team is configured. |
| ApiClient.AzureDevOpsApiClient.SetHttpClient | src/AzureDevOpsApiClient.php:51-54 | Replaces the client and nothing else. |
| JsonPatch.ReadRelations | src/AzureDevOpsApiClient.php:91-104 | The attachment loop of bug creation returns exactly the array-reading relation list, with the same failure. |
| ApiClient.AzureDevOpsApiClient.CreateBugRequest | src/AzureDevOpsApiClient.php:68-105 | The bug url. Then the title, the wrapped repro steps and one OTRS relation per attachment, in order. Fails exactly when an attachment is a reference object. |
| ApiClient.CreateOutcome | src/AzureDevOpsApiClient.php:134-137 | A 2xx answer is read as a legacy work item. Any other status fails with `Could not create Bug: ` and the status. |
| ApiClient.NamedTeams | src/AzureDevOpsApiClient.php:158 | The filter keeps only teams whose name is exactly the one asked for. |
| ApiClient.TeamIdByName | src/AzureDevOpsApiClient.php:154-165 | A status of 400 or above fails with `Could not get Team: ` and the status. |
| ApiClient.TeamLookup | src/AzureDevOpsApiClient.php:157-165 | No team of the name gives `Team not found`. Two give `More than one team found`. Exactly one gives that team's id. |
| ApiClient.LegacyIdsUrl | src/AzureDevOpsApiClient.php:362-364 | The dev.azure.com work items url that ends in `&ids=` and the ids value. |
| ApiClient.AzureDevOpsApiClient.WorkitemsByIdUrl | src/AzureDevOpsApiClient.php:356-364 | The ids loop joins the ids by `,` with no trailing comma, and the url carries them. |
| ApiClient.NoIdsStillQuery | src/AzureDevOpsApiClient.php:356-364 | There is no early return: no ids give a query ending in an empty `ids=`. |
| ApiClient.LegacyRows | src/AzureDevOpsApiClient.php:368-377 | A non-2xx status fails with the status. |
| ApiClient.LegacyRowsOneForOne | src/AzureDevOpsApiClient.php:369-375 | A 2xx answer gives one legacy work item per row, in order, or fails when some row cannot be read. |
| ApiClient.IterationPath | src/AzureDevOpsApiClient.php:419-442 | The intended behaviour, corrected for the fifth finding below: no team gives `No Team configured`. A failed team lookup propagates. A non-2xx status fails. A 2xx answer goes to the count checks on one decoding. |
| ApiClient.AzureDevOpsApiClient.CurrentIterationPath | src/AzureDevOpsApiClient.php:422-425 | A client without a team always fails with `No Team configured`. |
| ApiClient.IterationReads | src/AzureDevOpsApiClient.php:433-439 | A zero count fails with `Could not find Iteration for` and the target. |
| ApiClient.IterationCountOfString | src/AzureDevOpsApiClient.php:436-439 | On one decoding, a count given as a padded decimal string above 1 is an error, and at most 1 gives the first iteration's path. |
| ApiClient.IterationCount | src/AzureDevOpsApiClient.php:433-439 | The corrected checks on one decoding: the integer count 0 is not found, any other count loosely above 1 is an error, and every remaining count (a missing one included) gives the first iteration's path through the string return type. |
| ApiClient.IterationCountAsWritten | src/AzureDevOpsApiClient.php:433-439 | As written, with the drained body re-read: never a path, and a TypeError once the zero-count check passes. |
| ApiClient.IterationCountAsWrittenNeverSucceeds | src/AzureDevOpsApiClient.php:433-439 | As written, the check never yields a path. |
| ApiClient.IterationReReadLosesPath | src/AzureDevOpsApiClient.php:433-439 | One current iteration: the intended check returns its path and the written one fails. |
| ApiClient.SearchReads | src/AzureDevOpsApiClient.php:333-342 | A zero count is WorkItemNotFound with the search text. |
| ApiClient.SearchCountOfString | src/AzureDevOpsApiClient.php:337-342 | On one decoding, a count given as a padded decimal string above 1 is not unique, and at most 1 reads the first result. |
| ApiClient.SearchCount | src/AzureDevOpsApiClient.php:333-342 | The corrected checks on one decoding: the integer count 0 is not found, any other count loosely above 1 is not unique, and every remaining count (a missing one included) reads the first result as a legacy ticket. |
| ApiClient.SearchCountAsWritten | src/AzureDevOpsApiClient.php:333-342 | As written, with the drained body re-read: never a work item, and a TypeError once the zero-count check passes. |
| ApiClient.SearchCountAsWrittenNeverSucceeds | src/AzureDevOpsApiClient.php:333-342 | As written, a search never yields a work item. |
| ApiClient.SearchReReadLosesHit | src/AzureDevOpsApiClient.php:333-342 | One hit: the intended check reads it, and the written one fails. |
| ApiClient.SearchOutcomeOf | src/AzureDevOpsApiClient.php:333-344 | The intended behaviour, corrected for the fourth finding below: only 2xx is read, by the count checks on one decoding. Anything else fails with the status. |
| ApiClient.WriteStatus | src/AzureDevOpsApiClient.php:215-217 | Update, comment and upload fail exactly at 400 and above, with `Could not update workitem: ` and the status. |
| ApiClient.UploadOutcome | src/AzureDevOpsApiClient.php:275-279 | Below 400 the decoded answer is returned. Otherwise it fails with the status. |
| ApiClient.RangesDiffer | src/AzureDevOpsApiClient.php:134-216 | A 3xx status fails a legacy bug creation and the repository's update, but passes the facade's update. |

## Left out

- Guzzle itself is not modelled: TLS, redirects, and the request options `auth`, `body` and `http_errors`. Every call is one `Transport.Send`, and its reply is a parameter. Two consequences follow. Guzzle 6 and 7 throw an `InvalidArgumentException` for an array passed as `body`, which the facade's `createBug`, `updateWorkitemReproStepsAndAttachments`, `addCommentToWorkitem` and `searchWorkitem` requests do; the model sends those bodies as documents. And with the default `http_errors` of true Guzzle throws on every 4xx and 5xx answer, so the `>= 400` branches and the fourth and fifth findings below are reachable only through a client configured or injected with `http_errors` off.
- A transport exception is modelled as one reply, `TransportFailure`. The `catch (GuzzleException)` arms are modelled on that reply.
- `json_encode` and `json_decode` are not modelled as text. Request bodies are operation sequences and documents. A decoded answer is a `Json` value or `Malformed`, and malformed text reads as null where the code does not check it.
- The facade's requests are sent with Guzzle's `auth` option and are not modelled as requests. What is modelled differs by method:
  - `createBug`: the url and body of lines 68-105 and the status rule.
  - `getTeamIdByName`: the status rule and the name filter. The `teams` url is not modelled.
  - `getWorkitemsById`: the ids url, the status rule and the row reading.
  - `searchWorkitem` and `getCurrentIterationPath`: the status rule and the count checks. The search url and search document of lines 313-330 and the team-settings url are not modelled.
  - `updateWorkitemReproStepsAndAttachments`, `addCommentToWorkitem` and `uploadAttachment`: only the `>= 400` status rule and, for the upload, the decoded answer.
  The urls of those last three methods are not modelled: `wit/workitems/{id}?api-version=6.0`, the comments url and `wit/attachments?fileName=…&api-version=6.0-preview.3`. Neither are their bodies: the update's wrapped repro steps and the relations read from `$attachment['azureDevOpsUrl']`, the comment text, and the uploaded content.
- The facade's `createBug` lines 107-127 read the undefined `azureDevOpsConfiguration` property. Line 118 then calls a method on null, so the whole method cannot reach its request. Only the body built on lines 68-105 and the status rule on lines 134-137 are modelled.
- The `getTeams` method (line 456 calls an array as a function) is not modelled. The same goes for `getBacklogs` and `getBacklogWorkItems`.
- The facade has no `getProjectBaseUrl`, `post` or `patch` method. The builder and `Workitem::addComment` depend on them, so the model gives those two the project base url and an `HttpClient` gateway directly.
- The repository and the builder build `Workitem` objects bound to a client. In the model, the repository returns the `WorkitemData` values they are made from, and the builder returns `Workitem` objects.
- The facade's results that are legacy work items are modelled as their property maps, not as `AzureDevOpsWorkitem` objects.
- A legacy ticket without `fields` is read the way the code reads it: `foreach` over null is skipped with a warning, so the constructor does not require that key.
- PhpValues.Index: reading a key of a value that is not an array gives null. PHP 8 does so for null, ints and bools, but a string is read by offset: a numeric offset gives a one-character string and a non-numeric one throws. So `$ticketArr['project']['name']` on a string project is a null in the model and an Error in PHP, and `decodeJsonResponse` with a key such as `'0'` on a string document returns the whole document in the model where PHP returns its first character.
- PhpValues.Lookup: a document with a duplicate key is read at its first occurrence, while `json_decode` keeps the last. Decoded documents therefore agree with PHP only when their keys are distinct.
- The legacy facade's `getWorkItemFromApiUrl` (lines 289-298) is not a separate member. Its result enters the link memo as the `fetched` parameter of `GetHtmlLink`.
- ApiClient.IterationPath: the team-settings url and the team lookup request are not modelled. The lookup's result is a parameter.
- ApiClient.TeamIdByName: the ensures states only the status failure. The name selection is stated by `ApiClient.TeamLookup`.
- PhpValues.LooseGreaterThanOne: a numeric string is compared by its exact decimal value, where PHP first rounds it to the nearest double; `"1.00000000000000001"` is above one here and equal to one in PHP. JSON floats are not modelled at all.
- OrderedArrays.Merge: the contents are stated for string-keyed arrays only. Integer keys, which `array_merge` renumbers, are not stated, and neither is the order of the merged keys.
- WorkitemRepositories.HeadersWith: the merge is stated only for a string-keyed stored header array, and the position of `Content-Type` among the headers is not stated.
- Text.ToLowerAscii: folds only the letters `A`-`Z`, where `mb_strtolower` also folds the capitals outside ASCII.
- LegacyWorkitems.PropertyName: inherits that ASCII-only folding, so a field key with a non-ASCII capital gets a property name that differs from PHP's.
- HttpGateway.Bytes: each character stands for one byte (its code modulo 256), where PHP's `base64_encode` sees the UTF-8 bytes of the credentials. The Authorization value agrees with PHP for ASCII credentials only.
- Image inlining of rich-text fields is not present in the modelled code, and there is no `Resolution` field on `Workitem`.
- Concurrency is not modelled. The only shared mutable state is the link cache, and the model is single-threaded.

## Findings

| source | as written | input that shows it | evidently intended | confidence | as-written member | corrected member |
|---|---|---|---|---|---|---|
| src/Repository/WorkitemRepository.php:77 | The attachment loop assigns `$url`, which also holds the bug endpoint. The post then goes to the last attachment's url. | One uploaded attachment whose url differs from the endpoint. | The bug is always posted to the bug endpoint. | high, not executed | WorkitemRepositories.CreateBugTargetAsWritten | WorkitemRepositories.WorkitemRepository.CreateBug |
| src/Repository/WorkitemRepository.php:166 | Every attachment is read as an array, so an `AttachmentReference` raises an Error. The documented parameter type allows those objects. | `[Reference(AttachmentReference("1", "u"))]` | A reference object contributes its url, as in bug creation and the builder. | high, not executed | JsonPatch.ArrayRelations | WorkitemRepositories.WorkitemRepository.UpdateWorkitemReproStepsAndAttachments |
| src/Models/Workitem.php:178 | The link is looked up from `$this->apiUrl`, which no constructor argument sets. Null reaches the string parameter and raises a TypeError. | Any work item fresh from `fromArray` | The link is looked up from the work item's own url. | high, not executed | Workitems.Workitem.GetHtmlLinkAsWritten | Workitems.Workitem.GetHtmlLink |
| src/AzureDevOpsApiClient.php:334-340 | Each search count check decodes the body stream again. After the first read the stream is drained, so the later reads are null, and every search that passes the zero-count check ends in a TypeError. | A search answer with count 1 and one ticket in `results`. | The body is decoded once, and all checks read that document. | medium, not executed | ApiClient.SearchCountAsWritten | ApiClient.SearchCount |
| src/AzureDevOpsApiClient.php:433-439 | The iteration count checks re-read the drained body in the same way, so the path is read from null and fails the string return type. | An iteration answer with count 1 and one iteration with a path. | The body is decoded once, and the path is read from that document. | medium, not executed | ApiClient.IterationCountAsWritten | ApiClient.IterationCount |
