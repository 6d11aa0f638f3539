# GSI custom resource and post-manager Lambdas, modelled in Dafny

This project models three AWS Lambda handlers of a serverless stack.

The first one backs a CloudFormation custom resource that manages one
DynamoDB global secondary index (GSI). The handler checks the request type
and runs `update_gsi`, which:

- waits until the table and all of its indexes are `ACTIVE`;
- decides whether to create, refuse, recreate or delete the index;
- merges the table's AttributeDefinitions with the requested ones;
- submits one UpdateTable call and waits again.

It then reports SUCCESS or FAILED back to CloudFormation.

The other two handlers serve the post-manager API. Each reads the API
Gateway event, builds one DynamoDB item and puts it into the table named by
the stage variables:

- `post_message` builds a length-checked post;
- `create_user` builds a user with a time-suffixed UserId.

Each handler answers 200 with the item, or re-raises the error prefixed with
"Message:".

How the model represents the system:

- **DynamoDB is an oracle.** `GsiStore.Store` gives the k-th DescribeTable
  answer and the k-th UpdateTable answer in advance. This also covers any
  change made to the table from outside between two calls.
- **Clients are classes.** `GsiStore.Client` counts its DescribeTable calls
  and logs every UpdateTable request. `PostRecords.ItemTable` does the same
  for `put_item`.
- **Methods follow the source's loops and are proved against functions.**
  - `WaitForTable` is proved equal to `Poll`.
  - `MergeAttributes` is proved equal to `MergeSpec`.
  - `UpdateGsi` is proved equal to `UpdateGsiSpec`.
  - `Handler` is proved equal to `HandlerSpec`.
  - `PostMessage` is proved to put, and return, the record `PostRecord`
    builds.
  
  The lemmas about those functions state what the source promises.
- **The clock is a parameter.** It is `nowMs`, the millisecond reading
  `int(time.time() * 10**3)`.
- **Python errors are values.** An exception is a `Py.PyError` carried in a
  `Result`. `Py.Message` is its `str()`.

Where the code does something unusual, the model follows the code:

- The timeout branch calls `_raise('Table timeout')` with one argument. What
  it raises is a TypeError about the missing argument, not a timeout error.
- On Delete, the submitted AttributeDefinitions are the table's attributes
  minus every name the payload declares. Nothing is added.
- A payload without AttributeDefinitions, or with an empty list, submits an
  empty attribute list.
- A destructive update runs a full `update_gsi('Delete', …)` first. It then
  merges the Create's attributes from the table as it was read before that
  delete.
- The wait after a submission may time out. `update_gsi` still returns
  success.
- `LogicalResourceId` is read after `update_gsi` has run. An event missing it
  therefore reports FAILED after the index was already changed.
- `post_message` line 38 lacks a closing parenthesis. The model gives the
  loop its evident meaning: each optional string field is length-checked and
  stored.

`value` in `posts_create.py` and `value_get` in `post_message.py` are the
same lambda. Both are modelled once, as `PostRecords.ValueGet`.

## Model

| member | source | states |
|---|---|---|
| Py.NatToString | stack/post-manager/posts_create.py:22 | `str(n)` of a natural number is a non-empty string of decimal digits whose last character is the ones digit of n |
| Py.Slice | stack/post-manager/post_message.py:16 | `v[:n]` succeeds exactly on strings and lists and yields the first min(len, n) characters or items (v itself when it is no longer than n); any other value raises TypeError "'<type>' object is not subscriptable" |
| GsiStore.Client.constructor | stack/custom-resources/dynamodb-gsi/dynamo_gsi.py:11 | a fresh client answers from the given store, has made no DescribeTable call and has submitted nothing |
| GsiStore.Client.DescribeTable | stack/custom-resources/dynamodb-gsi/dynamo_gsi.py:32 | each DescribeTable call returns the store's next answer and counts one call |
| GsiStore.Client.UpdateTable | stack/custom-resources/dynamodb-gsi/dynamo_gsi.py:132-135 | each UpdateTable call is logged, whatever the answer, and gets the store's answer for that position |
| TableState.IsSettled | stack/custom-resources/dynamodb-gsi/dynamo_gsi.py:33-37 | the status set equals {"ACTIVE"} exactly when the table status and every listed index status are ACTIVE |
| TableState.DescribeTable | stack/custom-resources/dynamodb-gsi/dynamo_gsi.py:30-37 | one DescribeTable call, which fails with ValueError(str(envelope)) on a non-200 envelope and otherwise returns (settled, table) |
| TableState.WaitForTable | stack/custom-resources/dynamodb-gsi/dynamo_gsi.py:40-48 | the retry loop returns what the poll function returns, after exactly as many DescribeTable calls |
| TableState.PollReadsAtMostRounds | stack/custom-resources/dynamodb-gsi/dynamo_gsi.py:42 | the wait makes at most `rounds` DescribeTable calls, and at least one when rounds > 0 |
| TableState.PollReturnsFirstSettled | stack/custom-resources/dynamodb-gsi/dynamo_gsi.py:43-45 | when answer k is the first settled one and k < rounds, the wait returns that table after k+1 calls |
| TableState.PollTimesOut | stack/custom-resources/dynamodb-gsi/dynamo_gsi.py:42-48 | when no answer within the budget settles, the wait returns the empty result after exactly `rounds` calls |
| TableState.PollRaisesOnRejected | stack/custom-resources/dynamodb-gsi/dynamo_gsi.py:42-48 | a non-200 envelope before any settled answer aborts the wait with ValueError(str(envelope)) |
| TableState.PollOutcomeExplained | stack/custom-resources/dynamodb-gsi/dynamo_gsi.py:40-48 | conversely, every result of the wait is one of those three: a timeout after `rounds` unsettled answers, the first settled table, or the first rejected envelope |
| AttributeMerge.TypeOfFinds | stack/custom-resources/dynamodb-gsi/dynamo_gsi.py:98-104 | `key in new_attr` holds exactly when the dictionary has that name, and `new_attr[key]` is the type of its unique entry |
| AttributeMerge.PutNames | stack/custom-resources/dynamodb-gsi/dynamo_gsi.py:28 | storing a key into the dictionary adds exactly that name |
| AttributeMerge.PutKeepsNamesUnique | stack/custom-resources/dynamodb-gsi/dynamo_gsi.py:28 | a dictionary never holds a name twice |
| AttributeMerge.PutTypeOf | stack/custom-resources/dynamodb-gsi/dynamo_gsi.py:28 | after `d[name] = type` the name maps to the new type and every other name keeps its type |
| AttributeMerge.AttrDictLastWins | stack/custom-resources/dynamodb-gsi/dynamo_gsi.py:28 | `attr_dict` has exactly the listed names, each once, and a repeated name takes the type of its last entry |
| AttributeMerge.WithoutKeeps | stack/custom-resources/dynamodb-gsi/dynamo_gsi.py:97-114 | skipping named entries keeps exactly the others, in order, adds none and keeps names unique |
| AttributeMerge.KeepCurrent | stack/custom-resources/dynamodb-gsi/dynamo_gsi.py:97-108 | the first loop keeps, in table order, the current attributes the payload does not name on Delete; otherwise it keeps all of them, or raises "Cant update attribute value" when one changes type |
| AttributeMerge.AppendNew | stack/custom-resources/dynamodb-gsi/dynamo_gsi.py:110-117 | the second loop appends, in payload order, exactly the payload attributes whose names the table does not hold |
| AttributeMerge.MergeAttributes | stack/custom-resources/dynamodb-gsi/dynamo_gsi.py:97-117 | both loops together compute the merge specification |
| AttributeMerge.MergeOnDeleteDropsPayloadNames | stack/custom-resources/dynamodb-gsi/dynamo_gsi.py:97-101 | on Delete the merge cannot fail and keeps exactly the current attributes whose names the payload does not declare |
| AttributeMerge.MergeOnCreateFailsOnTypeChange | stack/custom-resources/dynamodb-gsi/dynamo_gsi.py:104-105 | on Create the merge fails, with "Cant update attribute value", exactly when some name has different types in the table and in the payload |
| AttributeMerge.MergeOnCreateKeepsEverything | stack/custom-resources/dynamodb-gsi/dynamo_gsi.py:107-117 | otherwise the merged list is the table's attributes followed by the payload-only ones; it names every attribute of either side exactly once |
| Lifecycle.Submit | stack/custom-resources/dynamodb-gsi/dynamo_gsi.py:130-140 | the try block logs exactly one submission; it succeeds exactly when UpdateTable returns a 200 envelope and the second wait does not fail (a second-wait timeout still succeeds); every failure is a ValueError: an SDK exception carries its text, a non-200 envelope its `str()`, a failed second wait its message |
| Lifecycle.UpdateGsiSpec | stack/custom-resources/dynamodb-gsi/dynamo_gsi.py:51-142 | `update_gsi` only appends submissions, at most one for Delete and at most two otherwise; each one targets the payload's table and index, carries only a Delete entry on Delete, and carries a Create entry with the payload's KeySchema and Projection |
| Lifecycle.Decide | stack/custom-resources/dynamodb-gsi/dynamo_gsi.py:64-88 | the decision on a settled table keeps the same bounds and shape of submissions, through the recursive Delete |
| Lifecycle.Finish | stack/custom-resources/dynamodb-gsi/dynamo_gsi.py:87-140 | after a successful step, the merge and the submission add at most one submission, of that shape |
| Lifecycle.FinishAfter | stack/custom-resources/dynamodb-gsi/dynamo_gsi.py:79-135 | an error in the recursive Delete propagates unchanged; a merge error submits nothing; otherwise the run is the try block submitting the merged attributes and the one index update |
| Lifecycle.DecideAfterPoll | stack/custom-resources/dynamodb-gsi/dynamo_gsi.py:58-64 | once the first wait returns a settled table, the run is the decision on that table |
| Lifecycle.UpdateGsi | stack/custom-resources/dynamodb-gsi/dynamo_gsi.py:51-142 | `update_gsi` step by step: its result, DescribeTable calls and submissions are those of the specification |
| Lifecycle.SubmitUpdate | stack/custom-resources/dynamodb-gsi/dynamo_gsi.py:130-140 | the submission and the wait after it are those of the specification; every error is re-raised as a ValueError carrying its text |
| Lifecycle.SubmitIgnoresSecondTimeout | stack/custom-resources/dynamodb-gsi/dynamo_gsi.py:132-142 | an accepted submission whose table never settles within the budget still succeeds, after exactly 300 more reads |
| Lifecycle.TimeoutSubmitsNothing | stack/custom-resources/dynamodb-gsi/dynamo_gsi.py:58-61 | a table that never settles fails the run with the TypeError of `_raise`'s missing argument, after exactly 300 reads, and submits nothing |
| Lifecycle.DeleteOfAbsentIndexIsNoop | stack/custom-resources/dynamodb-gsi/dynamo_gsi.py:67-69 | deleting an index the table lacks succeeds and submits nothing |
| Lifecycle.DeleteOfPresentIndexSubmitsDelete | stack/custom-resources/dynamodb-gsi/dynamo_gsi.py:67-135 | deleting a present index is the try block submitting exactly one Delete entry with only the index name and the attributes merged for a Delete, so its result is that of the submission |
| Lifecycle.DeleteAttributesDropPayloadNames | stack/custom-resources/dynamodb-gsi/dynamo_gsi.py:91-101 | the attributes sent with a Delete are the table's minus every name the payload declares, and none when the payload declares none |
| Lifecycle.UpdateOfPresentIndexNeedsOptIn | stack/custom-resources/dynamodb-gsi/dynamo_gsi.py:73-81 | Create or Update of a present index without `delete_on_update` True fails with "Cant Update" and submits nothing |
| Lifecycle.CreateOfAbsentIndexSubmitsCreate | stack/custom-resources/dynamodb-gsi/dynamo_gsi.py:73-135 | Create or Update of an absent index is the try block submitting one Create entry with the KeySchema, Projection and merged attributes, so its result is that of the submission; or it fails on the merge and submits nothing |
| Lifecycle.DestructiveUpdateRunsDeleteThenCreate | stack/custom-resources/dynamodb-gsi/dynamo_gsi.py:78-117 | with the opt-in, the run is the recursive Delete; when that and the merge succeed, the try block follows, submitting one Create with attributes merged from the table as read before the delete |
| Lifecycle.DestructiveUpdateDeletesFirst | stack/custom-resources/dynamodb-gsi/dynamo_gsi.py:78-88 | in a destructive update every Delete submission precedes the Create, and a successful run ends with the Create |
| GsiHandler.IntentOf | stack/custom-resources/dynamodb-gsi/dynamo_gsi.py:147-149 | exactly 'Create', 'Update' and 'Delete' are accepted, and only 'Delete' asks for a delete |
| GsiHandler.HandlerSpec | stack/custom-resources/dynamodb-gsi/dynamo_gsi.py:144-159 | SUCCESS exactly when the request type is valid, `update_gsi` returns and LogicalResourceId is present, with empty data and that id as physical id; otherwise FAILED with data {"Message": str(e)}: a missing RequestType or ResourceProperties reports that key's KeyError and an invalid type the RequestType message, with nothing done; an `update_gsi` error is reported after its calls and submissions; a missing LogicalResourceId reports its KeyError after `update_gsi` has made its calls and submissions |
| GsiHandler.Handler | stack/custom-resources/dynamodb-gsi/dynamo_gsi.py:144-159 | `handler` step by step reports what the specification reports, after the same calls and submissions |
| GsiHandler.RejectedEnvelopeIsReported | stack/custom-resources/dynamodb-gsi/dynamo_gsi.py:144-159 | a rejected DescribeTable envelope before the table settles is reported FAILED with the envelope's text, and nothing is submitted |
| GsiHandler.TimeoutIsReported | stack/custom-resources/dynamodb-gsi/dynamo_gsi.py:144-159 | a table that never settles is reported FAILED with the TypeError's message, and nothing is submitted |
| PostRecords.ValueGet | stack/post-manager/post_message.py:15 | the value under the key, or "" when the key is absent |
| PostRecords.TagKeyFacts | stack/post-manager/post_message.py:43 | the keys Tag0, Tag1, Tag2 are four characters long, start with "Tag" and are distinct |
| PostRecords.TagKeysGrow | stack/post-manager/post_message.py:43-44 | one more tag adds exactly its key |
| PostRecords.TagKeysAreShort | stack/post-manager/post_message.py:43-44 | the keys of at most three tags are all four characters long |
| PostRecords.TagWindow | stack/post-manager/post_message.py:41-44 | tags are used exactly when the payload's Tags is a list, and then they are its first min(len, 3) items |
| PostRecords.EventParts | stack/post-manager/post_message.py:52-56 | the event parts are read in order: body-json, stage-variables and context; the first missing one raises its KeyError ('body-json', 'stage-variables' or 'context') |
| PostRecords.PutOutcome | stack/post-manager/post_message.py:47-48 | the record is returned exactly when it was built and the put succeeded; a build error is returned unchanged |
| PostRecords.Respond | stack/post-manager/post_message.py:58-65 | a record gives statusCode 200 with that record as body; an error is re-raised as an Exception whose text is "Message:" + str(e) |
| PostRecords.ItemTable.constructor | stack/post-manager/post_message.py:11 | a fresh table resource has put nothing |
| PostRecords.ItemTable.PutItem | stack/post-manager/post_message.py:47 | each put is logged with its table name and gets the answer for its position |
| PostMessage.MaxLength | stack/post-manager/post_message.py:16 | `max_length(s, l)` returns s unchanged exactly when s is a string or list of at most l; a longer one raises ValueError "String to long (l)"; an unsliceable value raises TypeError |
| PostMessage.TagValue | stack/post-manager/post_message.py:43 | a tag passes exactly when it is a string of at most 128 characters, and is then stored unchanged |
| PostMessage.TagValueErrors | stack/post-manager/post_message.py:43 | a longer string tag raises "String to long (128)" despite the 129-character cut; a non-string tag raises "'<type>' object is not subscriptable" |
| PostMessage.TagEntriesPassShortTags | stack/post-manager/post_message.py:42-45 | the tag entries are built exactly when every one of the (at most three) tags passes |
| PostMessage.TagEntriesStoreTags | stack/post-manager/post_message.py:42-45 | when built, the entries are keyed exactly Tag0.. and each holds its tag |
| PostMessage.TagEntriesKeepFirstError | stack/post-manager/post_message.py:42-45 | the first failing tag decides the error the comprehension raises |
| PostMessage.OptionalsKeepStrings | stack/post-manager/post_message.py:30-38 | the optional-items loop fails exactly when a string among ImageUrl and Description exceeds 2048; otherwise it adds exactly the optional fields that hold strings, unchanged, and keeps the rest of the record |
| PostMessage.RequiredFieldsUnchanged | stack/post-manager/post_message.py:22-28 | the record literal is built exactly when UserId (128), SourceIP (39), UserAgent (512) and PostUrl (2048) are within their limits; it holds them unchanged with EventTime the clock reading |
| PostMessage.PostRecordBuiltIffAcceptable | stack/post-manager/post_message.py:19-45 | a record is built exactly when the table is named, every field is within its limit and every tag among the first three passes |
| PostMessage.PostRecordParts | stack/post-manager/post_message.py:20-45 | a built record goes to the named table and is the required fields, then the optional strings, then the tag entries |
| PostMessage.PostRecordKeepsFields | stack/post-manager/post_message.py:20-28 | a built record holds UserId, SourceIP, UserAgent and PostUrl unchanged and EventTime as the clock reading, in the named table |
| PostMessage.KeptField | stack/post-manager/post_message.py:22-45 | a required field keeps its value through the optional loop and the tag update |
| PostMessage.PostRecordKeys | stack/post-manager/post_message.py:22-45 | a built record has the five required keys, the optional fields that hold strings and one key per tag, and no other key |
| PostMessage.PostRecordKeepsOptionalsAndTags | stack/post-manager/post_message.py:35-45 | a built record stores each optional string and each of the first three tags unchanged |
| PostMessage.LongTagAborts | stack/post-manager/post_message.py:43 | a tag of 129 or more characters among the first three makes the whole call fail |
| PostMessage.PostMessage | stack/post-manager/post_message.py:19-48 | `post_message` puts exactly the built record into the named table and returns it, the SDK error when the put fails, or the build error with nothing put |
| PostMessage.PostHandler | stack/post-manager/post_message.py:50-65 | the handler reads the event parts, posts, and answers 200 with the record or re-raises prefixed "Message:"; a missing event part puts nothing |
| PostsCreate.LastDigit | stack/post-manager/posts_create.py:22 | `str(time_in_ms)[-1]` is the ones digit of the clock reading |
| PostsCreate.TagStringsKeys | stack/post-manager/posts_create.py:31-34 | up to three tags give exactly the keys Tag0.. |
| PostsCreate.TagStringsStoreTags | stack/post-manager/posts_create.py:31-34 | each tag key holds `str()` of its tag, with no length limit |
| PostsCreate.CreateUserNeedsKeys | stack/post-manager/posts_create.py:16-27 | a user record is built exactly when DynamoDBTable, UserId and Message are present; otherwise the KeyError names the first missing one, in that order |
| PostsCreate.CreateUserParts | stack/post-manager/posts_create.py:21-34 | a built user record is its five fixed fields plus, when Tags is a list, the tag strings |
| PostsCreate.CreateUserKeys | stack/post-manager/posts_create.py:21-34 | a built user record has the five fixed keys and one per tag, no other |
| PostsCreate.CreateUserKeepsFields | stack/post-manager/posts_create.py:21-34 | the tag strings never overwrite a fixed field |
| PostsCreate.UserFieldKeysAreLong | stack/post-manager/posts_create.py:21-27 | every fixed field's key is longer than a tag key |
| PostsCreate.UnionKeepsLongKeys | stack/post-manager/posts_create.py:31 | adding four-character keys keeps every longer key's value |
| PostsCreate.CreateUserStoresTags | stack/post-manager/posts_create.py:30-34 | the first three tags are stored as their `str()` |
| PostsCreate.UserIdEndsWithEventTimeDigit | stack/post-manager/posts_create.py:22-23 | the UserId is the payload's UserId as text, a dash, and the last digit of the EventTime |
| PostsCreate.CreateUserRecord | stack/post-manager/posts_create.py:16-34 | a built user record goes to the named table and holds the suffixed UserId, EventTime the clock reading, SourceIP and UserAgent from the context or "", Message unchanged and the tags as strings, with no other key |
| PostsCreate.CreateUserHandler | stack/post-manager/posts_create.py:39-52 | the handler answers 200 with the created record exactly when the event parts are present, the record is built and the put succeeds; otherwise it raises Exception("Message:" + str(e)), where e is the first missing event part's KeyError, `create_user`'s KeyError, or the put's SDK error |

## Left out

- Network I/O to DynamoDB through boto3 is not modelled. The store's answers are oracles given in advance. Module-level client and resource construction, including its failure path, is not modelled.
- `cfnresponse.send` is not modelled. Only the status, data and physical resource id of the report are kept. The library's default physical id (the log stream name) is shown as `None`.
- `time.sleep`, the `delay` parameter and logging (`logger.info`, the `print` calls of `update_gsi`) do not affect any result and are not modelled.
- The clock is the `nowMs` parameter, not a call.
- `json.dumps` is not modelled: the response body is the record itself, and dictionary key order is not kept (records are maps).
- Payload values are strings, integers, booleans, null, or lists of those. Nested dictionaries, nested lists and Python's string escaping in `repr` are not modelled.
- Floating-point JSON numbers are not modelled. A float in UserId, PostUrl, an optional field or a tag would raise "'float' object is not subscriptable" in `post_message`. `create_user` would render it with `str(float)` in UserId, Message and the tags. The model cannot express either case.
- Event parts and resource properties that are present but not dictionaries are not modelled. Neither is an AttributeDefinitions value that is truthy but not a list.
- The model assumes every described table carries a TableStatus and AttributeDefinitions, and every GlobalSecondaryIndexes entry carries an IndexName and an IndexStatus. A KeyError on any of them is not modelled.
- An exception raised by the DescribeTable call itself, such as ResourceNotFoundException or throttling, is not modelled: every DescribeTable answer is an envelope. In the code such an exception aborts the wait. From the first wait it reaches the handler unchanged, as a ClientError. From the wait after the submission it is re-raised as `ValueError(str(e))`. A non-200 envelope whose text is `str(e)` gives the same FAILED report; only the exception class `update_gsi` raises from the first wait differs.
- An AttributeDefinitions entry, in the table or in the payload, without AttributeName or AttributeType is not modelled. Every `AttrDef` has both fields, so the KeyError `attr_dict` would raise is not modelled either.
- `update_gsi` with an action other than Create, Update or Delete is not modelled: the handler rejects such requests before calling it.
- The command-line test harness at the end of `dynamo_gsi.py` (`test_lambda` and its `AttrDict` class) is not modelled. Neither is `test/test_api_gateway.py`.
- Concurrent invocations and changes other callers make between two DynamoDB calls are not modelled, beyond what the oracle's arbitrary answers allow.
- Lifecycle.UpdateGsiSpec: states the shape and count of submissions for every run. The exact submission for each settled case is stated in the lemmas that follow it, on the wait's result. `PollReturnsFirstSettled` and `PollOutcomeExplained` connect that result to the table answers.
