/** `post_message`: build one length-checked post record from the request,
    put it into the table, and return it. */
module PostMessage {
  import opened Py
  import opened PostRecords

  /** `max_length(s, l)`: `s` itself when `len(s[:l+1]) <= l`, that is when it
      has at most `l` characters or items; a longer value raises ValueError
      and a value that cannot be sliced raises TypeError. */
  function MaxLength(v: Value, limit: nat): (r: Result<Value>)
    ensures r.Ok? <==> Sized(v) && Len(v) <= limit
    ensures r.Ok? ==> r.value == v
    ensures Sized(v) && Len(v) > limit ==> r == Err(ValueError("String to long (" + NatToString(limit) + ")"))
    ensures !Sized(v) ==> r.Err? && r.error.TypeError?
  {
    var head :- Slice(v, limit + 1);
    if Len(head) <= limit then Ok(v) else Err(ValueError("String to long (" + NatToString(limit) + ")"))
  }

  /** The optional payload fields, in the order they are checked, with their limits. */
  const OptionalItems: seq<(string, nat)> := [("ImageUrl", 2048), ("Description", 2048)]

  /** The payload holds a string under `key`; anything else is skipped. */
  predicate HasText(payload: Dict, key: string) {
    key in payload && IsStr(payload[key])
  }

  /** One round of the optional-items loop: a string is length-checked and stored. */
  function WithOptional(record: Dict, payload: Dict, item: (string, nat)): Result<Dict> {
    if HasText(payload, item.0) then
      var v :- MaxLength(payload[item.0], item.1);
      Ok(record[item.0 := v])
    else Ok(record)
  }

  /** The optional-items loop over `items`, in order. */
  function WithOptionals(record: Dict, payload: Dict, items: seq<(string, nat)>): Result<Dict>
    decreases |items|
  {
    if |items| == 0 then Ok(record)
    else
      var r :- WithOptionals(record, payload, items[..|items| - 1]);
      WithOptional(r, payload, items[|items| - 1])
  }

  /** A tag that passes the length check: a string of at most 128 characters. */
  predicate ShortTag(x: Scalar) {
    x.Str? && |x.s| <= 128
  }

  /** One tag's entry: `max_length(str(value[:129]), 128)`. */
  function TagValue(x: Scalar): (r: Result<Value>)
    ensures r.Ok? <==> ShortTag(x)
    ensures r.Ok? ==> r.value == Scalar(x)
  {
    var head :- Slice(Scalar(x), 129);
    MaxLength(S(ValueStr(head)), 128)
  }

  /** Slicing a tag to 129 characters first does not save a long one: it
      still fails the 128 check; a tag that is not a string cannot be sliced. */
  lemma TagValueErrors(x: Scalar)
    ensures x.Str? && |x.s| > 128 ==> TagValue(x) == Err(ValueError("String to long (128)"))
    ensures !x.Str? ==> TagValue(x) == Err(TypeError("'" + TypeName(x) + "' object is not subscriptable"))
  {
    assert NatToString(128) == "128" by {
      assert NatToString(1) == "1";
      assert NatToString(12) == NatToString(1) + [DigitChar(2)] == "12";
      assert NatToString(128) == NatToString(12) + [DigitChar(8)];
    }
    assert "String to long (" + NatToString(128) + ")" == "String to long (128)";
  }

  /** The tag comprehension over `tags`: entry `Tag<i>` for the i-th tag. */
  function TagEntries(tags: seq<Scalar>): Result<Dict>
    decreases |tags|
  {
    if |tags| == 0 then Ok(map[])
    else
      var m :- TagEntries(tags[..|tags| - 1]);
      var v :- TagValue(tags[|tags| - 1]);
      Ok(m[TagKey(|tags| - 1) := v])
  }

  /** The required fields, in the order the record literal evaluates them. */
  function RequiredFields(payload: Dict, context: Dict, nowMs: nat): Result<Dict> {
    var userId :- Lookup(payload, "UserId");
    var userId :- MaxLength(userId, 128);
    var sourceIp :- MaxLength(ValueGet(context, "source-ip"), 39);
    var userAgent :- MaxLength(ValueGet(context, "user-agent"), 512);
    var postUrl :- Lookup(payload, "PostUrl");
    var postUrl :- MaxLength(postUrl, 2048);
    Ok(map["UserId" := userId, "EventTime" := Scalar(Int(nowMs)), "SourceIP" := sourceIp,
           "UserAgent" := userAgent, "PostUrl" := postUrl])
  }

  /** The (table name, record) `post_message` puts, or the first error raised
      while building it; `nowMs` is the clock reading in milliseconds. */
  function PostRecord(payload: Dict, stageVars: Dict, context: Dict, nowMs: nat): Result<(Value, Dict)> {
    var tableName :- Lookup(stageVars, "DynamoDBTable");
    var record :- RequiredFields(payload, context, nowMs);
    var record :- WithOptionals(record, payload, OptionalItems);
    var window := TagWindow(payload);
    if window.None? then Ok((tableName, record))
    else
      var entries :- TagEntries(window.value);
      Ok((tableName, record + entries))
  }

  /** Up to three tags all pass exactly when each is a string of at most 128
      characters, so one long tag sinks them all. */
  lemma {:induction false} TagEntriesPassShortTags(tags: seq<Scalar>)
    requires |tags| <= 3
    ensures TagEntries(tags).Ok? <==> forall i | 0 <= i < |tags| :: ShortTag(tags[i])
    decreases |tags|
  {
    if |tags| > 0 {
      var n := |tags| - 1;
      var front := tags[..n];
      TagEntriesPassShortTags(front);
      var before := TagEntries(front);
      var last := TagValue(tags[n]);
      if before.Err? {
        var j :| 0 <= j < n && !ShortTag(front[j]);
        assert tags[j] == front[j];
      } else if last.Ok? {
        forall i | 0 <= i < n ensures ShortTag(tags[i]) {
          assert tags[i] == front[i];
        }
      }
    }
  }

  /** When they pass, the entries are exactly `Tag0`.. up to the number of
      tags, each holding its tag unchanged. */
  lemma {:induction false} TagEntriesStoreTags(tags: seq<Scalar>)
    requires |tags| <= 3 && TagEntries(tags).Ok?
    ensures TagEntries(tags).value.Keys == TagKeys(|tags|)
    ensures forall i | 0 <= i < |tags| :: TagEntries(tags).value[TagKey(i)] == Scalar(tags[i])
    decreases |tags|
  {
    if |tags| > 0 {
      var n := |tags| - 1;
      var front := tags[..n];
      var before := TagEntries(front);
      assert before.Ok?;
      TagEntriesStoreTags(front);
      var m := TagEntries(tags).value;
      assert m == before.value[TagKey(n) := Scalar(tags[n])];
      TagKeysGrow(n);
      forall i | 0 <= i < |tags| ensures m[TagKey(i)] == Scalar(tags[i]) {
        if i < n {
          assert tags[i] == front[i];
          TagKeyFacts(i, n);
          assert m[TagKey(i)] == before.value[TagKey(i)];
        }
      }
    }
  }

  /** The optional fields the payload holds strings under. */
  function TextOptionals(payload: Dict): set<string> {
    set item | item in OptionalItems && HasText(payload, item.0) :: item.0
  }

  /** The optional fields pass exactly when each string among them is within
      2048 characters; then each is in the record, unchanged, exactly when the
      payload holds a string under it, and the rest of the record is kept. */
  lemma OptionalsKeepStrings(record: Dict, payload: Dict)
    ensures var r := WithOptionals(record, payload, OptionalItems);
      && (r.Ok? <==> forall k | k in TextOptionals(payload) :: |payload[k].x.s| <= 2048)
      && (r.Ok? ==> r.value.Keys == record.Keys + TextOptionals(payload))
      && (r.Ok? ==> forall k | k in r.value ::
            r.value[k] == if k in TextOptionals(payload) then payload[k] else record[k])
  {
    assert OptionalItems[..1] == [("ImageUrl", 2048)];
    assert OptionalItems[..2] == OptionalItems;
    assert OptionalItems[..0] == [];
  }

  /** The required fields are within their limits (absent context fields
      count as the empty string). */
  predicate RequiredAcceptable(payload: Dict, context: Dict) {
    && "UserId" in payload && Sized(payload["UserId"]) && Len(payload["UserId"]) <= 128
    && Sized(ValueGet(context, "source-ip")) && Len(ValueGet(context, "source-ip")) <= 39
    && Sized(ValueGet(context, "user-agent")) && Len(ValueGet(context, "user-agent")) <= 512
    && "PostUrl" in payload && Sized(payload["PostUrl"]) && Len(payload["PostUrl"]) <= 2048
  }

  /** The required fields are built exactly when they are within their
      limits, and then hold the request's values unchanged and the clock
      reading. */
  lemma RequiredFieldsUnchanged(payload: Dict, context: Dict, nowMs: nat)
    ensures RequiredFields(payload, context, nowMs).Ok? <==> RequiredAcceptable(payload, context)
    ensures RequiredFields(payload, context, nowMs).Ok? ==>
      RequiredFields(payload, context, nowMs).value ==
        map["UserId" := payload["UserId"], "EventTime" := Scalar(Int(nowMs)),
            "SourceIP" := ValueGet(context, "source-ip"), "UserAgent" := ValueGet(context, "user-agent"),
            "PostUrl" := payload["PostUrl"]]
  {
  }

  /** Everything a request must satisfy for `post_message` to build its record. */
  predicate Acceptable(payload: Dict, stageVars: Dict, context: Dict) {
    && "DynamoDBTable" in stageVars
    && RequiredAcceptable(payload, context)
    && (forall k | k in TextOptionals(payload) :: |payload[k].x.s| <= 2048)
    && (TagWindow(payload).Some? ==>
          forall i | 0 <= i < |TagWindow(payload).value| :: ShortTag(TagWindow(payload).value[i]))
  }

  /** A record is built exactly when the request is acceptable, so any
      over-length field, a tag of 129 or more characters included, aborts
      the whole call. */
  lemma PostRecordBuiltIffAcceptable(payload: Dict, stageVars: Dict, context: Dict, nowMs: nat)
    ensures PostRecord(payload, stageVars, context, nowMs).Ok? <==> Acceptable(payload, stageVars, context)
  {
    RequiredFieldsUnchanged(payload, context, nowMs);
    var base := RequiredFields(payload, context, nowMs);
    if base.Ok? {
      OptionalsKeepStrings(base.value, payload);
      if TagWindow(payload).Some? {
        TagEntriesPassShortTags(TagWindow(payload).value);
      }
    }
  }

  /** The keys a built record has: the five required ones, each optional
      field the payload holds a string under, and one per tag in the window. */
  function PostKeys(payload: Dict): set<string> {
    {"UserId", "EventTime", "SourceIP", "UserAgent", "PostUrl"}
      + TextOptionals(payload)
      + (if TagWindow(payload).Some? then TagKeys(|TagWindow(payload).value|) else {})
  }

  /** The record a successful build puts: the required fields, then the
      optional strings, then the tag entries. */
  lemma {:induction false} PostRecordParts(payload: Dict, stageVars: Dict, context: Dict, nowMs: nat)
    requires PostRecord(payload, stageVars, context, nowMs).Ok?
    ensures RequiredFields(payload, context, nowMs).Ok?
    ensures WithOptionals(RequiredFields(payload, context, nowMs).value, payload, OptionalItems).Ok?
    ensures TagWindow(payload).Some? ==> TagEntries(TagWindow(payload).value).Ok?
    ensures PostRecord(payload, stageVars, context, nowMs).value ==
      (stageVars["DynamoDBTable"],
       WithOptionals(RequiredFields(payload, context, nowMs).value, payload, OptionalItems).value +
       if TagWindow(payload).Some? then TagEntries(TagWindow(payload).value).value else map[])
  {
    var base := RequiredFields(payload, context, nowMs);
    assert base.Ok?;
    var optional := WithOptionals(base.value, payload, OptionalItems);
    assert optional.Ok?;
    var window := TagWindow(payload);
    if window.Some? {
      var entries := TagEntries(window.value);
      assert entries.Ok?;
      assert PostRecord(payload, stageVars, context, nowMs) ==
        Ok((stageVars["DynamoDBTable"], optional.value + entries.value));
    } else {
      assert PostRecord(payload, stageVars, context, nowMs) ==
        Ok((stageVars["DynamoDBTable"], optional.value));
      assert optional.value + map[] == optional.value;
    }
  }

  /** A built record holds the required fields unchanged and the clock
      reading, and goes to the table the stage variables name. */
  lemma {:induction false} PostRecordKeepsFields(payload: Dict, stageVars: Dict, context: Dict, nowMs: nat)
    requires PostRecord(payload, stageVars, context, nowMs).Ok?
    ensures var (tableName, record) := PostRecord(payload, stageVars, context, nowMs).value;
      && tableName == stageVars["DynamoDBTable"]
      && "UserId" in record && record["UserId"] == payload["UserId"]
      && "EventTime" in record && record["EventTime"] == Scalar(Int(nowMs))
      && "SourceIP" in record && record["SourceIP"] == ValueGet(context, "source-ip")
      && "UserAgent" in record && record["UserAgent"] == ValueGet(context, "user-agent")
      && "PostUrl" in record && record["PostUrl"] == payload["PostUrl"]
  {
    RequiredFieldsUnchanged(payload, context, nowMs);
    PostRecordParts(payload, stageVars, context, nowMs);
    KeptField(payload, stageVars, context, nowMs, "UserId");
    KeptField(payload, stageVars, context, nowMs, "EventTime");
    KeptField(payload, stageVars, context, nowMs, "SourceIP");
    KeptField(payload, stageVars, context, nowMs, "UserAgent");
    KeptField(payload, stageVars, context, nowMs, "PostUrl");
  }

  /** A built record has the five required keys, each optional field the
      payload holds a string under, one key per tag in the window, and no
      other key. */
  lemma {:induction false} PostRecordKeys(payload: Dict, stageVars: Dict, context: Dict, nowMs: nat)
    requires PostRecord(payload, stageVars, context, nowMs).Ok?
    ensures PostRecord(payload, stageVars, context, nowMs).value.1.Keys == PostKeys(payload)
  {
    PostRecordParts(payload, stageVars, context, nowMs);
    RequiredFieldsUnchanged(payload, context, nowMs);
    OptionalsKeepStrings(RequiredFields(payload, context, nowMs).value, payload);
    if TagWindow(payload).Some? {
      TagEntriesStoreTags(TagWindow(payload).value);
    }
  }

  /** In a built record each optional string and each of the first three
      tags is stored unchanged. */
  lemma {:induction false} PostRecordKeepsOptionalsAndTags(payload: Dict, stageVars: Dict, context: Dict, nowMs: nat)
    requires PostRecord(payload, stageVars, context, nowMs).Ok?
    ensures var record := PostRecord(payload, stageVars, context, nowMs).value.1;
      && (forall k | k in TextOptionals(payload) :: k in record && record[k] == payload[k])
      && (TagWindow(payload).Some? ==>
            forall i | 0 <= i < |TagWindow(payload).value| ::
              TagKey(i) in record && record[TagKey(i)] == Scalar(TagWindow(payload).value[i]))
  {
    PostRecordParts(payload, stageVars, context, nowMs);
    var base := RequiredFields(payload, context, nowMs).value;
    OptionalsKeepStrings(base, payload);
    var optional := WithOptionals(base, payload, OptionalItems).value;
    var window := TagWindow(payload);
    var entries := if window.Some? then TagEntries(window.value).value else map[];
    if window.Some? {
      TagEntriesStoreTags(window.value);
      TagKeysAreShort(|window.value|);
    }
    forall k | k in TextOptionals(payload) ensures (optional + entries)[k] == payload[k] {
      assert |k| != 4;
    }
  }

  /** A required field keeps its value through the optional-items loop and
      the tag merge. */
  lemma KeptField(payload: Dict, stageVars: Dict, context: Dict, nowMs: nat, k: string)
    requires PostRecord(payload, stageVars, context, nowMs).Ok?
    requires k in {"UserId", "EventTime", "SourceIP", "UserAgent", "PostUrl"}
    ensures RequiredFields(payload, context, nowMs).Ok?
    ensures k in RequiredFields(payload, context, nowMs).value
    ensures var record := PostRecord(payload, stageVars, context, nowMs).value.1;
      k in record && record[k] == RequiredFields(payload, context, nowMs).value[k]
  {
    PostRecordParts(payload, stageVars, context, nowMs);
    RequiredFieldsUnchanged(payload, context, nowMs);
    var base := RequiredFields(payload, context, nowMs).value;
    OptionalsKeepStrings(base, payload);
    var window := TagWindow(payload);
    if window.Some? {
      TagEntriesStoreTags(window.value);
      TagKeysAreShort(|window.value|);
    }
  }

  /** A tag of 129 or more characters among the first three makes the call
      fail, however short the other fields are. */
  lemma LongTagAborts(payload: Dict, stageVars: Dict, context: Dict, nowMs: nat, i: nat)
    requires TagWindow(payload).Some? && i < |TagWindow(payload).value|
    requires TagWindow(payload).value[i].Str? && |TagWindow(payload).value[i].s| >= 129
    ensures PostRecord(payload, stageVars, context, nowMs).Err?
  {
    PostRecordBuiltIffAcceptable(payload, stageVars, context, nowMs);
  }

  /** Within a run of tags, the first one that fails decides the error. */
  lemma {:induction false} TagEntriesKeepFirstError(tags: seq<Scalar>, n: nat)
    requires n <= |tags| && TagEntries(tags[..n]).Err?
    ensures TagEntries(tags) == Err(TagEntries(tags[..n]).error)
    decreases |tags|
  {
    if n < |tags| {
      var front := tags[..|tags| - 1];
      assert front[..n] == tags[..n];
      TagEntriesKeepFirstError(front, n);
    } else {
      assert tags[..n] == tags;
    }
  }

  /** `post_message`, step by step: the record literal, the optional-items
      loop, the tag comprehension, then `put_item`. The record returned is
      the very item put, and nothing is put when building it fails. */
  method PostMessage(table: ItemTable, payload: Dict, stageVars: Dict, context: Dict, nowMs: nat)
    returns (r: Result<Dict>)
    modifies table
    ensures var built := PostRecord(payload, stageVars, context, nowMs);
      && table.puts == old(table.puts) + PutsOf(built)
      && r == PutOutcome(built, table.answer(|old(table.puts)|))
  {
    var tableName :- Lookup(stageVars, "DynamoDBTable");
    var record :- RequiredFields(payload, context, nowMs);
    ghost var base := record;
    for i := 0 to |OptionalItems|
      invariant WithOptionals(base, payload, OptionalItems[..i]) == Ok(record)
    {
      var (key, limit) := OptionalItems[i];
      assert OptionalItems[..i + 1][..i] == OptionalItems[..i];
      if HasText(payload, key) {
        var v :- MaxLength(payload[key], limit);
        record := record[key := v];
      }
    }
    assert OptionalItems[..|OptionalItems|] == OptionalItems;

    var window := TagWindow(payload);
    if window.Some? {
      var tags := window.value;
      var entries: Dict := map[];
      for i := 0 to |tags|
        invariant TagEntries(tags[..i]) == Ok(entries)
      {
        assert tags[..i + 1][..i] == tags[..i];
        var v := TagValue(tags[i]);
        if v.Err? {
          TagEntriesKeepFirstError(tags, i + 1);
          return Err(v.error);
        }
        entries := entries[TagKey(i) := v.value];
      }
      assert tags[..|tags|] == tags;
      record := record + entries;
    }

    var reply := table.PutItem(tableName, record);
    if reply.PutFailed? {
      return Err(ClientError(reply.text));
    }
    return Ok(record);
  }

  /** `handler`: read the event's parts, post, and answer 200 with the record,
      or re-raise any error with its message prefixed "Message:". */
  method PostHandler(table: ItemTable, event: ApiEvent, nowMs: nat) returns (r: Result<Response>)
    modifies table
    ensures EventParts(event).Err? ==>
      r == Respond(Err(EventParts(event).error)) && table.puts == old(table.puts)
    ensures EventParts(event).Ok? ==>
      var (payload, stageVars, context) := EventParts(event).value;
      var built := PostRecord(payload, stageVars, context, nowMs);
      && table.puts == old(table.puts) + PutsOf(built)
      && r == Respond(PutOutcome(built, table.answer(|old(table.puts)|)))
  {
    var parts := EventParts(event);
    if parts.Err? {
      return Respond(Err(parts.error));
    }
    var (payload, stageVars, context) := parts.value;
    var record := PostMessage(table, payload, stageVars, context, nowMs);
    r := Respond(record);
  }
}
