/** `create_user`: build one user record from the request, with a UserId
    suffixed by the clock's last digit, put it into the table, return it. */
module PostsCreate {
  import opened Py
  import opened PostRecords

  /** `str(time_in_ms)[-1]`: the last character of the clock reading's
      decimal rendering, which is its ones digit. */
  function LastDigit(nowMs: nat): (s: string)
    ensures s == [DigitChar(nowMs % 10)]
  {
    var digits := NatToString(nowMs);
    digits[|digits| - 1..]
  }

  /** The tag comprehension: `Tag<i>` holds `str(value)` of the i-th tag,
      with no length limit. */
  function TagStrings(tags: seq<Scalar>): Dict
    decreases |tags|
  {
    if |tags| == 0 then map[]
    else TagStrings(tags[..|tags| - 1])[TagKey(|tags| - 1) := S(ScalarStr(tags[|tags| - 1]))]
  }

  /** The UserId a user record gets: the payload's UserId rendered as text,
      a dash, and the last digit of the clock reading. */
  function SuffixedUserId(userId: Value, nowMs: nat): Value {
    S(ValueStr(userId) + "-" + LastDigit(nowMs))
  }

  /** The (table name, record) `create_user` puts, or the KeyError of the
      first missing key; `nowMs` is the clock reading in milliseconds. */
  function CreateUser(payload: Dict, stageVars: Dict, context: Dict, nowMs: nat): Result<(Value, Dict)> {
    var tableName :- Lookup(stageVars, "DynamoDBTable");
    var _ :- Lookup(payload, "UserId");
    var _ :- Lookup(payload, "Message");
    var record := UserFields(payload, context, nowMs);
    var window := TagWindow(payload);
    Ok((tableName, if window.Some? then record + TagStrings(window.value) else record))
  }

  /** Up to three tags become exactly the keys `Tag0`.. */
  lemma {:induction false} TagStringsKeys(tags: seq<Scalar>)
    requires |tags| <= 3
    ensures TagStrings(tags).Keys == TagKeys(|tags|)
    decreases |tags|
  {
    if |tags| > 0 {
      TagStringsKeys(tags[..|tags| - 1]);
      TagKeysGrow(|tags| - 1);
    }
  }

  /** Each of those keys holds its tag's `str()`. */
  lemma {:induction false} TagStringsStoreTags(tags: seq<Scalar>)
    requires |tags| <= 3
    ensures forall i | 0 <= i < |tags| ::
      TagKey(i) in TagStrings(tags) && TagStrings(tags)[TagKey(i)] == S(ScalarStr(tags[i]))
    decreases |tags|
  {
    if |tags| > 0 {
      var n := |tags| - 1;
      var front := tags[..n];
      TagStringsStoreTags(front);
      var m := TagStrings(tags);
      assert m == TagStrings(front)[TagKey(n) := S(ScalarStr(tags[n]))];
      forall i | 0 <= i < |tags| ensures TagKey(i) in m && m[TagKey(i)] == S(ScalarStr(tags[i])) {
        if i < n {
          assert tags[i] == front[i];
          TagKeyFacts(i, n);
          assert m[TagKey(i)] == TagStrings(front)[TagKey(i)];
        }
      }
    }
  }

  /** A user record is built exactly when the stage variables name a table
      and the payload has a UserId and a Message; otherwise the KeyError
      names the first of them that is missing. */
  lemma CreateUserNeedsKeys(payload: Dict, stageVars: Dict, context: Dict, nowMs: nat)
    ensures var r := CreateUser(payload, stageVars, context, nowMs);
      && (r.Ok? <==> "DynamoDBTable" in stageVars && "UserId" in payload && "Message" in payload)
      && ("DynamoDBTable" !in stageVars ==> r == Err(KeyError("DynamoDBTable")))
      && ("DynamoDBTable" in stageVars && "UserId" !in payload ==> r == Err(KeyError("UserId")))
      && ("DynamoDBTable" in stageVars && "UserId" in payload && "Message" !in payload ==>
            r == Err(KeyError("Message")))
  {
  }

  /** The keys a built user record has: the five fixed ones and one per tag
      in the window. */
  function UserKeys(payload: Dict): set<string> {
    {"UserId", "EventTime", "SourceIP", "UserAgent", "Message"}
      + (if TagWindow(payload).Some? then TagKeys(|TagWindow(payload).value|) else {})
  }

  /** The fixed fields of a built user record. */
  function UserFields(payload: Dict, context: Dict, nowMs: nat): Dict
    requires "UserId" in payload && "Message" in payload
  {
    map[
      "UserId" := SuffixedUserId(payload["UserId"], nowMs),
      "EventTime" := Scalar(Int(nowMs)),
      "SourceIP" := ValueGet(context, "source-ip"),
      "UserAgent" := ValueGet(context, "user-agent"),
      "Message" := payload["Message"]]
  }

  /** A built user record is its fixed fields plus, when Tags is a list,
      the tag strings. */
  lemma {:induction false} CreateUserParts(payload: Dict, stageVars: Dict, context: Dict, nowMs: nat)
    requires CreateUser(payload, stageVars, context, nowMs).Ok?
    ensures "UserId" in payload && "Message" in payload
    ensures CreateUser(payload, stageVars, context, nowMs).value ==
      (stageVars["DynamoDBTable"],
       UserFields(payload, context, nowMs) +
       if TagWindow(payload).Some? then TagStrings(TagWindow(payload).value) else map[])
  {
    if TagWindow(payload).None? {
      assert UserFields(payload, context, nowMs) + map[] == UserFields(payload, context, nowMs);
    }
  }

  /** A built user record has the five fixed keys and one per tag, no other. */
  lemma {:induction false} CreateUserKeys(payload: Dict, stageVars: Dict, context: Dict, nowMs: nat)
    requires CreateUser(payload, stageVars, context, nowMs).Ok?
    ensures CreateUser(payload, stageVars, context, nowMs).value.1.Keys == UserKeys(payload)
  {
    CreateUserParts(payload, stageVars, context, nowMs);
    if TagWindow(payload).Some? {
      TagStringsKeys(TagWindow(payload).value);
    }
  }

  /** The tag strings never overwrite a fixed field. */
  lemma {:induction false} CreateUserKeepsFields(payload: Dict, stageVars: Dict, context: Dict, nowMs: nat)
    requires CreateUser(payload, stageVars, context, nowMs).Ok?
    ensures "UserId" in payload && "Message" in payload
    ensures var record := CreateUser(payload, stageVars, context, nowMs).value.1;
      forall k | k in UserFields(payload, context, nowMs) ::
        k in record && record[k] == UserFields(payload, context, nowMs)[k]
  {
    CreateUserParts(payload, stageVars, context, nowMs);
    var window := TagWindow(payload);
    if window.Some? {
      TagStringsKeys(window.value);
      TagKeysAreShort(|window.value|);
      UserFieldKeysAreLong(payload, context, nowMs);
      UnionKeepsLongKeys(UserFields(payload, context, nowMs), TagStrings(window.value));
    }
  }

  lemma UserFieldKeysAreLong(payload: Dict, context: Dict, nowMs: nat)
    requires "UserId" in payload && "Message" in payload
    ensures forall k | k in UserFields(payload, context, nowMs) :: |k| > 4
  {
  }

  /** Adding entries under four-character keys keeps every longer key's value. */
  lemma UnionKeepsLongKeys(base: Dict, short: Dict)
    requires forall k | k in base :: |k| > 4
    requires forall k | k in short :: |k| == 4
    ensures forall k | k in base :: k in base + short && (base + short)[k] == base[k]
  {
  }

  /** The first three tags are stored as their `str()`. */
  lemma {:induction false} CreateUserStoresTags(payload: Dict, stageVars: Dict, context: Dict, nowMs: nat)
    requires CreateUser(payload, stageVars, context, nowMs).Ok?
    ensures var record := CreateUser(payload, stageVars, context, nowMs).value.1;
      TagWindow(payload).Some? ==>
        forall i | 0 <= i < |TagWindow(payload).value| ::
          TagKey(i) in record && record[TagKey(i)] == S(ScalarStr(TagWindow(payload).value[i]))
  {
    CreateUserParts(payload, stageVars, context, nowMs);
    var window := TagWindow(payload);
    if window.Some? {
      TagStringsStoreTags(window.value);
    }
  }

  /** The UserId of a built user record is the payload's UserId rendered as
      text, then "-", then one character: the one that ends the decimal
      rendering of the EventTime. */
  lemma UserIdEndsWithEventTimeDigit(userId: Value, nowMs: nat)
    ensures IsStr(SuffixedUserId(userId, nowMs))
    ensures var id := SuffixedUserId(userId, nowMs).x.s;
      && |id| == |ValueStr(userId)| + 2
      && id[..|id| - 2] == ValueStr(userId)
      && id[|id| - 2] == '-'
      && id[|id| - 1] == NatToString(nowMs)[|NatToString(nowMs)| - 1]
  {
    var id := SuffixedUserId(userId, nowMs).x.s;
    assert id == ValueStr(userId) + "-" + [DigitChar(nowMs % 10)];
    assert id[..|id| - 2] == ValueStr(userId);
  }

  /** A built user record: the UserId suffixed as above, EventTime the clock
      reading, SourceIP and UserAgent from the context or "", Message the
      payload's unchanged, the first three tags as strings, no other key. */
  lemma {:induction false} CreateUserRecord(payload: Dict, stageVars: Dict, context: Dict, nowMs: nat)
    requires CreateUser(payload, stageVars, context, nowMs).Ok?
    ensures "UserId" in payload && "Message" in payload
    ensures var (tableName, record) := CreateUser(payload, stageVars, context, nowMs).value;
      && tableName == stageVars["DynamoDBTable"]
      && record.Keys == UserKeys(payload)
      && record["UserId"] == SuffixedUserId(payload["UserId"], nowMs)
      && record["EventTime"] == Scalar(Int(nowMs))
      && record["SourceIP"] == ValueGet(context, "source-ip")
      && record["UserAgent"] == ValueGet(context, "user-agent")
      && record["Message"] == payload["Message"]
      && (TagWindow(payload).Some? ==>
            forall i | 0 <= i < |TagWindow(payload).value| ::
              record[TagKey(i)] == S(ScalarStr(TagWindow(payload).value[i])))
  {
    CreateUserParts(payload, stageVars, context, nowMs);
    CreateUserKeys(payload, stageVars, context, nowMs);
    CreateUserKeepsFields(payload, stageVars, context, nowMs);
    CreateUserStoresTags(payload, stageVars, context, nowMs);
    var base := UserFields(payload, context, nowMs);
    assert "UserId" in base && "EventTime" in base && "SourceIP" in base;
    assert "UserAgent" in base && "Message" in base;
  }

  /** `handler`: read the event's parts, create the user, and answer 200 with
      the record that was put, or re-raise any error with its message
      prefixed "Message:"; `reply` is the answer `put_item` gets. */
  function CreateUserHandler(event: ApiEvent, nowMs: nat, reply: PutReply): (r: Result<Response>)
    ensures r.Ok? <==>
      EventParts(event).Ok? && reply == Stored &&
      CreateUser(EventParts(event).value.0, EventParts(event).value.1, EventParts(event).value.2, nowMs).Ok?
    ensures r.Ok? ==>
      r.value.statusCode == 200 &&
      r.value.body == CreateUser(EventParts(event).value.0, EventParts(event).value.1, EventParts(event).value.2, nowMs).value.1
    ensures EventParts(event).Err? ==> r == Err(Exception("Message:" + Message(EventParts(event).error)))
    ensures (EventParts(event).Ok? &&
             CreateUser(EventParts(event).value.0, EventParts(event).value.1, EventParts(event).value.2, nowMs).Err?) ==>
      r == Err(Exception("Message:" + Message(
        CreateUser(EventParts(event).value.0, EventParts(event).value.1, EventParts(event).value.2, nowMs).error)))
    ensures (EventParts(event).Ok? &&
             CreateUser(EventParts(event).value.0, EventParts(event).value.1, EventParts(event).value.2, nowMs).Ok? &&
             reply.PutFailed?) ==>
      r == Err(Exception("Message:" + reply.text))
  {
    match EventParts(event)
    case Err(e) => Respond(Err(e))
    case Ok((payload, stageVars, context)) =>
      Respond(PutOutcome(CreateUser(payload, stageVars, context, nowMs), reply))
  }
}
