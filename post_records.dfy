/** What the two post-manager Lambdas share: the API Gateway event they
    receive, dictionary lookups, the `Tag<i>` keys, the DynamoDB table they
    put one item into, and the response they return. */
module PostRecords {
  import opened Py

  /** The mapping template's event; `None` is a missing key. */
  datatype ApiEvent = ApiEvent(body: Option<Dict>, stageVariables: Option<Dict>, context: Option<Dict>)

  /** A successful Lambda response; the body is the record `json.dumps` renders. */
  datatype Response = Response(statusCode: int, body: Dict)

  /** The answer to a `put_item` call: stored, or an SDK error with its text. */
  datatype PutReply = Stored | PutFailed(text: string)

  /** `d[key]`: the value, or KeyError. */
  function Lookup(d: Dict, key: string): Result<Value> {
    if key in d then Ok(d[key]) else Err(KeyError(key))
  }

  /** `value_get` (and `value`): the value under `key`, or the empty string. */
  function ValueGet(d: Dict, key: string): (v: Value)
    ensures key in d ==> v == d[key]
    ensures key !in d ==> v == S("")
  {
    if key in d then d[key] else S("")
  }

  /** The key the i-th tag is stored under: `f"Tag{str(index)}"`. */
  function TagKey(i: nat): string {
    "Tag" + NatToString(i)
  }

  /** The keys of the first `n` tags. */
  function TagKeys(n: nat): set<string> {
    set i | 0 <= i < n :: TagKey(i)
  }

  /** The three tag keys a record can hold are four characters long, start
      with "Tag", and differ from one another. */
  lemma {:induction false} TagKeyFacts(i: nat, j: nat)
    requires i < 3 && j < 3
    ensures |TagKey(i)| == 4 && TagKey(i)[..3] == "Tag"
    ensures TagKey(i) == TagKey(j) <==> i == j
  {
    assert TagKey(i) == "Tag" + [DigitChar(i)];
    assert TagKey(j) == "Tag" + [DigitChar(j)];
    assert TagKey(i)[3] == DigitChar(i) && TagKey(j)[3] == DigitChar(j);
  }

  /** One more tag adds its key. */
  lemma TagKeysGrow(n: nat)
    ensures TagKeys(n + 1) == TagKeys(n) + {TagKey(n)}
  {
  }

  /** The keys of at most three tags are all four characters long. */
  lemma TagKeysAreShort(n: nat)
    requires n <= 3
    ensures forall k | k in TagKeys(n) :: |k| == 4
  {
    forall i | 0 <= i < n ensures |TagKey(i)| == 4 {
      TagKeyFacts(i, i);
    }
  }

  /** `payload['Tags'][0:3]` when `payload.get('Tags')` is a list; `None` when
      it is absent or not a list. */
  function TagWindow(payload: Dict): (w: Option<seq<Scalar>>)
    ensures w.Some? <==> "Tags" in payload && payload["Tags"].List?
    ensures w.Some? ==>
      |w.value| == Min(|payload["Tags"].items|, 3) && w.value == payload["Tags"].items[..|w.value|]
  {
    if "Tags" in payload && payload["Tags"].List? then
      var items := payload["Tags"].items;
      Some(items[..Min(|items|, 3)])
    else None
  }

  /** The handlers read `event['body-json']`, `event['stage-variables']` and
      `event['context']` in that order before building anything. */
  function EventParts(event: ApiEvent): (r: Result<(Dict, Dict, Dict)>)
    ensures r.Ok? <==> event.body.Some? && event.stageVariables.Some? && event.context.Some?
    ensures r.Ok? ==> r.value == (event.body.value, event.stageVariables.value, event.context.value)
    ensures event.body.None? ==> r == Err(KeyError("body-json"))
    ensures event.body.Some? && event.stageVariables.None? ==> r == Err(KeyError("stage-variables"))
    ensures event.body.Some? && event.stageVariables.Some? && event.context.None? ==> r == Err(KeyError("context"))
  {
    if event.body.None? then Err(KeyError("body-json"))
    else if event.stageVariables.None? then Err(KeyError("stage-variables"))
    else if event.context.None? then Err(KeyError("context"))
    else Ok((event.body.value, event.stageVariables.value, event.context.value))
  }

  /** What a record builder returns once its (table name, record) is built or
      has failed: the record when `put_item` stores it, the SDK error when
      it does not, and the build error when nothing was put. */
  function PutOutcome(built: Result<(Value, Dict)>, reply: PutReply): (r: Result<Dict>)
    ensures r.Ok? <==> built.Ok? && reply == Stored
    ensures r.Ok? ==> r.value == built.value.1
    ensures built.Err? ==> r == Err(built.error)
  {
    match built
    case Err(e) => Err(e)
    case Ok((_, record)) =>
      if reply.PutFailed? then Err(ClientError(reply.text)) else Ok(record)
  }

  /** The items put for a build: the one item when it was built, else none. */
  function PutsOf(built: Result<(Value, Dict)>): seq<(Value, Dict)> {
    if built.Ok? then [built.value] else []
  }

  /** The handlers' wrapping: statusCode 200 with the record, or the error
      re-raised as an Exception whose message is prefixed "Message:". */
  function Respond(r: Result<Dict>): (resp: Result<Response>)
    ensures resp.Ok? <==> r.Ok?
    ensures r.Ok? ==> resp.value == Response(200, r.value)
    ensures r.Err? ==> resp.error == Exception("Message:" + Message(r.error))
  {
    match r
    case Ok(record) => Ok(Response(200, record))
    case Err(e) => Err(Exception("Message:" + Message(e)))
  }

  /** The DynamoDB table resource: its k-th `put_item` answer is given in
      advance, and every item it is asked to put is logged with the name of
      the table it was put into. */
  class ItemTable {
    const answer: nat -> PutReply
    var puts: seq<(Value, Dict)>

    constructor (answer: nat -> PutReply)
      ensures this.answer == answer && puts == []
    {
      this.answer := answer;
      puts := [];
    }

    method PutItem(tableName: Value, item: Dict) returns (reply: PutReply)
      modifies this`puts
      ensures puts == old(puts) + [(tableName, item)]
      ensures reply == answer(|old(puts)|)
    {
      reply := answer(|puts|);
      puts := puts + [(tableName, item)];
    }
  }
}
