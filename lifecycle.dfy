/** `update_gsi`: bring one global secondary index into line with a
    Create, Update or Delete request, against the store's answers. */
module Lifecycle {
  import opened Py
  import opened GsiStore
  import opened TableState
  import opened AttributeMerge

  datatype Intent = Create | Update | Delete

  /** The custom resource's properties; `None` is a missing key. */
  datatype Props = Props(
    tableName: Option<string>,
    indexName: Option<string>,
    keySchema: Option<seq<KeyElement>>,
    projection: Option<Projection>,
    attributeDefinitions: Option<seq<AttrDef>>,
    deleteOnUpdate: Option<Value>)

  /** One run: what `update_gsi` returned or raised, how many DescribeTable
      calls had been made, and every UpdateTable call made so far. */
  datatype Run = Run(result: Result<()>, calls: nat, submitted: seq<Submission>)

  /** The timeout branch calls `_raise` with one argument, so what it raises
      is Python's complaint about the missing one. */
  const TimeoutError := TypeError("_raise() missing 1 required positional argument: 'error'")

  const CantUpdate := ValueError("Cant Update")

  /** The four keys read up front are all present. */
  predicate HasRequiredKeys(p: Props) {
    p.tableName.Some? && p.indexName.Some? && p.keySchema.Some? && p.projection.Some?
  }

  /** `payload.get("AttributeDefinitions")` is truthy: present and non-empty. */
  predicate DefinesAttributes(p: Props) {
    p.attributeDefinitions.Some? && |p.attributeDefinitions.value| > 0
  }

  /** `payload.get('delete_on_update') is True`: only the boolean True opts in. */
  predicate DeleteOnUpdate(p: Props) {
    p.deleteOnUpdate == Some(Scalar(Bool(true)))
  }

  /** The attribute list sent with the update, merged from the table as read. */
  function Attributes(table: Table, p: Props, deleting: bool): Result<seq<AttrDef>> {
    if DefinesAttributes(p) then
      MergeSpec(AttrDict(table.attributeDefinitions), AttrDict(p.attributeDefinitions.value), deleting)
    else Ok([])
  }

  /** A submission made on behalf of these properties: one index update for
      the named index of the named table, the Create entry carrying the key
      schema and projection, the Delete entry carrying only the name. */
  predicate Shaped(s: Submission, intent: Intent, p: Props) {
    && Some(s.tableName) == p.tableName
    && |s.updates| == 1
    && Some(s.updates[0].indexName) == p.indexName
    && (s.updates[0].CreateIndex? ==>
          Some(s.updates[0].keySchema) == p.keySchema && Some(s.updates[0].projection) == p.projection)
    && (intent == Delete ==> s.updates[0].DeleteIndex?)
    && (!DefinesAttributes(p) ==> s.attributes == [])
  }

  /** The `try` block: submit, validate the envelope, wait again. Any error in
      it is re-raised as a ValueError carrying its text; a second timeout is
      not checked. */
  function Submit(st: Store, s: Submission, calls: nat, subs: seq<Submission>): (r: Run)
    ensures r.submitted == subs + [s]
    ensures calls <= r.calls
    ensures r.result.Ok? <==>
      st.update(|subs|).Envelope? && st.update(|subs|).httpStatus == 200 &&
      Poll(st.describe, calls, Rounds).result.Ok?
    ensures r.result.Err? ==> r.result.error.ValueError?
    ensures st.update(|subs|).Raised? ==> r == Run(Err(ValueError(st.update(|subs|).text)), calls, subs + [s])
    ensures st.update(|subs|).Envelope? && st.update(|subs|).httpStatus != 200 ==>
      r == Run(Err(ValueError(st.update(|subs|).raw)), calls, subs + [s])
    ensures st.update(|subs|).Envelope? && st.update(|subs|).httpStatus == 200 ==>
      r.calls == Poll(st.describe, calls, Rounds).calls &&
      (r.result.Err? ==> r.result.error == ValueError(Message(Poll(st.describe, calls, Rounds).result.error)))
  {
    var sent := subs + [s];
    match st.update(|subs|)
    case Raised(text) => Run(Err(ValueError(text)), calls, sent)
    case Envelope(status, raw) =>
      match Validate(status, raw)
      case Err(e) => Run(Err(ValueError(Message(e))), calls, sent)
      case Ok(_) =>
        var w := Poll(st.describe, calls, Rounds);
        PollReadsAtMostRounds(st.describe, calls, Rounds);
        if w.result.Err? then Run(Err(ValueError(Message(w.result.error))), w.calls, sent)
        else Run(Ok(()), w.calls, sent)
  }

  /** `update_gsi(action, payload)` starting from DescribeTable call `calls`
      with the UpdateTable calls `subs` already made. It only ever appends
      submissions: at most one for Delete, at most two (the recursive Delete,
      then the Create) otherwise, each shaped for these properties. */
  function UpdateGsiSpec(st: Store, intent: Intent, p: Props, calls: nat, subs: seq<Submission>): (r: Run)
    ensures calls <= r.calls
    ensures |subs| <= |r.submitted| <= |subs| + (if intent == Delete then 1 else 2)
    ensures r.submitted[..|subs|] == subs
    ensures forall i | |subs| <= i < |r.submitted| :: Shaped(r.submitted[i], intent, p)
    decreases if intent == Delete then 0 else 1, 1
  {
    if p.tableName.None? then Run(Err(KeyError("TableName")), calls, subs)
    else if p.indexName.None? then Run(Err(KeyError("IndexName")), calls, subs)
    else if p.keySchema.None? then Run(Err(KeyError("KeySchema")), calls, subs)
    else if p.projection.None? then Run(Err(KeyError("Projection")), calls, subs)
    else
      var w := Poll(st.describe, calls, Rounds);
      PollReadsAtMostRounds(st.describe, calls, Rounds);
      match w.result
      case Err(e) => Run(Err(e), w.calls, subs)
      case Ok(None) => Run(Err(TimeoutError), w.calls, subs)
      case Ok(Some(table)) => Decide(st, intent, p, table, w.calls, subs)
  }

  /** `update_gsi`'s decision on the settled `table`: return, refuse, or go ahead, first
      running the recursive Delete when the index is to be recreated. */
  function Decide(st: Store, intent: Intent, p: Props, table: Table, calls: nat, subs: seq<Submission>): (r: Run)
    requires HasRequiredKeys(p)
    ensures calls <= r.calls
    ensures |subs| <= |r.submitted| <= |subs| + (if intent == Delete then 1 else 2)
    ensures r.submitted[..|subs|] == subs
    ensures forall i | |subs| <= i < |r.submitted| :: Shaped(r.submitted[i], intent, p)
    decreases if intent == Delete then 0 else 1, 0
  {
    var present := p.indexName.value in IndexNames(table);
    if intent == Delete && !present then Run(Ok(()), calls, subs)
    else if intent != Delete && present && !DeleteOnUpdate(p) then Run(Err(CantUpdate), calls, subs)
    else
      var before :=
        if intent != Delete && present then UpdateGsiSpec(st, Delete, p, calls, subs)
        else Run(Ok(()), calls, subs);
      var r := Finish(st, intent, p, table, before);
      assert r.submitted[..|subs|] == subs by {
        assert r.submitted[..|subs|] == r.submitted[..|before.submitted|][..|subs|];
      }
      r
  }

  /** Once the first wait returns a settled table (`PollReturnsFirstSettled`
      says when it does), the run is the decision on that table. */
  lemma DecideAfterPoll(st: Store, intent: Intent, p: Props, calls: nat, subs: seq<Submission>, table: Table, c: nat)
    requires HasRequiredKeys(p) && Poll(st.describe, calls, Rounds) == Polled(Ok(Some(table)), c)
    ensures UpdateGsiSpec(st, intent, p, calls, subs) == Decide(st, intent, p, table, c, subs)
  {
  }

  /** The entry `Update` of `update_gsi` ends up as. */
  function IndexUpdateFor(intent: Intent, p: Props): IndexUpdate
    requires HasRequiredKeys(p)
  {
    if intent == Delete then DeleteIndex(p.indexName.value)
    else CreateIndex(p.indexName.value, p.keySchema.value, p.projection.value)
  }

  /** What follows the decision to go ahead: unless the recursive Delete
      failed, merge the attributes from `table` and submit. */
  function Finish(st: Store, intent: Intent, p: Props, table: Table, before: Run): (r: Run)
    requires HasRequiredKeys(p)
    ensures before.calls <= r.calls
    ensures |before.submitted| <= |r.submitted| <= |before.submitted| + 1
    ensures r.submitted[..|before.submitted|] == before.submitted
    ensures |r.submitted| > |before.submitted| ==> Shaped(r.submitted[|before.submitted|], intent, p)
  {
    if before.result.Err? then before
    else
      match Attributes(table, p, intent == Delete)
      case Err(e) => Run(Err(e), before.calls, before.submitted)
      case Ok(attributes) =>
        Submit(st, Submission(p.tableName.value, attributes, [IndexUpdateFor(intent, p)]), before.calls, before.submitted)
  }

  /** What `Finish` does with each outcome of the step before it. */
  lemma FinishAfter(st: Store, intent: Intent, p: Props, table: Table, before: Run)
    requires HasRequiredKeys(p)
    ensures var r := Finish(st, intent, p, table, before);
      var merged := Attributes(table, p, intent == Delete);
      if before.result.Err? then r == before
      else if merged.Err? then r == Run(Err(merged.error), before.calls, before.submitted)
      else r == Submit(st, Submission(p.tableName.value, merged.value, [IndexUpdateFor(intent, p)]), before.calls, before.submitted)
  {
  }

  /** `update_gsi`, step by step: read the four keys, wait for the table,
      decide, possibly delete first, merge the attributes and submit. */
  method UpdateGsi(client: Client, intent: Intent, p: Props) returns (r: Result<()>)
    modifies client
    ensures Run(r, client.describeCalls, client.submitted) ==
      UpdateGsiSpec(client.store, intent, p, old(client.describeCalls), old(client.submitted))
    decreases if intent == Delete then 0 else 1
  {
    if p.tableName.None? { return Err(KeyError("TableName")); }
    if p.indexName.None? { return Err(KeyError("IndexName")); }
    if p.keySchema.None? { return Err(KeyError("KeySchema")); }
    if p.projection.None? { return Err(KeyError("Projection")); }
    var tableName, indexName := p.tableName.value, p.indexName.value;
    var keySchema, projection := p.keySchema.value, p.projection.value;

    var waited := WaitForTable(client, Rounds);
    if waited.Err? {
      return Err(waited.error);
    }
    if waited.value.None? {
      return Err(TimeoutError);
    }
    var table := waited.value.value;

    var present := indexName in IndexNames(table);
    var action := intent;
    var extension: Option<(seq<KeyElement>, Projection)> := None;
    if action == Delete {
      if !present {
        return Ok(());
      }
    } else {
      if present {
        if DeleteOnUpdate(p) {
          var deleted := UpdateGsi(client, Delete, p);
          if deleted.Err? {
            return deleted;
          }
        } else {
          return Err(CantUpdate);
        }
      }
      extension := Some((keySchema, projection));
      action := Create;
    }
    var update :=
      if extension.Some? then CreateIndex(indexName, extension.value.0, extension.value.1)
      else DeleteIndex(indexName);

    var attributes: seq<AttrDef> := [];
    if DefinesAttributes(p) {
      var merged := MergeAttributes(
        AttrDict(table.attributeDefinitions), AttrDict(p.attributeDefinitions.value), action == Delete);
      if merged.Err? {
        return Err(merged.error);
      }
      attributes := merged.value;
    }
    r := SubmitUpdate(client, Submission(tableName, attributes, [update]));
  }

  /** `update_gsi`'s `try` block: the submission and the wait after it, with every error
      re-raised as a ValueError. */
  method SubmitUpdate(client: Client, s: Submission) returns (r: Result<()>)
    modifies client
    ensures Run(r, client.describeCalls, client.submitted) ==
      Submit(client.store, s, old(client.describeCalls), old(client.submitted))
  {
    var reply := client.UpdateTable(s);
    if reply.Raised? {
      return Err(ValueError(reply.text));
    }
    var valid := Validate(reply.httpStatus, reply.raw);
    if valid.Err? {
      return Err(ValueError(Message(valid.error)));
    }
    var waited := WaitForTable(client, Rounds);
    if waited.Err? {
      return Err(ValueError(Message(waited.error)));
    }
    return Ok(());
  }

  /** If the table never settles within the round budget, the run fails after
      exactly `Rounds` reads and submits nothing. */
  lemma TimeoutSubmitsNothing(st: Store, intent: Intent, p: Props, calls: nat, subs: seq<Submission>)
    requires HasRequiredKeys(p) && Waiting(st.describe, calls, Rounds)
    ensures UpdateGsiSpec(st, intent, p, calls, subs) == Run(Err(TimeoutError), calls + Rounds, subs)
  {
    PollTimesOut(st.describe, calls, Rounds);
  }

  /** An accepted submission succeeds even when the table then fails to
      settle within the budget: the second wait's timeout is not checked. */
  lemma {:induction false} SubmitIgnoresSecondTimeout(st: Store, s: Submission, calls: nat, subs: seq<Submission>)
    requires st.update(|subs|).Envelope? && st.update(|subs|).httpStatus == 200
    requires Waiting(st.describe, calls, Rounds)
    ensures Submit(st, s, calls, subs) == Run(Ok(()), calls + Rounds, subs + [s])
  {
    PollTimesOut(st.describe, calls, Rounds);
  }

  /** Deleting an index the settled table does not have succeeds and submits
      nothing, so a repeated Delete is harmless. */
  lemma DeleteOfAbsentIndexIsNoop(st: Store, p: Props, calls: nat, subs: seq<Submission>, table: Table, c: nat)
    requires HasRequiredKeys(p) && Poll(st.describe, calls, Rounds) == Polled(Ok(Some(table)), c)
    requires p.indexName.value !in IndexNames(table)
    ensures UpdateGsiSpec(st, Delete, p, calls, subs) == Run(Ok(()), c, subs)
  {
    DecideAfterPoll(st, Delete, p, calls, subs, table, c);
  }

  /** Deleting a present index submits exactly one `{"Delete": {IndexName}}`
      entry, carrying the attributes merged for a Delete. */
  lemma DeleteOfPresentIndexSubmitsDelete(st: Store, p: Props, calls: nat, subs: seq<Submission>, table: Table, c: nat)
    requires HasRequiredKeys(p) && Poll(st.describe, calls, Rounds) == Polled(Ok(Some(table)), c)
    requires p.indexName.value in IndexNames(table)
    ensures Attributes(table, p, true).Ok?
    ensures UpdateGsiSpec(st, Delete, p, calls, subs) ==
      Submit(st, Submission(p.tableName.value, Attributes(table, p, true).value, [DeleteIndex(p.indexName.value)]), c, subs)
    ensures UpdateGsiSpec(st, Delete, p, calls, subs).submitted ==
      subs + [Submission(p.tableName.value, Attributes(table, p, true).value, [DeleteIndex(p.indexName.value)])]
  {
    DecideAfterPoll(st, Delete, p, calls, subs, table, c);
    DeleteAttributesDropPayloadNames(table, p);
    FinishAfter(st, Delete, p, table, Run(Ok(()), c, subs));
  }

  /** The attributes sent with a Delete are the table's attributes minus every
      name the payload declares, and none when the payload declares none. */
  lemma DeleteAttributesDropPayloadNames(table: Table, p: Props)
    ensures Attributes(table, p, true).Ok?
    ensures !DefinesAttributes(p) ==> Attributes(table, p, true).value == []
    ensures DefinesAttributes(p) ==>
      forall a :: a in Attributes(table, p, true).value <==>
        a in AttrDict(table.attributeDefinitions) && a.name !in Names(p.attributeDefinitions.value)
  {
    if DefinesAttributes(p) {
      MergeOnDeleteDropsPayloadNames(AttrDict(table.attributeDefinitions), AttrDict(p.attributeDefinitions.value));
      AttrDictLastWins(p.attributeDefinitions.value);
    }
  }

  /** Create or Update of a present index without the opt-in fails with
      "Cant Update" and submits nothing. */
  lemma UpdateOfPresentIndexNeedsOptIn(st: Store, intent: Intent, p: Props, calls: nat, subs: seq<Submission>, table: Table, c: nat)
    requires intent != Delete && !DeleteOnUpdate(p)
    requires HasRequiredKeys(p) && Poll(st.describe, calls, Rounds) == Polled(Ok(Some(table)), c)
    requires p.indexName.value in IndexNames(table)
    ensures UpdateGsiSpec(st, intent, p, calls, subs) == Run(Err(CantUpdate), c, subs)
  {
    DecideAfterPoll(st, intent, p, calls, subs, table, c);
  }

  /** Create or Update of an absent index submits exactly one
      `{"Create": {IndexName, KeySchema, Projection}}` entry with the merged
      attributes, or fails on an attribute type change before submitting. */
  lemma CreateOfAbsentIndexSubmitsCreate(st: Store, intent: Intent, p: Props, calls: nat, subs: seq<Submission>, table: Table, c: nat)
    requires intent != Delete
    requires HasRequiredKeys(p) && Poll(st.describe, calls, Rounds) == Polled(Ok(Some(table)), c)
    requires p.indexName.value !in IndexNames(table)
    ensures var r := UpdateGsiSpec(st, intent, p, calls, subs);
      match Attributes(table, p, false)
      case Err(e) => r == Run(Err(e), c, subs)
      case Ok(attributes) =>
        r == Submit(st, Submission(p.tableName.value, attributes,
                                   [CreateIndex(p.indexName.value, p.keySchema.value, p.projection.value)]), c, subs)
  {
    DecideAfterPoll(st, intent, p, calls, subs, table, c);
    assert Decide(st, intent, p, table, c, subs) == Finish(st, intent, p, table, Run(Ok(()), c, subs));
    FinishAfter(st, intent, p, table, Run(Ok(()), c, subs));
  }

  /** With the opt-in, updating a present index runs the Delete first: the run
      is the recursive Delete run, extended, when that run and the attribute
      merge succeed, by one Create submission whose attributes are merged from
      the table as first read, before the delete. */
  lemma DestructiveUpdateRunsDeleteThenCreate(st: Store, intent: Intent, p: Props, calls: nat, subs: seq<Submission>, table: Table, c: nat)
    requires intent != Delete && DeleteOnUpdate(p)
    requires HasRequiredKeys(p) && Poll(st.describe, calls, Rounds) == Polled(Ok(Some(table)), c)
    requires p.indexName.value in IndexNames(table)
    ensures var before := UpdateGsiSpec(st, Delete, p, c, subs);
      var r := UpdateGsiSpec(st, intent, p, calls, subs);
      var stale := Attributes(table, p, false);
      if before.result.Err? then r == before
      else if stale.Err? then r == Run(Err(stale.error), before.calls, before.submitted)
      else r == Submit(st, Submission(p.tableName.value, stale.value,
                                      [CreateIndex(p.indexName.value, p.keySchema.value, p.projection.value)]),
                       before.calls, before.submitted)
  {
    DecideAfterPoll(st, intent, p, calls, subs, table, c);
    var before := UpdateGsiSpec(st, Delete, p, c, subs);
    assert Decide(st, intent, p, table, c, subs) == Finish(st, intent, p, table, before);
    FinishAfter(st, intent, p, table, before);
  }

  /** Hence every Delete submission of a destructive update comes before its
      Create submission, and a successful one ends with the Create. */
  lemma DestructiveUpdateDeletesFirst(st: Store, intent: Intent, p: Props, calls: nat, subs: seq<Submission>, table: Table, c: nat)
    requires intent != Delete && DeleteOnUpdate(p)
    requires HasRequiredKeys(p) && Poll(st.describe, calls, Rounds) == Polled(Ok(Some(table)), c)
    requires p.indexName.value in IndexNames(table)
    ensures var r := UpdateGsiSpec(st, intent, p, calls, subs);
      && (forall i, j | |subs| <= i < j < |r.submitted| ::
            r.submitted[i].updates[0].DeleteIndex? && r.submitted[j].updates[0].CreateIndex?)
      && (r.result.Ok? ==> |r.submitted| > |subs| && r.submitted[|r.submitted| - 1].updates[0].CreateIndex?)
  {
    DestructiveUpdateRunsDeleteThenCreate(st, intent, p, calls, subs, table, c);
    var before := UpdateGsiSpec(st, Delete, p, c, subs);
    var r := UpdateGsiSpec(st, intent, p, calls, subs);
    var stale := Attributes(table, p, false);
    assert forall i | |subs| <= i < |before.submitted| :: before.submitted[i].updates[0].DeleteIndex?;
    if before.result.Ok? && stale.Ok? {
      var n := |before.submitted|;
      assert r.submitted[..n] == before.submitted;
      assert |r.submitted| == n + 1;
      assert r.submitted[n].updates[0].CreateIndex?;
      forall i | |subs| <= i < n ensures r.submitted[i].updates[0].DeleteIndex? {
        assert r.submitted[i] == before.submitted[i];
      }
    } else if before.result.Ok? {
      assert r.result.Err?;
    }
  }
}
