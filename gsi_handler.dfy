/** The Lambda entry point of the GSI custom resource: check the request
    type, run `update_gsi`, and report SUCCESS or FAILED to CloudFormation. */
module GsiHandler {
  import opened Py
  import opened GsiStore
  import opened TableState
  import opened Lifecycle

  /** The parts of a custom-resource event the handler reads; `None` is a
      missing key. */
  datatype Event = Event(
    requestType: Option<string>,
    resourceProperties: Option<Props>,
    logicalResourceId: Option<string>)

  datatype Status = SUCCESS | FAILED

  /** What is sent back: the status, the response data and the physical
      resource id (`None` leaves it to the response library's default). */
  datatype Report = Report(status: Status, data: map<string, string>, physicalResourceId: Option<string>)

  /** The report, with every DescribeTable and UpdateTable call made on the way. */
  datatype Handled = Handled(report: Report, calls: nat, submitted: seq<Submission>)

  const InvalidRequest := ValueError("RequestType not in: ['Create', 'Update', 'Delete']")

  /** The request types the handler accepts, and the intent each one passes on. */
  function IntentOf(requestType: string): (i: Option<Intent>)
    ensures i.Some? <==> requestType in ["Create", "Update", "Delete"]
    ensures i == Some(Delete) <==> requestType == "Delete"
  {
    if requestType == "Create" then Some(Create)
    else if requestType == "Update" then Some(Update)
    else if requestType == "Delete" then Some(Delete)
    else None
  }

  /** The event can reach `update_gsi`: its type is valid and it has properties. */
  predicate Dispatchable(ev: Event) {
    ev.requestType.Some? && IntentOf(ev.requestType.value).Some? && ev.resourceProperties.Some?
  }

  /** The run of `update_gsi` a dispatchable event asks for. */
  function UpdateFor(st: Store, ev: Event, calls: nat, subs: seq<Submission>): Run
    requires Dispatchable(ev)
  {
    UpdateGsiSpec(st, IntentOf(ev.requestType.value).value, ev.resourceProperties.value, calls, subs)
  }

  /** `handler(event, context)` against the store. The arguments of the
      success report are evaluated left to right, so the request type and
      the properties are read before `update_gsi` runs and the logical
      resource id only after it. */
  function HandlerSpec(st: Store, ev: Event, calls: nat, subs: seq<Submission>): (h: Handled)
    ensures h.report.status == SUCCESS <==>
      Dispatchable(ev) && UpdateFor(st, ev, calls, subs).result.Ok? && ev.logicalResourceId.Some?
    ensures h.report.status == SUCCESS ==>
      h.report == Report(SUCCESS, map[], ev.logicalResourceId) &&
      h.calls == UpdateFor(st, ev, calls, subs).calls && h.submitted == UpdateFor(st, ev, calls, subs).submitted
    ensures h.report.status == FAILED ==>
      h.report.data.Keys == {"Message"} && h.report.physicalResourceId == None
    ensures !Dispatchable(ev) ==> h.report.status == FAILED && h.calls == calls && h.submitted == subs
    ensures ev.requestType.None? ==>
      h == Handled(Report(FAILED, map["Message" := Message(KeyError("RequestType"))], None), calls, subs)
    ensures ev.requestType.Some? && IntentOf(ev.requestType.value).None? ==>
      h == Handled(Report(FAILED, map["Message" := Message(InvalidRequest)], None), calls, subs)
    ensures ev.requestType.Some? && IntentOf(ev.requestType.value).Some? && ev.resourceProperties.None? ==>
      h == Handled(Report(FAILED, map["Message" := Message(KeyError("ResourceProperties"))], None), calls, subs)
    ensures Dispatchable(ev) && UpdateFor(st, ev, calls, subs).result.Err? ==>
      h == Handled(Report(FAILED, map["Message" := Message(UpdateFor(st, ev, calls, subs).result.error)], None),
                   UpdateFor(st, ev, calls, subs).calls, UpdateFor(st, ev, calls, subs).submitted)
    ensures Dispatchable(ev) && UpdateFor(st, ev, calls, subs).result.Ok? && ev.logicalResourceId.None? ==>
      h == Handled(Report(FAILED, map["Message" := Message(KeyError("LogicalResourceId"))], None),
                   UpdateFor(st, ev, calls, subs).calls, UpdateFor(st, ev, calls, subs).submitted)
  {
    var attempt :=
      if ev.requestType.None? then Run(Err(KeyError("RequestType")), calls, subs)
      else if IntentOf(ev.requestType.value).None? then Run(Err(InvalidRequest), calls, subs)
      else if ev.resourceProperties.None? then Run(Err(KeyError("ResourceProperties")), calls, subs)
      else
        var r := UpdateFor(st, ev, calls, subs);
        if r.result.Ok? && ev.logicalResourceId.None? then Run(Err(KeyError("LogicalResourceId")), r.calls, r.submitted)
        else r;
    var report :=
      if attempt.result.Ok? then Report(SUCCESS, map[], ev.logicalResourceId)
      else Report(FAILED, map["Message" := Message(attempt.result.error)], None);
    Handled(report, attempt.calls, attempt.submitted)
  }

  /** `handler`, step by step: the `try` block, then one report either way. */
  method Handler(client: Client, ev: Event) returns (report: Report)
    modifies client
    ensures Handled(report, client.describeCalls, client.submitted) ==
      HandlerSpec(client.store, ev, old(client.describeCalls), old(client.submitted))
  {
    var attempt: Result<()>;
    if ev.requestType.None? {
      attempt := Err(KeyError("RequestType"));
    } else if IntentOf(ev.requestType.value).None? {
      attempt := Err(InvalidRequest);
    } else if ev.resourceProperties.None? {
      attempt := Err(KeyError("ResourceProperties"));
    } else {
      attempt := UpdateGsi(client, IntentOf(ev.requestType.value).value, ev.resourceProperties.value);
      if attempt.Ok? && ev.logicalResourceId.None? {
        attempt := Err(KeyError("LogicalResourceId"));
      }
    }
    if attempt.Ok? {
      report := Report(SUCCESS, map[], ev.logicalResourceId);
    } else {
      report := Report(FAILED, map["Message" := Message(attempt.error)], None);
    }
  }

  /** A non-200 DescribeTable envelope before the table settles is reported
      as FAILED carrying the envelope's text, and nothing is submitted. */
  lemma {:induction false} RejectedEnvelopeIsReported(st: Store, ev: Event, calls: nat, subs: seq<Submission>, k: nat)
    requires Dispatchable(ev) && HasRequiredKeys(ev.resourceProperties.value)
    requires k < Rounds && RejectedAt(st.describe, calls, k)
    ensures HandlerSpec(st, ev, calls, subs) ==
      Handled(Report(FAILED, map["Message" := st.describe(calls + k).raw], None), calls + k + 1, subs)
  {
    PollRaisesOnRejected(st.describe, calls, Rounds, k);
  }

  /** A table that never settles is reported as FAILED with the message of
      the TypeError the timeout branch raises, and nothing is submitted. */
  lemma {:induction false} TimeoutIsReported(st: Store, ev: Event, calls: nat, subs: seq<Submission>)
    requires Dispatchable(ev) && HasRequiredKeys(ev.resourceProperties.value)
    requires Waiting(st.describe, calls, Rounds)
    ensures HandlerSpec(st, ev, calls, subs) ==
      Handled(Report(FAILED, map["Message" := Message(TimeoutError)], None), calls + Rounds, subs)
  {
    TimeoutSubmitsNothing(st, IntentOf(ev.requestType.value).value, ev.resourceProperties.value, calls, subs);
  }
}
