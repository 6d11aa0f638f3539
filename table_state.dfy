/** Reading the table: envelope validation, the settled-state classifier
    (`describe_table`) and the bounded poll loop (`waiter_table`). */
module TableState {
  import opened Py
  import opened GsiStore

  /** The default round budget of the poll loop. */
  const Rounds: nat := 300

  /** `validate_response`: a non-200 envelope raises ValueError(str(envelope)). */
  function Validate(httpStatus: int, raw: string): Result<()> {
    if httpStatus == 200 then Ok(()) else Err(ValueError(raw))
  }

  /** `get_list`: the list stored under a field, or [] when it is missing or not a list. */
  function GetList<T>(f: ListField<T>): seq<T> {
    if f.Items? then f.items else []
  }

  function IndexNames(t: Table): set<string> {
    set g | g in GetList(t.indexes) :: g.indexName
  }

  /** Every status the classifier looks at: the table's and each index's. */
  function Statuses(t: Table): set<string> {
    {t.tableStatus} + set g | g in GetList(t.indexes) :: g.indexStatus
  }

  /** A table is settled when its status set is exactly {"ACTIVE"}. */
  function IsSettled(t: Table): (settled: bool)
    ensures settled <==>
      t.tableStatus == "ACTIVE" &&
      forall g | g in GetList(t.indexes) :: g.indexStatus == "ACTIVE"
  {
    if Statuses(t) == {"ACTIVE"} then
      assert t.tableStatus in Statuses(t);
      assert forall g | g in GetList(t.indexes) :: g.indexStatus in Statuses(t);
      true
    else
      false
  }

  /** `describe_table` on one response: (settled, table), or the envelope error. */
  function Classify(o: Observation): Result<(bool, Table)> {
    var _ :- Validate(o.httpStatus, o.raw);
    Ok((IsSettled(o.table), o.table))
  }

  /** The outcome of polling: the settled table, None after the budget runs
      out, or the envelope error; and how many DescribeTable calls were made. */
  datatype Polled = Polled(result: Result<Option<Table>>, calls: nat)

  /** `waiter_table` against the store, starting at DescribeTable call `calls`. */
  function Poll(describe: nat -> Observation, calls: nat, rounds: nat): Polled
    decreases rounds
  {
    if rounds == 0 then Polled(Ok(None), calls)
    else
      match Classify(describe(calls))
      case Err(e) => Polled(Err(e), calls + 1)
      case Ok((settled, table)) =>
        if settled then Polled(Ok(Some(table)), calls + 1)
        else Poll(describe, calls + 1, rounds - 1)
  }

  /** The `k` answers from call `from` on are all valid and unsettled. */
  ghost predicate Waiting(describe: nat -> Observation, from: nat, k: nat) {
    forall j | from <= j < from + k ::
      describe(j).httpStatus == 200 && !IsSettled(describe(j).table)
  }

  /** Answer `from + k` is the first settled one. */
  ghost predicate SettlesAt(describe: nat -> Observation, from: nat, k: nat) {
    Waiting(describe, from, k) &&
    describe(from + k).httpStatus == 200 && IsSettled(describe(from + k).table)
  }

  /** Answer `from + k` is the first one, and an invalid envelope. */
  ghost predicate RejectedAt(describe: nat -> Observation, from: nat, k: nat) {
    Waiting(describe, from, k) && describe(from + k).httpStatus != 200
  }

  /** The loop makes at most `rounds` DescribeTable calls, and at least one when it may. */
  lemma {:induction false} PollReadsAtMostRounds(describe: nat -> Observation, calls: nat, rounds: nat)
    ensures calls <= Poll(describe, calls, rounds).calls <= calls + rounds
    ensures rounds > 0 ==> Poll(describe, calls, rounds).calls > calls
    decreases rounds
  {
    if rounds > 0 {
      PollReadsAtMostRounds(describe, calls + 1, rounds - 1);
    }
  }

  /** When answer `calls + k` is the first settled one, the loop returns that table after k + 1 reads. */
  lemma {:induction false} PollReturnsFirstSettled(describe: nat -> Observation, calls: nat, rounds: nat, k: nat)
    requires k < rounds && SettlesAt(describe, calls, k)
    ensures Poll(describe, calls, rounds) == Polled(Ok(Some(describe(calls + k).table)), calls + k + 1)
    decreases k
  {
    if k > 0 {
      assert describe(calls).httpStatus == 200 && !IsSettled(describe(calls).table);
      PollReturnsFirstSettled(describe, calls + 1, rounds - 1, k - 1);
    }
  }

  /** When no answer within the budget settles, the loop returns None after `rounds` reads. */
  lemma {:induction false} PollTimesOut(describe: nat -> Observation, calls: nat, rounds: nat)
    requires Waiting(describe, calls, rounds)
    ensures Poll(describe, calls, rounds) == Polled(Ok(None), calls + rounds)
    decreases rounds
  {
    if rounds > 0 {
      assert describe(calls).httpStatus == 200 && !IsSettled(describe(calls).table);
      PollTimesOut(describe, calls + 1, rounds - 1);
    }
  }

  /** An invalid envelope before any settled answer aborts the loop with its text. */
  lemma {:induction false} PollRaisesOnRejected(describe: nat -> Observation, calls: nat, rounds: nat, k: nat)
    requires k < rounds && RejectedAt(describe, calls, k)
    ensures Poll(describe, calls, rounds) ==
      Polled(Err(ValueError(describe(calls + k).raw)), calls + k + 1)
    decreases k
  {
    if k > 0 {
      assert describe(calls).httpStatus == 200 && !IsSettled(describe(calls).table);
      PollRaisesOnRejected(describe, calls + 1, rounds - 1, k - 1);
    }
  }

  /** Conversely, every outcome of the loop is one of the three above. */
  lemma {:induction false} PollOutcomeExplained(describe: nat -> Observation, calls: nat, rounds: nat)
    ensures var p := Poll(describe, calls, rounds);
      && (p.result == Ok(None) ==> Waiting(describe, calls, rounds) && p.calls == calls + rounds)
      && (p.result.Ok? && p.result.value.Some? ==>
            calls < p.calls && SettlesAt(describe, calls, p.calls - calls - 1) &&
            p.result.value.value == describe(p.calls - 1).table)
      && (p.result.Err? ==>
            calls < p.calls && RejectedAt(describe, calls, p.calls - calls - 1) &&
            p.result.error == ValueError(describe(p.calls - 1).raw))
    decreases rounds
  {
    if rounds > 0 {
      PollOutcomeExplained(describe, calls + 1, rounds - 1);
      var p := Poll(describe, calls, rounds);
      var q := Poll(describe, calls + 1, rounds - 1);
      if describe(calls).httpStatus == 200 && !IsSettled(describe(calls).table) {
        assert p == q;
        if q.result == Ok(None) {
          assert Waiting(describe, calls, rounds);
        }
        if q.result.Ok? && q.result.value.Some? {
          assert SettlesAt(describe, calls, p.calls - calls - 1);
        }
        if q.result.Err? {
          assert RejectedAt(describe, calls, p.calls - calls - 1);
        }
      }
    }
  }

  /** `describe_table`: one DescribeTable call, validated and classified. */
  method DescribeTable(client: Client) returns (r: Result<(bool, Table)>)
    modifies client`describeCalls
    ensures client.describeCalls == old(client.describeCalls) + 1
    ensures r == Classify(client.store.describe(old(client.describeCalls)))
  {
    var response := client.DescribeTable();
    var _ :- Validate(response.httpStatus, response.raw);
    var table := response.table;
    r := Ok((IsSettled(table), table));
  }

  /** `waiter_table`: up to `rounds` reads, returning the first settled table. */
  method WaitForTable(client: Client, rounds: nat) returns (r: Result<Option<Table>>)
    modifies client`describeCalls
    ensures Polled(r, client.describeCalls) == Poll(client.store.describe, old(client.describeCalls), rounds)
  {
    for retry := 0 to rounds
      invariant client.describeCalls == old(client.describeCalls) + retry
      invariant Poll(client.store.describe, old(client.describeCalls), rounds) ==
                Poll(client.store.describe, client.describeCalls, rounds - retry)
    {
      var described := DescribeTable(client);
      if described.Err? {
        return Err(described.error);
      }
      var (active, table) := described.value;
      if active {
        return Ok(Some(table));
      }
    }
    return Ok(None);
  }
}
