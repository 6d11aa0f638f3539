/** What the GSI reconciler sees of DynamoDB: the table description it reads,
    the UpdateTable request it submits, and the store's answers to both.
    The store itself is an oracle: its k-th DescribeTable answer and its k-th
    UpdateTable answer are given in advance, which covers any out-of-band
    change to the table between calls. */
module GsiStore {
  import opened Py

  /** One entry of an AttributeDefinitions list: (AttributeName, AttributeType). */
  datatype AttrDef = AttrDef(name: string, attrType: string)

  /** One entry of a table's GlobalSecondaryIndexes, as far as it is read. */
  datatype IndexDesc = IndexDesc(indexName: string, indexStatus: string)

  /** A field that the code only uses when it holds a list. */
  datatype ListField<T> = Absent | NotAList | Items(items: seq<T>)

  datatype Table = Table(
    tableStatus: string,
    indexes: ListField<IndexDesc>,
    attributeDefinitions: seq<AttrDef>)

  /** A DescribeTable response envelope; `raw` is its `str()`. */
  datatype Observation = Observation(httpStatus: int, raw: string, table: Table)

  /** The answer to an UpdateTable call: an envelope, or an exception raised
      by the SDK (a rejected or conflicting mutation). */
  datatype Reply = Envelope(httpStatus: int, raw: string) | Raised(text: string)

  datatype Store = Store(describe: nat -> Observation, update: nat -> Reply)

  datatype KeyElement = KeyElement(attributeName: string, keyType: string)

  datatype Projection = Projection(projectionType: string, nonKeyAttributes: seq<string>)

  /** One GlobalSecondaryIndexUpdates entry: `{"Create": {...}}` or `{"Delete": {...}}`. */
  datatype IndexUpdate =
    | CreateIndex(indexName: string, keySchema: seq<KeyElement>, projection: Projection)
    | DeleteIndex(indexName: string)

  /** The arguments of one UpdateTable call. */
  datatype Submission = Submission(
    tableName: string,
    attributes: seq<AttrDef>,
    updates: seq<IndexUpdate>)

  /** The DynamoDB client: it answers from the store and records every
      UpdateTable call it is asked to make, accepted or not. */
  class Client {
    const store: Store
    var describeCalls: nat
    var submitted: seq<Submission>

    constructor (store: Store)
      ensures this.store == store && describeCalls == 0 && submitted == []
    {
      this.store := store;
      describeCalls := 0;
      submitted := [];
    }

    method DescribeTable() returns (o: Observation)
      modifies this`describeCalls
      ensures describeCalls == old(describeCalls) + 1
      ensures o == store.describe(old(describeCalls))
    {
      o := store.describe(describeCalls);
      describeCalls := describeCalls + 1;
    }

    method UpdateTable(s: Submission) returns (reply: Reply)
      modifies this`submitted
      ensures submitted == old(submitted) + [s]
      ensures reply == store.update(|old(submitted)|)
    {
      reply := store.update(|submitted|);
      submitted := submitted + [s];
    }
  }
}
