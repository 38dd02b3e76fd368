/** The key-value store the repository talks to, reduced to what the repository
    uses: attribute values, items, one table keyed by its "Id" attribute, and the
    answers the service gives to DescribeTable. The client keeps a log of every
    request it receives, so that callers can state exactly which calls they make. */
module DynamoDb {
  import opened Wrappers

  /** An attribute value as the repository writes it: a string, a number
      (carried as its decimal text) or the explicit NULL marker. */
  datatype AttributeValue = S(s: string) | N(n: string) | Null

  /** An item maps attribute names to values. */
  type Item = map<string, AttributeValue>

  /** The `S` property of an attribute value: null unless it is a string. */
  function StringOf(v: AttributeValue): Option<string> {
    if v.S? then Some(v.s) else None
  }

  /** The `N` property of an attribute value: null unless it is a number. */
  function NumberOf(v: AttributeValue): Option<string> {
    if v.N? then Some(v.n) else None
  }

  /** The name of the table's partition key. */
  const KeyAttribute := "Id"

  /** The partition key of an item, when it has a string one. */
  function KeyOf(item: Item): Option<string> {
    if KeyAttribute in item && item[KeyAttribute].S? then Some(item[KeyAttribute].s) else None
  }

  datatype TableStatus = Active | Creating | Updating | Deleting | OtherStatus(name: string)

  /** What one DescribeTable call produces: a description, the
      resource-not-found exception, or any other service failure. */
  datatype DescribeAnswer = Described(status: TableStatus) | ResourceNotFound | ServiceFailure(message: string)

  datatype KeyType = Hash | Range
  datatype ScalarAttributeType = StringType | NumberType | BinaryType
  datatype BillingMode = Provisioned | PayPerRequest
  datatype KeySchemaElement = KeySchemaElement(attributeName: string, keyType: KeyType)
  datatype AttributeDefinition = AttributeDefinition(attributeName: string, attributeType: ScalarAttributeType)

  datatype CreateTableRequest = CreateTableRequest(
    tableName: string,
    keySchema: seq<KeySchemaElement>,
    attributeDefinitions: seq<AttributeDefinition>,
    billingMode: BillingMode)

  /** One request sent to the store. */
  datatype Request =
    | DescribeTable(tableName: string)
    | CreateTable(create: CreateTableRequest)
    | PutItem(tableName: string, item: Item)
    | GetItem(tableName: string, key: string)
    | Scan(tableName: string)

  /** `n` DescribeTable requests for `name`. */
  function Describes(name: string, n: nat): (rs: seq<Request>)
    ensures |rs| == n && forall i :: 0 <= i < n ==> rs[i] == DescribeTable(name)
  {
    seq(n, _ => DescribeTable(name))
  }

  lemma DescribesAppend(name: string, n: nat)
    ensures Describes(name, n) + [DescribeTable(name)] == Describes(name, n + 1)
  {
  }

  /** `page` lists the items stored under the distinct keys `keys`, in order. */
  ghost predicate IsScanPage(page: seq<Item>, keys: seq<string>, items: map<string, Item>) {
    && |keys| == |page|
    && (forall i :: 0 <= i < |keys| ==> keys[i] in items && page[i] == items[keys[i]])
    && (forall i, j :: 0 <= i < j < |keys| ==> keys[i] != keys[j])
  }

  /** A client of one table. */
  class TableClient {
    /** The answer of the store to the `i`-th DescribeTable call. */
    const answers: nat -> DescribeAnswer
    /** How many DescribeTable calls have been made. */
    var describeCalls: nat
    /** The table's contents, by partition key. */
    var items: map<string, Item>
    /** Every request received, oldest first. */
    var requests: seq<Request>

    /** Every item is stored under its own partition key. */
    ghost predicate Valid()
      reads this
    {
      forall k :: k in items ==> KeyOf(items[k]) == Some(k)
    }

    /** The describe answers and the stored items are independent inputs: the
        model does not tie a resource-not-found answer to an empty table, and
        no property proved here depends on the items when the table is
        reported missing. */
    constructor (answers: nat -> DescribeAnswer, items: map<string, Item>)
      requires forall k :: k in items ==> KeyOf(items[k]) == Some(k)
      ensures Valid()
      ensures this.answers == answers && this.items == items
      ensures describeCalls == 0 && requests == []
    {
      this.answers := answers;
      this.items := items;
      describeCalls := 0;
      requests := [];
    }

    method DescribeTable(name: string) returns (answer: DescribeAnswer)
      modifies this`describeCalls, this`requests
      ensures answer == answers(old(describeCalls))
      ensures describeCalls == old(describeCalls) + 1
      ensures requests == old(requests) + [Request.DescribeTable(name)]
    {
      answer := answers(describeCalls);
      describeCalls := describeCalls + 1;
      requests := requests + [Request.DescribeTable(name)];
    }

    /** Creating a table is recorded in the log only; readiness is whatever the
        later describe answers say, and the stored items are left as they are. */
    method CreateTable(create: CreateTableRequest)
      modifies this`requests
      ensures requests == old(requests) + [Request.CreateTable(create)]
    {
      requests := requests + [Request.CreateTable(create)];
    }

    /** An unconditional write of the whole item under its partition key. */
    method PutItem(name: string, item: Item)
      requires Valid()
      requires KeyOf(item).Some?
      modifies this`items, this`requests
      ensures Valid()
      ensures items == old(items)[KeyOf(item).value := item]
      ensures requests == old(requests) + [Request.PutItem(name, item)]
    {
      items := items[KeyOf(item).value := item];
      requests := requests + [Request.PutItem(name, item)];
    }

    method GetItem(name: string, key: string) returns (found: Option<Item>)
      modifies this`requests
      ensures found == if key in items then Some(items[key]) else None
      ensures requests == old(requests) + [Request.GetItem(name, key)]
    {
      found := if key in items then Some(items[key]) else None;
      requests := requests + [Request.GetItem(name, key)];
    }

    /** One scan response: distinct stored items, in an order of the store's
        choosing. This model answers with the whole table. */
    method Scan(name: string) returns (page: seq<Item>, ghost keys: seq<string>)
      modifies this`requests
      ensures IsScanPage(page, keys, items)
      ensures requests == old(requests) + [Request.Scan(name)]
    {
      var rest := items.Keys;
      page, keys := [], [];
      while rest != {}
        invariant rest <= items.Keys
        invariant IsScanPage(page, keys, items)
        invariant forall i :: 0 <= i < |keys| ==> keys[i] !in rest
        decreases rest
      {
        var k :| k in rest;
        page, keys := page + [items[k]], keys + [k];
        rest := rest - {k};
      }
      requests := requests + [Request.Scan(name)];
    }
  }
}
