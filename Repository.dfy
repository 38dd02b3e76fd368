/** The persistence adapter
    (QuiosqueFood3000.Kitchen.Infrastructure/Repositories/OrderSolicitationRepository.cs):
    it turns orders into store items and back, writes them with unconditional
    puts, reads them by key or by one scan, and provisions its table on start-up. */
module Repository {
  import opened Wrappers
  import opened Entities
  import opened Decimal
  import opened DynamoDb

  /** The library text encodings the adapter relies on, taken as parameters:
      `Guid.ToString()` and `Guid.Parse`, `DateTime.ToString("O")` and
      `DateTime.Parse`, and the JSON serializer for the product list. A parse
      gives `None` where the library throws; the JSON reader gives `Some(None)`
      for the JSON literal `null`. */
  datatype Encodings = Encodings(
    guidText: Guid -> string,
    parseGuid: string -> Option<Guid>,
    dateText: DateTime -> string,
    parseDate: string -> Option<DateTime>,
    productsJson: seq<Product> -> string,
    parseProductsJson: string -> Option<Option<seq<Product>>>)

  /** The round-trip behaviour of the encodings: identifiers and product lists
      read back exactly, and a timestamp reads back as `settle` of itself (parsing
      the round-trip format may change a `DateTime`'s kind, so exact equality is
      not assumed). */
  ghost predicate Inverse(enc: Encodings, settle: DateTime -> DateTime) {
    && (forall g :: enc.parseGuid(enc.guidText(g)) == Some(g))
    && (forall d :: enc.parseDate(enc.dateText(d)) == Some(settle(d)))
    && (forall ps :: enc.parseProductsJson(enc.productsJson(ps)) == Some(Some(ps)))
  }

  // ---------------------------------------------------------------------------
  // Marshalling

  /** The attributes every written item has. */
  const WrittenAttributes: set<string> :=
    {"Id", "Status", "GenerateDate", "CustomerId", "AnonymousIdentification", "Products"}

  /** The item `Add` writes for an order. An absent customer and an absent or
      empty anonymous identification are written as the NULL marker; an absent
      delivery date is not written at all. */
  function ToItem(o: OrderSolicitation, enc: Encodings): (item: Item)
    ensures item.Keys == WrittenAttributes + (if o.deliveredDate.Some? then {"DeliveredDate"} else {})
    ensures KeyOf(item) == Some(enc.guidText(o.id))
    ensures item["CustomerId"] == Null <==> o.customerId.None?
    ensures item["AnonymousIdentification"] == Null
        <==> o.anonymousIdentification.None? || o.anonymousIdentification == Some("")
    ensures "DeliveredDate" in item ==> item["DeliveredDate"] != Null
  {
    var item := map[
      "Id" := S(enc.guidText(o.id)),
      "Status" := N(IntToString(o.status as int)),
      "GenerateDate" := S(enc.dateText(o.generateDate)),
      "CustomerId" := if o.customerId.Some? then S(enc.guidText(o.customerId.value)) else Null,
      "AnonymousIdentification" :=
        if o.anonymousIdentification.Some? && o.anonymousIdentification.value != ""
        then S(o.anonymousIdentification.value) else Null,
      "Products" := S(enc.productsJson(o.products))];
    if o.deliveredDate.Some? then item["DeliveredDate" := S(enc.dateText(o.deliveredDate.value))] else item
  }

  // ---------------------------------------------------------------------------
  // Unmarshalling

  /** Why an item could not be read back: a required attribute is missing, an
      attribute has the wrong type so its text is null, or its text does not
      parse. */
  datatype MappingError = KeyNotFound(key: string) | NullArgument(key: string) | BadFormat(key: string)

  /** The attributes reading an item cannot do without. */
  const RequiredAttributes: set<string> := {"Id", "Status", "GenerateDate", "Products"}

  /** A required attribute holding text to parse, read as the source reads it:
      `KeyNotFound` when missing, `NullArgument` when it is not a string,
      `BadFormat` when the text does not parse. */
  function RequiredText<T>(item: Item, key: string, parse: string -> Option<T>): (r: Result<T, MappingError>)
    ensures r.Success? <==> key in item && item[key].S? && parse(item[key].s).Some?
    ensures r.Success? ==> parse(item[key].s) == Some(r.value)
  {
    if key !in item then Failure(KeyNotFound(key))
    else if !item[key].S? then Failure(NullArgument(key))
    else match parse(item[key].s)
      case None => Failure(BadFormat(key))
      case Some(x) => Success(x)
  }

  /** The status attribute: decimal text in a number attribute, cast to the enum
      with no range check. */
  function RequiredStatus(item: Item): Result<OrderStatus, MappingError> {
    if "Status" !in item then Failure(KeyNotFound("Status"))
    else if !item["Status"].N? then Failure(NullArgument("Status"))
    else match ParseInt32(item["Status"].n)
      case None => Failure(BadFormat("Status"))
      case Some(x) => Success(x as OrderStatus)
  }

  /** The attribute under `key`, unless it is missing or the NULL marker. */
  function Present(item: Item, key: string): Option<AttributeValue> {
    if key in item && !item[key].Null? then Some(item[key]) else None
  }

  /** An optional attribute holding text to parse: absent when missing or NULL. */
  function Optional<T>(item: Item, key: string, parse: string -> Option<T>): (r: Result<Option<T>, MappingError>)
    ensures r.Success? ==> (r.value.None? <==> Present(item, key).None?)
  {
    match Present(item, key)
    case None => Success(None)
    case Some(v) =>
      if !v.S? then Failure(NullArgument(key))
      else match parse(v.s)
        case None => Failure(BadFormat(key))
        case Some(x) => Success(Some(x))
  }

  /** The anonymous identification is copied from the attribute's string
      property, which is null for a number attribute. */
  function OptionalText(item: Item, key: string): (r: Option<string>)
    ensures r.Some? <==> key in item && item[key].S?
    ensures r.Some? ==> item[key] == S(r.value)
  {
    match Present(item, key)
    case None => None
    case Some(v) => StringOf(v)
  }

  /** The order an item describes, reading the required attributes in the order
      the source does and then the optional ones; a JSON `null` product list
      becomes the empty list. */
  function FromItem(item: Item, enc: Encodings): (r: Result<OrderSolicitation, MappingError>)
    ensures r.Success? ==> RequiredAttributes <= item.Keys
    ensures r.Success? ==> KeyOf(item).Some? && enc.parseGuid(KeyOf(item).value) == Some(r.value.id)
    ensures r.Success? ==> (r.value.deliveredDate.None? <==> Present(item, "DeliveredDate").None?)
    ensures r.Success? ==> (r.value.customerId.None? <==> Present(item, "CustomerId").None?)
    ensures r.Success? ==>
      (r.value.anonymousIdentification.Some?
       <==> "AnonymousIdentification" in item && item["AnonymousIdentification"].S?)
    ensures r.Success? && r.value.anonymousIdentification.Some? ==>
      item["AnonymousIdentification"] == S(r.value.anonymousIdentification.value)
  {
    var id :- RequiredText(item, "Id", enc.parseGuid);
    var status :- RequiredStatus(item);
    var generateDate :- RequiredText(item, "GenerateDate", enc.parseDate);
    var decoded :- RequiredText(item, "Products", enc.parseProductsJson);
    var delivered :- Optional(item, "DeliveredDate", enc.parseDate);
    var customer :- Optional(item, "CustomerId", enc.parseGuid);
    var products := if decoded.Some? then decoded.value else [];
    Success(OrderSolicitation(id, status, generateDate, delivered, customer,
                              OptionalText(item, "AnonymousIdentification"), products))
  }

  /** What reading back a written order gives: the timestamps as the date
      encoding settles them, and an empty anonymous identification as absent
      (it was written as NULL). Every other field is unchanged. */
  function Settled(o: OrderSolicitation, settle: DateTime -> DateTime): OrderSolicitation {
    o.(generateDate := settle(o.generateDate),
       deliveredDate := if o.deliveredDate.Some? then Some(settle(o.deliveredDate.value)) else None,
       anonymousIdentification := if o.anonymousIdentification == Some("") then None else o.anonymousIdentification)
  }

  /** The value `ToItem` writes under each attribute. */
  lemma ItemAttributes(o: OrderSolicitation, enc: Encodings)
    ensures Written(ToItem(o, enc), o, enc)
  {
  }

  /** `item` holds what `ToItem` writes for `o`, stated attribute by attribute
      through `Present`. It is not a second definition of the written item: it
      also admits items that lack a NULL optional attribute altogether, so
      `ReadsBackAttributes` covers those items too, and it keeps the map
      literal of `ToItem` out of that proof. */
  ghost predicate Written(item: Item, o: OrderSolicitation, enc: Encodings) {
    && RequiredAttributes <= item.Keys
    && item["Id"] == S(enc.guidText(o.id))
    && item["Status"] == N(IntToString(o.status as int))
    && item["GenerateDate"] == S(enc.dateText(o.generateDate))
    && item["Products"] == S(enc.productsJson(o.products))
    && Present(item, "CustomerId") == (if o.customerId.Some? then Some(S(enc.guidText(o.customerId.value))) else None)
    && Present(item, "AnonymousIdentification")
       == (if o.anonymousIdentification.Some? && o.anonymousIdentification.value != ""
           then Some(S(o.anonymousIdentification.value)) else None)
    && Present(item, "DeliveredDate")
       == (if o.deliveredDate.Some? then Some(S(enc.dateText(o.deliveredDate.value))) else None)
  }

  /** Each attribute of a written item reads back as the field it was written from. */
  lemma ReadsBackAttributes(item: Item, o: OrderSolicitation, enc: Encodings, settle: DateTime -> DateTime)
    requires Inverse(enc, settle)
    requires Written(item, o, enc)
    ensures RequiredText(item, "Id", enc.parseGuid) == Success(o.id)
    ensures RequiredStatus(item) == Success(o.status)
    ensures RequiredText(item, "GenerateDate", enc.parseDate) == Success(settle(o.generateDate))
    ensures RequiredText(item, "Products", enc.parseProductsJson) == Success(Some(o.products))
    ensures Optional(item, "DeliveredDate", enc.parseDate) == Success(Settled(o, settle).deliveredDate)
    ensures Optional(item, "CustomerId", enc.parseGuid) == Success(o.customerId)
    ensures OptionalText(item, "AnonymousIdentification") == Settled(o, settle).anonymousIdentification
  {
    Int32RoundTrip(o.status as int);
    assert enc.parseGuid(enc.guidText(o.id)) == Some(o.id);
    assert enc.parseDate(enc.dateText(o.generateDate)) == Some(settle(o.generateDate));
    assert enc.parseProductsJson(enc.productsJson(o.products)) == Some(Some(o.products));
    if o.deliveredDate.Some? {
      assert enc.parseDate(enc.dateText(o.deliveredDate.value)) == Some(settle(o.deliveredDate.value));
    }
    if o.customerId.Some? {
      var c := o.customerId.value;
      assert enc.parseGuid(enc.guidText(c)) == Some(c);
    }
  }

  /** Reading back the item written for an order restores the order, up to
      `Settled`. */
  lemma RoundTrip(o: OrderSolicitation, enc: Encodings, settle: DateTime -> DateTime)
    requires Inverse(enc, settle)
    ensures FromItem(ToItem(o, enc), enc) == Success(Settled(o, settle))
  {
    ItemAttributes(o, enc);
    ReadsBackAttributes(ToItem(o, enc), o, enc, settle);
  }

  /** With timestamps that read back unchanged, every order whose anonymous
      identification is not the empty string survives a write and a read exactly. */
  lemma ExactRoundTrip(o: OrderSolicitation, enc: Encodings)
    requires Inverse(enc, d => d)
    requires o.anonymousIdentification != Some("")
    ensures FromItem(ToItem(o, enc), enc) == Success(o)
  {
    RoundTrip(o, enc, d => d);
  }

  /** The one field a write and a read lose: an empty anonymous identification
      comes back absent, so the round trip is not the identity. */
  lemma EmptyAnonymousComesBackAbsent(o: OrderSolicitation, enc: Encodings, settle: DateTime -> DateTime)
    requires Inverse(enc, settle)
    requires o.anonymousIdentification == Some("")
    ensures FromItem(ToItem(o, enc), enc).Success?
    ensures FromItem(ToItem(o, enc), enc).value.anonymousIdentification == None
    ensures FromItem(ToItem(o, enc), enc) != Success(o)
  {
    RoundTrip(o, enc, settle);
  }

  /** Distinct identifiers are written under distinct keys. */
  lemma GuidTextInjective(enc: Encodings, settle: DateTime -> DateTime, g: Guid, h: Guid)
    requires Inverse(enc, settle)
    requires enc.guidText(g) == enc.guidText(h)
    ensures g == h
  {
    assert enc.parseGuid(enc.guidText(g)) == Some(g);
    assert enc.parseGuid(enc.guidText(h)) == Some(h);
  }

  // ---------------------------------------------------------------------------
  // Reads over the store's contents

  /** What `GetById` gives for the store contents `items`: nothing when no item
      is stored under the identifier's text, else the item read back. */
  function Lookup(items: map<string, Item>, id: Guid, enc: Encodings): Result<Option<OrderSolicitation>, MappingError> {
    var key := enc.guidText(id);
    if key !in items then Success(None)
    else match FromItem(items[key], enc)
      case Success(o) => Success(Some(o))
      case Failure(e) => Failure(e)
  }

  /** After an order is put, looking up its identifier finds it, up to `Settled`. */
  lemma PutThenLookup(items: map<string, Item>, o: OrderSolicitation, enc: Encodings, settle: DateTime -> DateTime)
    requires Inverse(enc, settle)
    ensures Lookup(items[enc.guidText(o.id) := ToItem(o, enc)], o.id, enc) == Success(Some(Settled(o, settle)))
  {
    RoundTrip(o, enc, settle);
  }

  /** Putting an order changes what no other identifier looks up. */
  lemma PutKeepsOtherLookups(items: map<string, Item>, o: OrderSolicitation, other: Guid, enc: Encodings, settle: DateTime -> DateTime)
    requires Inverse(enc, settle)
    requires other != o.id
    ensures Lookup(items[enc.guidText(o.id) := ToItem(o, enc)], other, enc) == Lookup(items, other, enc)
  {
    if enc.guidText(other) == enc.guidText(o.id) {
      GuidTextInjective(enc, settle, other, o.id);
    }
  }

  /** What `GetAll` gives for one scan page: one order per item, in page order;
      any item that cannot be read makes the whole call fail. */
  function FromItems(page: seq<Item>, enc: Encodings): (r: Result<seq<OrderSolicitation>, MappingError>)
    ensures r.Success? <==> forall i :: 0 <= i < |page| ==> FromItem(page[i], enc).Success?
    ensures r.Success? ==>
      |r.value| == |page| && forall i :: 0 <= i < |page| ==> FromItem(page[i], enc) == Success(r.value[i])
  {
    if page == [] then Success([])
    else
      var o :- FromItem(page[0], enc);
      var rest :- FromItems(page[1..], enc);
      assert forall j :: 1 <= j < |page| ==> page[j] == page[1..][j - 1];
      Success([o] + rest)
  }

  /** The error `GetAll` reports is that of the first item, in page order, that
      cannot be read. */
  lemma {:induction false} FromItemsReportsFirstFailure(page: seq<Item>, enc: Encodings)
    requires FromItems(page, enc).Failure?
    ensures exists i :: (0 <= i < |page| && FromItem(page[i], enc) == Failure(FromItems(page, enc).error)
                         && forall j :: 0 <= j < i ==> FromItem(page[j], enc).Success?)
  {
    if FromItem(page[0], enc).Failure? {
      assert FromItem(page[0], enc) == Failure(FromItems(page, enc).error);
    } else {
      FromItemsReportsFirstFailure(page[1..], enc);
      var i :| 0 <= i < |page[1..]| && FromItem(page[1..][i], enc) == Failure(FromItems(page[1..], enc).error)
        && forall j :: 0 <= j < i ==> FromItem(page[1..][j], enc).Success?;
      assert forall j :: 1 <= j < i + 1 ==> page[j] == page[1..][j - 1];
      assert FromItem(page[i + 1], enc) == Failure(FromItems(page, enc).error);
    }
  }

  lemma {:induction false} DistinctKeysCount(keys: seq<string>, covered: set<string>)
    requires forall i, j :: 0 <= i < j < |keys| ==> keys[i] != keys[j]
    requires covered == set i | 0 <= i < |keys| :: keys[i]
    ensures |covered| == |keys|
    decreases |keys|
  {
    if keys != [] {
      var rest := set i | 0 <= i < |keys[1..]| :: keys[1..][i];
      DistinctKeysCount(keys[1..], rest);
      assert covered == rest + {keys[0]};
      assert keys[0] !in rest;
    }
  }

  /** A page that lists every stored key has one item per stored item. */
  lemma CompletePageSize(page: seq<Item>, keys: seq<string>, items: map<string, Item>)
    requires IsScanPage(page, keys, items)
    requires forall k :: k in items ==> k in keys
    ensures |page| == |items|
  {
    var covered := set i | 0 <= i < |keys| :: keys[i];
    DistinctKeysCount(keys, covered);
    assert covered == items.Keys by {
      forall k | k in items ensures k in covered {
        var i :| 0 <= i < |keys| && keys[i] == k;
      }
    }
    assert |items| == |items.Keys|;
  }

  /** When the scan page holds the whole table and every item reads back, the
      queue has exactly one order per stored item, each identified by the key it
      was stored under. */
  lemma CompletePageListsEveryStoredOrder(
    page: seq<Item>, keys: seq<string>, items: map<string, Item>, enc: Encodings, orders: seq<OrderSolicitation>)
    requires IsScanPage(page, keys, items)
    requires forall k :: k in items ==> k in keys
    requires forall k :: k in items ==> KeyOf(items[k]) == Some(k)
    requires FromItems(page, enc) == Success(orders)
    ensures |orders| == |items|
    ensures forall i :: 0 <= i < |orders| ==> enc.parseGuid(keys[i]) == Some(orders[i].id)
  {
    CompletePageSize(page, keys, items);
    forall i | 0 <= i < |orders|
      ensures enc.parseGuid(keys[i]) == Some(orders[i].id)
    {
      assert FromItem(page[i], enc) == Success(orders[i]);
    }
  }

  // ---------------------------------------------------------------------------
  // Provisioning

  const DefaultTableName := "OrderSolicitations"

  /** The number of readiness checks made after creating the table. */
  const MaxAttempts := 30

  /** The configured table name, or the default when none is configured. */
  function TableNameOrDefault(configured: Option<string>): string {
    if configured.Some? then configured.value else DefaultTableName
  }

  /** The table definition used when the table is missing: a string hash key
      "Id" and on-demand billing. */
  function CreateRequestFor(name: string): CreateTableRequest {
    CreateTableRequest(name,
      [KeySchemaElement(KeyAttribute, Hash)],
      [AttributeDefinition(KeyAttribute, StringType)],
      PayPerRequest)
  }

  function TimeoutMessage(name: string): string {
    "Table " + name + " did not become active within the expected time."
  }

  /** Why start-up fails: the table never became active in time, or a describe
      call failed with something other than resource-not-found. */
  datatype ProvisioningError = Timeout(message: string) | DescribeFailed(message: string)

  /** The answers that end the readiness wait: the table is active, or a failure
      that is not resource-not-found. */
  predicate EndsWait(a: DescribeAnswer) {
    a == Described(Active) || a.ServiceFailure?
  }

  /** None of the answers numbered `lo` up to `hi` (exclusive) ends the wait. */
  ghost predicate NoEndBetween(answers: nat -> DescribeAnswer, lo: nat, hi: nat) {
    forall n :: lo <= n < hi ==> !EndsWait(answers(n))
  }

  /** How a wait ends and how many describe calls it made. */
  datatype PollResult = PollResult(outcome: Outcome<ProvisioningError>, calls: nat)

  /** The readiness wait from attempt number `attempt` on, where the store gives
      `answers(first + j)` to the wait's `j`-th describe call. */
  function Poll(answers: nat -> DescribeAnswer, first: nat, attempt: nat, name: string): (r: PollResult)
    requires attempt <= MaxAttempts
    ensures attempt <= r.calls <= MaxAttempts
    ensures r.outcome.Pass? || r.outcome.error.DescribeFailed? ==> attempt < r.calls
    decreases MaxAttempts - attempt
  {
    if attempt == MaxAttempts then PollResult(Fail(Timeout(TimeoutMessage(name))), attempt)
    else match answers(first + attempt)
      case Described(Active) => PollResult(Pass, attempt + 1)
      case ServiceFailure(m) => PollResult(Fail(DescribeFailed(m)), attempt + 1)
      case _ => Poll(answers, first, attempt + 1, name)
  }

  /** Whatever the wait reports is explained by the answers: success by an active
      answer to its last call, a describe failure by the service failure answered
      to its last call, a timeout by thirty calls none of which ended the wait;
      no earlier call ended it. */
  lemma {:induction false} PollExplained(answers: nat -> DescribeAnswer, first: nat, attempt: nat, name: string)
    requires attempt <= MaxAttempts
    ensures var r := Poll(answers, first, attempt, name);
      && (r.outcome.Pass? ==> answers(first + r.calls - 1) == Described(Active))
      && (r.outcome.Fail? && r.outcome.error.DescribeFailed? ==>
            answers(first + r.calls - 1) == ServiceFailure(r.outcome.error.message))
      && (r.outcome.Fail? && r.outcome.error.Timeout? ==>
            r.calls == MaxAttempts && r.outcome.error.message == TimeoutMessage(name))
      && NoEndBetween(answers, first + attempt, first + r.calls - (if r.outcome.Pass? || r.outcome.error.DescribeFailed? then 1 else 0))
    decreases MaxAttempts - attempt
  {
    if attempt < MaxAttempts && !EndsWait(answers(first + attempt)) {
      PollExplained(answers, first, attempt + 1, name);
    }
  }

  /** The wait stops at the first answer that ends it: success on the first
      active answer, failure on the first service failure. */
  lemma {:induction false} PollStopsAtFirstEnd(answers: nat -> DescribeAnswer, first: nat, attempt: nat, name: string, k: nat)
    requires attempt <= k < MaxAttempts
    requires EndsWait(answers(first + k))
    requires NoEndBetween(answers, first + attempt, first + k)
    ensures Poll(answers, first, attempt, name).calls == k + 1
    ensures Poll(answers, first, attempt, name).outcome
         == if answers(first + k) == Described(Active) then Pass
            else Fail(DescribeFailed(answers(first + k).message))
    decreases k - attempt
  {
    if attempt < k {
      assert !EndsWait(answers(first + attempt));
      PollStopsAtFirstEnd(answers, first, attempt + 1, name, k);
    }
  }

  /** Without an answer that ends it, the wait makes all its attempts and then
      times out naming the table. */
  lemma {:induction false} PollTimesOut(answers: nat -> DescribeAnswer, first: nat, attempt: nat, name: string)
    requires attempt <= MaxAttempts
    requires NoEndBetween(answers, first + attempt, first + MaxAttempts)
    ensures Poll(answers, first, attempt, name) == PollResult(Fail(Timeout(TimeoutMessage(name))), MaxAttempts)
    decreases MaxAttempts - attempt
  {
    if attempt < MaxAttempts {
      assert !EndsWait(answers(first + attempt));
      PollTimesOut(answers, first, attempt + 1, name);
    }
  }

  /** How start-up ends, whether it created the table, and how many describe
      calls it made. */
  datatype Provisioning = Provisioning(outcome: Outcome<ProvisioningError>, created: bool, describeCalls: nat)

  /** Start-up against the answers `answers(first)`, `answers(first + 1)`, ...:
      one describe; only when it reports the table missing, a create and the
      readiness wait. */
  function Provision(answers: nat -> DescribeAnswer, first: nat, name: string): (p: Provisioning)
    ensures p.created <==> answers(first) == ResourceNotFound
    ensures 1 <= p.describeCalls <= 1 + MaxAttempts
  {
    match answers(first)
    case Described(_) => Provisioning(Pass, false, 1)
    case ServiceFailure(m) => Provisioning(Fail(DescribeFailed(m)), false, 1)
    case ResourceNotFound =>
      var w := Poll(answers, first + 1, 0, name);
      Provisioning(w.outcome, true, 1 + w.calls)
  }

  /** The requests start-up sends. */
  function ProvisionRequests(name: string, p: Provisioning): seq<Request>
    requires p.describeCalls >= 1
  {
    [DescribeTable(name)]
    + (if p.created then [CreateTable(CreateRequestFor(name))] else [])
    + Describes(name, p.describeCalls - 1)
  }

  /** When the first describe answers, whatever table status it reports, start-up
      succeeds at once without creating or waiting; when it fails with anything
      but resource-not-found, that failure ends start-up at once. */
  lemma ProvisionWhenPresent(answers: nat -> DescribeAnswer, first: nat, name: string)
    ensures answers(first).Described? ==> Provision(answers, first, name) == Provisioning(Pass, false, 1)
    ensures answers(first).ServiceFailure? ==>
      Provision(answers, first, name) == Provisioning(Fail(DescribeFailed(answers(first).message)), false, 1)
    ensures !answers(first).ResourceNotFound? ==>
      ProvisionRequests(name, Provision(answers, first, name)) == [DescribeTable(name)]
  {
  }

  /** When the first describe reports the table missing, start-up is the create
      followed by the readiness wait on the next answers. */
  lemma ProvisionWhenMissing(answers: nat -> DescribeAnswer, first: nat, name: string)
    requires answers(first) == ResourceNotFound
    ensures var w := Poll(answers, first + 1, 0, name);
      var p := Provision(answers, first, name);
      && p == Provisioning(w.outcome, true, 1 + w.calls)
      && ProvisionRequests(name, p)
         == [DescribeTable(name)] + [CreateTable(CreateRequestFor(name))] + Describes(name, w.calls)
  {
  }

  /** A table that is missing and becomes active on the `k`-th readiness check
      (counting from 0) is created once and ready after `k + 2` describe calls. */
  lemma ProvisionCreatesMissingTable(answers: nat -> DescribeAnswer, first: nat, name: string, k: nat)
    requires answers(first) == ResourceNotFound
    requires k < MaxAttempts && answers(first + 1 + k) == Described(Active)
    requires NoEndBetween(answers, first + 1, first + 1 + k)
    ensures Provision(answers, first, name) == Provisioning(Pass, true, k + 2)
  {
    PollStopsAtFirstEnd(answers, first + 1, 0, name, k);
  }

  /** A missing table that never becomes active makes start-up fail with the
      timeout naming the table, after one plus thirty describe calls. */
  lemma ProvisionTimesOut(answers: nat -> DescribeAnswer, first: nat, name: string)
    requires answers(first) == ResourceNotFound
    requires NoEndBetween(answers, first + 1, first + 1 + MaxAttempts)
    ensures Provision(answers, first, name)
         == Provisioning(Fail(Timeout(TimeoutMessage(name))), true, 1 + MaxAttempts)
  {
    PollTimesOut(answers, first + 1, 0, name);
  }

  // ---------------------------------------------------------------------------
  // The adapter

  class OrderSolicitationRepository {
    const client: TableClient
    const tableName: string
    const enc: Encodings

    /** Only the field assignments; `Open` adds the provisioning that the
        source's constructor runs. */
    constructor (client: TableClient, configuredName: Option<string>, enc: Encodings)
      ensures this.client == client && this.enc == enc
      ensures tableName == TableNameOrDefault(configuredName)
      ensures configuredName.None? ==> tableName == DefaultTableName
    {
      this.client := client;
      this.enc := enc;
      tableName := TableNameOrDefault(configuredName);
    }

    /** Describe the table; only when it is missing, create it and wait for it. */
    method InitializeTable() returns (r: Outcome<ProvisioningError>)
      modifies client`describeCalls, client`requests
      ensures var p := Provision(client.answers, old(client.describeCalls), tableName);
        && r == p.outcome
        && client.describeCalls == old(client.describeCalls) + p.describeCalls
        && client.requests == old(client.requests) + ProvisionRequests(tableName, p)
    {
      ghost var first, log := client.describeCalls, client.requests;
      var answer := client.DescribeTable(tableName);
      match answer {
        case ResourceNotFound =>
          client.CreateTable(CreateRequestFor(tableName));
          ghost var sent := [DescribeTable(tableName)] + [CreateTable(CreateRequestFor(tableName))];
          assert client.requests == log + sent;
          r := WaitForTableToBeActive();
          ProvisionWhenMissing(client.answers, first, tableName);
          ghost var waits := Describes(tableName, Poll(client.answers, first + 1, 0, tableName).calls);
          assert client.requests == (log + sent) + waits;
          assert (log + sent) + waits == log + (sent + waits);
        case Described(_) =>
          r := Pass;
          assert Provision(client.answers, first, tableName) == Provisioning(Pass, false, 1);
        case ServiceFailure(m) =>
          r := Fail(DescribeFailed(m));
          assert Provision(client.answers, first, tableName) == Provisioning(r, false, 1);
      }
    }

    /** Up to `MaxAttempts` describe calls, returning on the first active answer;
        a missing table or an inactive status uses up one attempt. */
    method WaitForTableToBeActive() returns (r: Outcome<ProvisioningError>)
      modifies client`describeCalls, client`requests
      ensures var p := Poll(client.answers, old(client.describeCalls), 0, tableName);
        && r == p.outcome
        && client.describeCalls == old(client.describeCalls) + p.calls
        && client.requests == old(client.requests) + Describes(tableName, p.calls)
    {
      ghost var first, log := client.describeCalls, client.requests;
      var attempt := 0;
      while attempt < MaxAttempts
        invariant 0 <= attempt <= MaxAttempts
        invariant client.describeCalls == first + attempt
        invariant client.requests == log + Describes(tableName, attempt)
        invariant NoEndBetween(client.answers, first, first + attempt)
      {
        var answer := client.DescribeTable(tableName);
        DescribesAppend(tableName, attempt);
        if answer == Described(Active) || answer.ServiceFailure? {
          PollStopsAtFirstEnd(client.answers, first, 0, tableName, attempt);
          return if answer.ServiceFailure? then Fail(DescribeFailed(answer.message)) else Pass;
        }
        attempt := attempt + 1;
      }
      PollTimesOut(client.answers, first, 0, tableName);
      r := Fail(Timeout(TimeoutMessage(tableName)));
    }

    /** One unconditional put of the order's item under its identifier's text;
        the order is returned as given. */
    method Add(entity: OrderSolicitation) returns (r: OrderSolicitation)
      requires client.Valid()
      modifies client`items, client`requests
      ensures client.Valid()
      ensures r == entity
      ensures client.items == old(client.items)[enc.guidText(entity.id) := ToItem(entity, enc)]
      ensures client.requests == old(client.requests) + [PutItem(tableName, ToItem(entity, enc))]
    {
      var item := ToItem(entity, enc);
      client.PutItem(tableName, item);
      r := entity;
    }

    /** The same put as `Add`: the store's put is an upsert. */
    method Update(entity: OrderSolicitation) returns (r: OrderSolicitation)
      requires client.Valid()
      modifies client`items, client`requests
      ensures client.Valid()
      ensures r == entity
      ensures client.items == old(client.items)[enc.guidText(entity.id) := ToItem(entity, enc)]
      ensures client.requests == old(client.requests) + [PutItem(tableName, ToItem(entity, enc))]
    {
      r := Add(entity);
    }

    /** One get by the identifier's text; nothing when no item is stored there.
        The store's contents are not changed. */
    method GetById(id: Guid) returns (r: Result<Option<OrderSolicitation>, MappingError>)
      modifies client`requests
      ensures r == Lookup(client.items, id, enc)
      ensures client.requests == old(client.requests) + [GetItem(tableName, enc.guidText(id))]
    {
      var found := client.GetItem(tableName, enc.guidText(id));
      match found {
        case None =>
          r := Success(None);
        case Some(item) =>
          var order := FromItem(item, enc);
          r := if order.Success? then Success(Some(order.value)) else Failure(order.error);
      }
    }

    /** One scan, read back item by item in the order of the response. */
    method GetAll() returns (r: Result<seq<OrderSolicitation>, MappingError>, ghost page: seq<Item>, ghost keys: seq<string>)
      modifies client`requests
      ensures IsScanPage(page, keys, client.items)
      ensures r == FromItems(page, enc)
      ensures client.requests == old(client.requests) + [Scan(tableName)]
    {
      var items;
      items, keys := client.Scan(tableName);
      page := items;
      r := FromItems(items, enc);
    }
  }

  /** The source's constructor: pick the table name, then provision the table;
      a provisioning failure means no adapter is obtained. */
  method Open(client: TableClient, configuredName: Option<string>, enc: Encodings)
    returns (r: Result<OrderSolicitationRepository, ProvisioningError>)
    modifies client`describeCalls, client`requests
    ensures var name := TableNameOrDefault(configuredName);
      var p := Provision(client.answers, old(client.describeCalls), name);
      && (r.Success? <==> p.outcome.Pass?)
      && (r.Failure? ==> p.outcome == Fail(r.error))
      && (r.Success? ==> r.value.client == client && r.value.tableName == name && r.value.enc == enc)
      && client.describeCalls == old(client.describeCalls) + p.describeCalls
      && client.requests == old(client.requests) + ProvisionRequests(name, p)
  {
    var repository := new OrderSolicitationRepository(client, configuredName, enc);
    var outcome := repository.InitializeTable();
    r := if outcome.Pass? then Success(repository) else Failure(outcome.error);
  }
}
