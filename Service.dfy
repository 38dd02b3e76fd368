/** The kitchen's application service
    (QuiosqueFood3000.Kitchen.Application/Services/OrderSolicitationService.cs):
    it stamps new orders with an identifier and a creation time, moves orders
    between statuses, and lists the production queue. The clock and the
    identifier generator are parameters of the operations that use them. */
module Service {
  import opened Wrappers
  import opened Entities
  import opened DynamoDb
  import opened Validator
  import opened Repository

  /** The order `CreateOrder` stores: the caller's order with a fresh identifier
      and the creation time; every other field is kept as the caller gave it. */
  function Created(order: OrderSolicitation, newId: Guid, now: DateTime): (r: OrderSolicitation)
    ensures r.id == newId && r.generateDate == now
    ensures r.(id := order.id, generateDate := order.generateDate) == order
  {
    order.(id := newId, generateDate := now)
  }

  /** The order after a status change at time `now`: the status is replaced, and
      the delivery date is set to `now` exactly when the new status is
      `Completed`. Nothing else changes. */
  function WithStatus(o: OrderSolicitation, status: OrderStatus, now: DateTime): (r: OrderSolicitation)
    ensures r.status == status
    ensures r.deliveredDate != o.deliveredDate ==> status == Completed && r.deliveredDate == Some(now)
    ensures r.(status := o.status, deliveredDate := o.deliveredDate) == o
  {
    if status == Completed then o.(status := status, deliveredDate := Some(now))
    else o.(status := status)
  }

  /** Completing an order always records the completion time, even when it was
      completed before: the earlier delivery date is overwritten. */
  lemma CompletingStampsDelivery(o: OrderSolicitation, now: DateTime)
    ensures WithStatus(o, Completed, now).deliveredDate == Some(now)
  {
  }

  /** A change to any other status keeps the delivery date, so an order moved
      back from `Completed` still carries the time it was completed. */
  lemma LeavingCompletedKeepsDeliveryDate(o: OrderSolicitation, done: DateTime, status: OrderStatus, now: DateTime)
    requires status != Completed
    ensures WithStatus(WithStatus(o, Completed, done), status, now).deliveredDate == Some(done)
  {
  }

  /** No transition is refused: from every status, every status can be reached,
      including the one the order already has. */
  lemma AnyTransitionAllowed(o: OrderSolicitation, status: OrderStatus, now: DateTime)
    ensures WithStatus(o, status, now).status == status
    ensures WithStatus(o, status, now).id == o.id
  {
  }

  /** Repeating a status change at the same time changes nothing more. */
  lemma WithStatusIdempotent(o: OrderSolicitation, status: OrderStatus, now: DateTime)
    ensures WithStatus(WithStatus(o, status, now), status, now) == WithStatus(o, status, now)
  {
  }

  /** Of two successive changes, only the second status remains; the delivery
      date is the later completion time if the second change completes the order,
      and otherwise what the first change left. */
  lemma LaterStatusWins(o: OrderSolicitation, s1: OrderStatus, t1: DateTime, s2: OrderStatus, t2: DateTime)
    ensures var r := WithStatus(WithStatus(o, s1, t1), s2, t2);
      && r.status == s2
      && r.deliveredDate == (if s2 == Completed then Some(t2) else WithStatus(o, s1, t1).deliveredDate)
      && r.products == o.products && r.id == o.id && r.generateDate == o.generateDate
  {
  }

  /** Neither creating nor updating an order changes whether it is valid: the
      rules look at the products only, and those are never touched. */
  lemma ServiceKeepsValidation(o: OrderSolicitation, newId: Guid, status: OrderStatus, now: DateTime)
    ensures Validate(Created(o, newId, now)) == Validate(o)
    ensures Validate(WithStatus(o, status, now)) == Validate(o)
  {
    ValidityDependsOnlyOnProducts(Created(o, newId, now), o);
    ValidityDependsOnlyOnProducts(WithStatus(o, status, now), o);
  }

  /** An order found under an identifier carries that identifier, so the write
      that follows a status change goes back under the same key. */
  lemma LookupFindsRequestedId(items: map<string, Item>, id: Guid, enc: Encodings, settle: DateTime -> DateTime)
    requires Inverse(enc, settle)
    requires forall k :: k in items ==> KeyOf(items[k]) == Some(k)
    requires Lookup(items, id, enc).Success? && Lookup(items, id, enc).value.Some?
    ensures Lookup(items, id, enc).value.value.id == id
  {
    var key := enc.guidText(id);
    var o := Lookup(items, id, enc).value.value;
    assert FromItem(items[key], enc) == Success(o);
    assert enc.parseGuid(key) == Some(id);
  }

  /** The status change as `UpdateOrderStatus` applies it to what the lookup
      found: a failed read and a missing order pass through unchanged. */
  function StatusUpdate(found: Result<Option<OrderSolicitation>, MappingError>, status: OrderStatus, now: DateTime)
    : (r: Result<Option<OrderSolicitation>, MappingError>)
    ensures r.Failure? <==> found.Failure?
    ensures r.Failure? ==> r.error == found.error
    ensures r.Success? ==> (r.value.None? <==> found.value.None?)
    ensures r.Success? && r.value.Some? ==> r.value.value == WithStatus(found.value.value, status, now)
  {
    match found
    case Failure(e) => Failure(e)
    case Success(None) => Success(None)
    case Success(Some(o)) => Success(Some(WithStatus(o, status, now)))
  }

  /** After a status change is written, looking the order up again finds the new
      status, and for `Completed` the completion time, as the date encoding
      settles it. */
  lemma UpdatedOrderReadsBack(
    items: map<string, Item>, id: Guid, status: OrderStatus, now: DateTime, enc: Encodings, settle: DateTime -> DateTime)
    requires Inverse(enc, settle)
    requires forall k :: k in items ==> KeyOf(items[k]) == Some(k)
    requires Lookup(items, id, enc).Success? && Lookup(items, id, enc).value.Some?
    ensures var u := WithStatus(Lookup(items, id, enc).value.value, status, now);
      var back := Lookup(items[enc.guidText(u.id) := ToItem(u, enc)], id, enc);
      && back == Success(Some(Settled(u, settle)))
      && back.value.value.status == status
      && (status == Completed ==> back.value.value.deliveredDate == Some(settle(now)))
  {
    LookupFindsRequestedId(items, id, enc, settle);
    var u := WithStatus(Lookup(items, id, enc).value.value, status, now);
    PutThenLookup(items, u, enc, settle);
  }

  /** A created order can be found under its new identifier with every field as
      created, up to how the encodings settle timestamps and the empty anonymous
      identification. */
  lemma CreatedOrderReadsBack(
    items: map<string, Item>, order: OrderSolicitation, newId: Guid, now: DateTime, enc: Encodings, settle: DateTime -> DateTime)
    requires Inverse(enc, settle)
    ensures var c := Created(order, newId, now);
      && Lookup(items[enc.guidText(newId) := ToItem(c, enc)], newId, enc) == Success(Some(Settled(c, settle)))
      && Settled(c, settle).generateDate == settle(now)
      && Settled(c, settle).products == order.products
      && Settled(c, settle).status == order.status
  {
    PutThenLookup(items, Created(order, newId, now), enc, settle);
  }

  class OrderSolicitationService {
    const repository: OrderSolicitationRepository

    constructor (repository: OrderSolicitationRepository)
      ensures this.repository == repository
    {
      this.repository := repository;
    }

    /** Stamp the order with `newId` and `now` and store it with one put. */
    method CreateOrder(order: OrderSolicitation, newId: Guid, now: DateTime) returns (r: OrderSolicitation)
      requires repository.client.Valid()
      modifies repository.client`items, repository.client`requests
      ensures repository.client.Valid()
      ensures r == Created(order, newId, now)
      ensures repository.client.items
           == old(repository.client.items)[repository.enc.guidText(newId) := ToItem(r, repository.enc)]
      ensures repository.client.requests
           == old(repository.client.requests) + [PutItem(repository.tableName, ToItem(r, repository.enc))]
    {
      var stamped := order.(id := newId, generateDate := now);
      r := repository.Add(stamped);
    }

    /** Read the order; when it exists, change its status (stamping the delivery
        date on completion) and write it back with one put. An unknown
        identifier gives nothing and writes nothing. */
    method UpdateOrderStatus(orderId: Guid, status: OrderStatus, now: DateTime)
      returns (r: Result<Option<OrderSolicitation>, MappingError>)
      requires repository.client.Valid()
      modifies repository.client`items, repository.client`requests
      ensures repository.client.Valid()
      ensures r == StatusUpdate(old(Lookup(repository.client.items, orderId, repository.enc)), status, now)
      ensures r.Success? && r.value.Some? ==>
        && repository.client.items
           == old(repository.client.items)[repository.enc.guidText(r.value.value.id) := ToItem(r.value.value, repository.enc)]
        && repository.client.requests
           == old(repository.client.requests)
              + [GetItem(repository.tableName, repository.enc.guidText(orderId)),
                 PutItem(repository.tableName, ToItem(r.value.value, repository.enc))]
      ensures !(r.Success? && r.value.Some?) ==>
        && repository.client.items == old(repository.client.items)
        && repository.client.requests
           == old(repository.client.requests) + [GetItem(repository.tableName, repository.enc.guidText(orderId))]
    {
      ghost var before := repository.client.items;
      var found := repository.GetById(orderId);
      assert found == Lookup(before, orderId, repository.enc);
      match found {
        case Failure(e) =>
          r := Failure(e);
        case Success(None) =>
          r := Success(None);
        case Success(Some(order)) =>
          var changed := order.(status := status);
          if status == Completed {
            changed := changed.(deliveredDate := Some(now));
          }
          assert changed == WithStatus(order, status, now);
          var written := repository.Update(changed);
          r := Success(Some(written));
      }
    }

    /** Every order the store's scan returns, in the scan's order, with no
        filtering by status. */
    method GetProductionQueue() returns (r: Result<seq<OrderSolicitation>, MappingError>, ghost page: seq<Item>, ghost keys: seq<string>)
      modifies repository.client`requests
      ensures IsScanPage(page, keys, repository.client.items)
      ensures r == FromItems(page, repository.enc)
      ensures repository.client.requests == old(repository.client.requests) + [Scan(repository.tableName)]
    {
      r, page, keys := repository.GetAll();
    }
  }
}
