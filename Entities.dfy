/** The order aggregate and its embedded products
    (QuiosqueFood3000.Kitchen.Domain/Entities/OrderSolicitation.cs). */
module Entities {
  import opened Wrappers

  /** A 128-bit globally unique identifier. */
  type Guid = bv128

  /** `Guid.Empty`, the value of an unset `Guid` property. */
  const EmptyGuid: Guid := 0

  datatype DateTimeKind = Unspecified | Utc | Local

  /** A .NET `DateTime`: a tick count together with its kind. */
  datatype DateTime = DateTime(ticks: int, kind: DateTimeKind)

  /** `DateTime.MinValue`, the value of an unset `DateTime` property. */
  const MinDateTime := DateTime(0, Unspecified)

  /** `OrderStatus` is a C# enum, that is, a value of its underlying `int` type:
      casting any 32-bit integer to it succeeds. */
  newtype OrderStatus = x: int | -0x8000_0000 <= x < 0x8000_0000

  /** The code of `OrderStatus.Completed`. The enum's declaration is not part of
      this model, so no numeric value is assumed: every property below holds
      whatever the code is. */
  const Completed: OrderStatus

  /** A line item embedded in an order. */
  datatype Product = Product(id: Guid, name: string, description: string)

  /** The order aggregate. `None` stands for the C# `null` of the three
      nullable properties. */
  datatype OrderSolicitation = OrderSolicitation(
    id: Guid,
    status: OrderStatus,
    generateDate: DateTime,
    deliveredDate: Option<DateTime>,
    customerId: Option<Guid>,
    anonymousIdentification: Option<string>,
    products: seq<Product>)

  /** `new Product()`: name and description start as the empty string. */
  function NewProduct(): Product {
    Product(EmptyGuid, "", "")
  }

  /** `new OrderSolicitation()`: every property at its default, and an empty
      product list. */
  function NewOrderSolicitation(): OrderSolicitation {
    OrderSolicitation(EmptyGuid, 0, MinDateTime, None, None, None, [])
  }
}
