# Kitchen order intake, modelled in Dafny

QuiosqueFood3000-Kitchen receives orders ("order solicitations") from the
front of house. It keeps them in a DynamoDB table and moves them through the
kitchen's statuses. This project models the service's core and proves
properties of the model:

- the **order entity** and its products;
- the **validator**: an order needs at least one product, and every product
  needs a name and a description that are not blank;
- the **persistence adapter**:
  - how an order is turned into a store item and read back;
  - the put, get-by-key and scan calls;
  - table provisioning at start-up: describe, create only when missing, then
    at most 30 readiness checks before a timeout;
- the **application service**:
  - creating an order stamps it with a new identifier and the current time;
  - a status change sets the delivery date on completion;
  - the production queue is the whole scan.

Modules, one per file:

| file | module | contents |
|---|---|---|
| `Wrappers.dfy` | `Wrappers` | `Option`, `Result` and `Outcome` |
| `Entities.dfy` | `Entities` | `OrderSolicitation`, `Product`, `OrderStatus` |
| `Decimal.dfy` | `Decimal` | the decimal text of `int.ToString` and `int.Parse` |
| `Validator.dfy` | `Validator` | the validation rules and the failures they report |
| `DynamoDb.dfy` | `DynamoDb` | the store as the adapter sees it (see below) |
| `Repository.dfy` | `Repository` | marshalling, lookups, provisioning, the adapter class |
| `Service.dfy` | `Service` | the status-change rule and the service class |

In `DynamoDb`, attribute values, items and requests are plain data.
`TableClient` is a class whose fields are:

- the table's items;
- a log of every request it receives;
- the answers it gives to successive DescribeTable calls.

Because of that log, every adapter and service method states exactly which
requests it sends.

The adapter and the service are classes whose methods change the client's
state. Each method is specified by pure functions:

| method | function |
|---|---|
| `Add` | `ToItem` |
| `GetById` | `Lookup` / `FromItem` |
| `GetAll` | `FromItems` |
| `WaitForTableToBeActive` | `Poll` |
| `InitializeTable` | `Provision` |
| `UpdateOrderStatus` | `WithStatus` |

The properties are lemmas about those functions: round trips, lookups after
writes, and how the wait ends.

The adapter relies on several library text encodings:

- `Guid.ToString` and `Guid.Parse`;
- `DateTime.ToString("O")` and `DateTime.Parse`;
- the JSON serializer for the product list.

These are parameters of the model (`Repository.Encodings`). Every property
that needs them to read back what they write states so as a premise,
`Inverse(enc, settle)`. Parsing a round-trip date may change its
`DateTimeKind`, so a timestamp is only promised to come back as
`settle(t)`. `ExactRoundTrip` states when the round trip is exact.

The clock (`DateTime.UtcNow`) and `Guid.NewGuid()` become the `now` and
`newId` parameters of the service methods.

`OrderStatus` is a C# enum, so its value is any 32-bit integer, and the
adapter's cast from the stored number has no range check. The enum's
declaration is not part of this model. `Completed` is therefore a constant
with no fixed value, and every property holds whatever its code is.

Three behaviours of the program are worth knowing when reading the model:

- **Delivery date.** The delivery date is overwritten each time an order
  enters `Completed`, and it is never cleared
  (OrderSolicitationService.cs:30-31). `CompletingStampsDelivery` and
  `LeavingCompletedKeepsDeliveryDate` state this.
- **Anonymous identification.** The anonymous identification is written as
  NULL both when it is absent and when it is the empty string
  (OrderSolicitationRepository.cs:34), so an empty one reads back as absent
  (`EmptyAnonymousComesBackAbsent`).
- **Status codes.** Any 32-bit status code is accepted when an item is read,
  because the cast at OrderSolicitationRepository.cs:94 has no range check.

## Model

| member | source | states |
|---|---|---|
| Validator.Validate | QuiosqueFood3000.Kitchen.Application/Validators/OrderSolicitationValidator.cs:9-22 | the failures the validator reports, in rule order: the products rule, then each product's name and description rules; its meaning is stated by `ValidateAcceptsExactlyValid`, `FailuresArePerPosition` and `EmptyProductsRejected` |
| Validator.IsBlank | QuiosqueFood3000.Kitchen.Application/Validators/OrderSolicitationValidator.cs:16-20 | the `NotEmpty` rule on a string refuses it exactly when it has no character other than white space; `BlankNameRejected` states this for a product name |
| Entities.NewOrderSolicitation | QuiosqueFood3000.Kitchen.Domain/Entities/OrderSolicitation.cs:8-14 | a new order has every property at its default and an empty product list; `DefaultOrderRejected` states the validator refuses it |
| Entities.NewProduct | QuiosqueFood3000.Kitchen.Domain/Entities/OrderSolicitation.cs:19-21 | a new product has an empty name and description; `DefaultProductRejected` states that both child rules refuse it |
| Validator.ValidateAcceptsExactlyValid | QuiosqueFood3000.Kitchen.Application/Validators/OrderSolicitationValidator.cs:11-21 | the validator reports no failure if and only if the order has at least one product and every product has a name and a description that are not blank (empty or white space only) |
| Validator.EachProductFailuresEmpty | QuiosqueFood3000.Kitchen.Application/Validators/OrderSolicitationValidator.cs:14-21 | the per-product rules report nothing exactly when no product has a blank name or a blank description |
| Validator.EmptyProductsRejected | QuiosqueFood3000.Kitchen.Application/Validators/OrderSolicitationValidator.cs:11-12 | an order without products gets exactly one failure, on `Products`, with the products message |
| Validator.NameFailureAt | QuiosqueFood3000.Kitchen.Application/Validators/OrderSolicitationValidator.cs:16-17 | within one product's rules, the name failure at position i is reported exactly when i is that product's position and its name is blank |
| Validator.DescriptionFailureAt | QuiosqueFood3000.Kitchen.Application/Validators/OrderSolicitationValidator.cs:19-20 | within one product's rules, the description failure at position i is reported exactly when i is that product's position and its description is blank |
| Validator.EachNameFailureAt | QuiosqueFood3000.Kitchen.Application/Validators/OrderSolicitationValidator.cs:14-17 | over a list of products, the name failure for position i is reported exactly when position i exists and that product's name is blank |
| Validator.EachDescriptionFailureAt | QuiosqueFood3000.Kitchen.Application/Validators/OrderSolicitationValidator.cs:14-20 | over a list of products, the description failure for position i is reported exactly when position i exists and that product's description is blank |
| Validator.FailuresArePerPosition | QuiosqueFood3000.Kitchen.Application/Validators/OrderSolicitationValidator.cs:14-21 | a failure at `Products[i].Name` (`Products[i].Description`) is reported if and only if product i exists and has a blank name (description) |
| Validator.BlankNameRejected | QuiosqueFood3000.Kitchen.Application/Validators/OrderSolicitationValidator.cs:16-17 | a name made only of white space is refused like an empty one, and a name with any other character passes |
| Validator.ProductPathInjective | QuiosqueFood3000.Kitchen.Application/Validators/OrderSolicitationValidator.cs:14 | the property paths of different positions or members never coincide, so failures are attributed to exactly one product member |
| Validator.ValidityDependsOnlyOnProducts | QuiosqueFood3000.Kitchen.Application/Validators/OrderSolicitationValidator.cs:11-21 | orders with the same products get the same failures, whatever their other fields |
| Validator.DefaultOrderRejected | QuiosqueFood3000.Kitchen.Domain/Entities/OrderSolicitation.cs:14 | a newly constructed order, whose product list starts empty, is rejected with the products failure only |
| Validator.DefaultProductRejected | QuiosqueFood3000.Kitchen.Domain/Entities/OrderSolicitation.cs:20-21 | an order whose only product is newly constructed gets the failures at `Products[0].Name` and then `Products[0].Description`, with their messages |
| Decimal.ParseInt32 | QuiosqueFood3000.Kitchen.Infrastructure/Repositories/OrderSolicitationRepository.cs:94 | a successful `int.Parse` yields a value within the 32-bit range |
| Decimal.IntToString | QuiosqueFood3000.Kitchen.Infrastructure/Repositories/OrderSolicitationRepository.cs:31 | the decimal text written for the status code; `Int32RoundTrip` states it reads back as the same code |
| Decimal.Int32RoundTrip | QuiosqueFood3000.Kitchen.Infrastructure/Repositories/OrderSolicitationRepository.cs:31 | reading back the decimal text written for a 32-bit status code gives the same code |
| Repository.ToItem | QuiosqueFood3000.Kitchen.Infrastructure/Repositories/OrderSolicitationRepository.cs:28-41 | the written item has the six fixed attributes, plus `DeliveredDate` only when present; it is keyed by the identifier's text; `CustomerId` is NULL exactly when absent; `AnonymousIdentification` is NULL exactly when absent or empty; a written `DeliveredDate` is never NULL |
| Repository.FromItem | QuiosqueFood3000.Kitchen.Infrastructure/Repositories/OrderSolicitationRepository.cs:89-115 | reading fails when a required attribute is missing; the id read is the parse of the item's key; the delivery date and the customer are absent exactly when their attribute is missing or NULL; the anonymous identification is present exactly when its attribute is a string, and equals it |
| Repository.ReadsBackAttributes | QuiosqueFood3000.Kitchen.Infrastructure/Repositories/OrderSolicitationRepository.cs:93-112 | each attribute of a written item reads back as the field it was written from; dates come back settled |
| Repository.RoundTrip | QuiosqueFood3000.Kitchen.Infrastructure/Repositories/OrderSolicitationRepository.cs:28-114 | reading back the item written for any order gives the order, with its timestamps settled and an empty anonymous identification made absent |
| Repository.ExactRoundTrip | QuiosqueFood3000.Kitchen.Infrastructure/Repositories/OrderSolicitationRepository.cs:28-114 | with encodings that return dates unchanged, every order whose anonymous identification is not empty survives a write and a read exactly |
| Repository.EmptyAnonymousComesBackAbsent | QuiosqueFood3000.Kitchen.Infrastructure/Repositories/OrderSolicitationRepository.cs:34 | an empty anonymous identification is written as NULL and comes back absent, so that order does not survive a round trip |
| Repository.GuidTextInjective | QuiosqueFood3000.Kitchen.Infrastructure/Repositories/OrderSolicitationRepository.cs:65 | different identifiers are stored under different keys |
| Repository.Lookup | QuiosqueFood3000.Kitchen.Infrastructure/Repositories/OrderSolicitationRepository.cs:58-75 | what `GetById` returns for the table's contents: nothing when no item is stored under the identifier's text, else the item read back; `PutThenLookup`, `PutKeepsOtherLookups` and `LookupFindsRequestedId` state its properties |
| Repository.PutThenLookup | QuiosqueFood3000.Kitchen.Infrastructure/Repositories/OrderSolicitationRepository.cs:26-75 | after a put of an order, looking up its identifier finds the order, settled |
| Repository.PutKeepsOtherLookups | QuiosqueFood3000.Kitchen.Infrastructure/Repositories/OrderSolicitationRepository.cs:26-75 | a put of an order does not change what any other identifier looks up |
| Repository.FromItems | QuiosqueFood3000.Kitchen.Infrastructure/Repositories/OrderSolicitationRepository.cs:84-86 | the scan reads back if and only if every item reads back, and then gives one order per item, in page order |
| Repository.FromItemsReportsFirstFailure | QuiosqueFood3000.Kitchen.Infrastructure/Repositories/OrderSolicitationRepository.cs:86 | a failed scan read reports the error of the first item, in page order, that cannot be read |
| Repository.CompletePageSize | QuiosqueFood3000.Kitchen.Infrastructure/Repositories/OrderSolicitationRepository.cs:84-86 | a scan page that lists every stored key has as many items as the table |
| Repository.CompletePageListsEveryStoredOrder | QuiosqueFood3000.Kitchen.Infrastructure/Repositories/OrderSolicitationRepository.cs:77-87 | when the page holds the whole table and reads back, the queue has one order per stored item, each carrying the identifier it is stored under |
| Repository.Poll | QuiosqueFood3000.Kitchen.Infrastructure/Repositories/OrderSolicitationRepository.cs:155-180 | the wait makes at most 30 describe calls, and at least one more than it started with when it ends on an answer |
| Repository.PollExplained | QuiosqueFood3000.Kitchen.Infrastructure/Repositories/OrderSolicitationRepository.cs:155-180 | success means the last call answered active; a describe failure means the last call failed with that message; a timeout means 30 calls with the message naming the table; no earlier call ended the wait |
| Repository.PollStopsAtFirstEnd | QuiosqueFood3000.Kitchen.Infrastructure/Repositories/OrderSolicitationRepository.cs:160-168 | the wait stops at the first active answer or service failure, after exactly that many calls; a missing table or an inactive status only uses up an attempt |
| Repository.PollTimesOut | QuiosqueFood3000.Kitchen.Infrastructure/Repositories/OrderSolicitationRepository.cs:157-179 | without an ending answer, the wait makes all 30 calls and fails with the timeout naming the table |
| Repository.Provision | QuiosqueFood3000.Kitchen.Infrastructure/Repositories/OrderSolicitationRepository.cs:117-153 | start-up creates the table exactly when the first describe reports it missing, and makes between 1 and 31 describe calls |
| Repository.ProvisionWhenPresent | QuiosqueFood3000.Kitchen.Infrastructure/Repositories/OrderSolicitationRepository.cs:119-122 | when the first describe answers, whatever status it reports, start-up succeeds after that one call without creating or waiting; when it fails with anything but resource-not-found, start-up fails with that failure after one call |
| Repository.TableNameOrDefault | QuiosqueFood3000.Kitchen.Infrastructure/Repositories/OrderSolicitationRepository.cs:20 | the configured table name, or `OrderSolicitations` when none is configured; the repository constructor's contract states this |
| Repository.CreateRequestFor | QuiosqueFood3000.Kitchen.Infrastructure/Repositories/OrderSolicitationRepository.cs:126-146 | the definition of a missing table: a string hash key `Id` and on-demand billing; `ProvisionWhenMissing` states it is the one create request sent |
| Repository.ProvisionWhenMissing | QuiosqueFood3000.Kitchen.Infrastructure/Repositories/OrderSolicitationRepository.cs:123-151 | for a missing table, start-up is one describe, one create with the fixed definition, then the readiness wait |
| Repository.ProvisionCreatesMissingTable | QuiosqueFood3000.Kitchen.Infrastructure/Repositories/OrderSolicitationRepository.cs:117-153 | a missing table that turns active on the k-th check is created once, and start-up succeeds after k + 2 describe calls |
| Repository.ProvisionTimesOut | QuiosqueFood3000.Kitchen.Infrastructure/Repositories/OrderSolicitationRepository.cs:148-151 | a missing table that never turns active makes start-up fail with the timeout after 31 describe calls |
| Repository.OrderSolicitationRepository.constructor | QuiosqueFood3000.Kitchen.Infrastructure/Repositories/OrderSolicitationRepository.cs:17-20 | the table name is the configured one, or `OrderSolicitations` when none is configured |
| Repository.OrderSolicitationRepository.InitializeTable | QuiosqueFood3000.Kitchen.Infrastructure/Repositories/OrderSolicitationRepository.cs:117-153 | the outcome, the number of describe calls and the exact requests sent are those of `Provision` |
| Repository.OrderSolicitationRepository.WaitForTableToBeActive | QuiosqueFood3000.Kitchen.Infrastructure/Repositories/OrderSolicitationRepository.cs:155-180 | the outcome, the describe calls made and the requests sent (only describes) are those of `Poll` |
| Repository.OrderSolicitationRepository.Add | QuiosqueFood3000.Kitchen.Infrastructure/Repositories/OrderSolicitationRepository.cs:26-51 | one put of `ToItem(entity)` under the identifier's text; the table changes only there; the entity is returned unchanged |
| Repository.OrderSolicitationRepository.Update | QuiosqueFood3000.Kitchen.Infrastructure/Repositories/OrderSolicitationRepository.cs:53-56 | the same single put as `Add`, an upsert |
| Repository.OrderSolicitationRepository.GetById | QuiosqueFood3000.Kitchen.Infrastructure/Repositories/OrderSolicitationRepository.cs:58-75 | one get by the identifier's text; the result is nothing for an unknown key, else the item read back or its mapping error; the table is unchanged |
| Repository.OrderSolicitationRepository.GetAll | QuiosqueFood3000.Kitchen.Infrastructure/Repositories/OrderSolicitationRepository.cs:77-87 | one scan; the result is `FromItems` of a page of distinct stored items; the table is unchanged |
| Repository.Open | QuiosqueFood3000.Kitchen.Infrastructure/Repositories/OrderSolicitationRepository.cs:17-24 | the adapter is obtained exactly when provisioning succeeds, with the chosen table name; otherwise the provisioning error is raised; the requests are those of `Provision` |
| Service.Created | QuiosqueFood3000.Kitchen.Application/Services/OrderSolicitationService.cs:17-21 | the created order has the new identifier and the creation time, and every other field as given |
| Service.WithStatus | QuiosqueFood3000.Kitchen.Application/Services/OrderSolicitationService.cs:29-31 | the status is replaced; the delivery date changes only to `now` and only on completion; every other field is kept |
| Service.StatusUpdate | QuiosqueFood3000.Kitchen.Application/Services/OrderSolicitationService.cs:24-34 | a read failure and a missing order pass through unchanged; a found order gets the status change |
| Service.CompletingStampsDelivery | QuiosqueFood3000.Kitchen.Application/Services/OrderSolicitationService.cs:30-31 | completing an order sets the delivery date to the current time, overwriting an earlier one |
| Service.LeavingCompletedKeepsDeliveryDate | QuiosqueFood3000.Kitchen.Application/Services/OrderSolicitationService.cs:29-31 | moving an order from `Completed` to another status keeps the delivery date it was completed at |
| Service.AnyTransitionAllowed | QuiosqueFood3000.Kitchen.Application/Services/OrderSolicitationService.cs:29 | every status can follow every status; the identifier is kept |
| Service.WithStatusIdempotent | QuiosqueFood3000.Kitchen.Application/Services/OrderSolicitationService.cs:29-31 | repeating the same status change at the same time changes nothing more |
| Service.LaterStatusWins | QuiosqueFood3000.Kitchen.Application/Services/OrderSolicitationService.cs:29-31 | of two successive changes, the second status remains; the delivery date is the second time if the second change completes, else what the first change left; products, identifier and creation time are kept |
| Service.ServiceKeepsValidation | QuiosqueFood3000.Kitchen.Application/Services/OrderSolicitationService.cs:17-31 | creating or re-statusing an order does not change the validator's verdict on it |
| Service.LookupFindsRequestedId | QuiosqueFood3000.Kitchen.Application/Services/OrderSolicitationService.cs:26-33 | an order found under an identifier carries that identifier, so the update writes back under the same key |
| Service.UpdatedOrderReadsBack | QuiosqueFood3000.Kitchen.Application/Services/OrderSolicitationService.cs:24-34 | after a status change is written, looking the order up finds the new status and, on completion, the settled completion time |
| Service.CreatedOrderReadsBack | QuiosqueFood3000.Kitchen.Application/Services/OrderSolicitationService.cs:17-21 | a created order is found under its new identifier with its creation time settled, and its products and status as given |
| Service.OrderSolicitationService.constructor | QuiosqueFood3000.Kitchen.Application/Services/OrderSolicitationService.cs:12-15 | the service holds the repository it is given |
| Service.OrderSolicitationService.CreateOrder | QuiosqueFood3000.Kitchen.Application/Services/OrderSolicitationService.cs:17-22 | the stored and returned order is `Created(order, newId, now)`, written with exactly one put under the new identifier |
| Service.OrderSolicitationService.UpdateOrderStatus | QuiosqueFood3000.Kitchen.Application/Services/OrderSolicitationService.cs:24-34 | the result is `StatusUpdate` of the lookup; the changed order is written back with one put after the get; an unknown identifier or a read failure writes nothing and sends only the get |
| Service.OrderSolicitationService.GetProductionQueue | QuiosqueFood3000.Kitchen.Application/Services/OrderSolicitationService.cs:36-39 | the queue is every order of one scan page, in page order, with no filtering by status |

## Left out

- Asynchrony: `async`/`await` and tasks are not modelled. Every operation is a sequential method.
- Timing: the one-second `Task.Delay` between readiness checks is not modelled. Only the attempt count is.
- Concurrency: races between concurrent updates of one order are not modelled. Each method runs alone against the client.
- Library encodings: `Guid`, `DateTime` and JSON text are parameters. Their round trip is a premise, and the `DateTimeKind` change of `DateTime.Parse` appears only as `settle`.
- `int.Parse` leniency: surrounding whitespace and culture-specific signs are not modelled. `Decimal.ParseInt32` accepts an optional sign and ASCII digits only.
- Exception classes: `KeyNotFoundException`, `ArgumentNullException` and the format/overflow exceptions of the parsers become `MappingError` cases. Format and overflow errors are both `BadFormat`.
- JSON products: a `null` product list in the JSON is modelled; `null` elements inside the list are not.
- Scan pagination: `GetAll` reads one scan response. The model's client answers with the whole table. The contract only promises a page of distinct stored items.
- Store failures: `CreateTable` failures and failures of put, get and scan are not modelled. A failing DescribeTable other than resource-not-found is modelled, as `DescribeFailed`.
- Constructor provisioning: the C# constructor both sets the fields and provisions the table. Here `Repository.Open` runs the constructor and then `InitializeTable`, because a Dafny constructor cannot fail.
- Null strings: a product's name or description can be null in C#, but strings here cannot. Nothing is lost, because `NotEmpty` refuses null exactly as it refuses `""`, so `""` stands for null in the validator. White space follows `char.IsWhiteSpace` (`Validator.IsWhiteSpace`).
- Property paths: the `Products[i].Name` format comes from FluentValidation's collection rules. It is modelled as the library documents it.
- Identifier uniqueness: `Guid.NewGuid` uniqueness is probabilistic. `CreateOrder` takes the new identifier as a parameter, and nothing assumes it differs from stored ones.
- Status codes: the numeric values of `OrderStatus` (Received, InProgress, Ready, Completed) are not part of this model. Only `Completed` is named, with no fixed code.
- Outside the core: the HTTP controllers, dependency-injection wiring, health check, repository interfaces and the MongoDB initialisation script are not part of this model.
