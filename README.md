# Order settlement ledger of back-modal-payment

This project models, in Dafny, the part of the back-modal-payment server that records
payments: the `POST /webhook` handler that turns a completed Stripe checkout session into
an `Order` document, the Mongoose schema rules that document must satisfy (enums, required
fields, defaults, the lower-cased email, the unique indexes on the session id and on the
order number), the `pre("save")` hook that numbers new orders `CMD-<year>-<nnnnn>`, and the
`GET /api/retrieve-session` lookup.

The order collection is an `OrderLedger` object holding the stored documents as a sequence
(`service.dfy`); the webhook method checks for an existing order, builds the document and
saves it step by step, and a save creates an `OrderDocument` object whose `PreSave` hook
sets its order number in place. Each method is proved against a function on values
(`Settle`, `InsertNew`, `AssignNumber`), and the properties are lemmas about those functions:

- a signature failure is answered 400 and leaves the orders untouched; every other outcome,
  including a swallowed save error, is answered `{received: true}`;
- redelivering a session that is already stored changes nothing, however many times and in
  whatever year; a valid new session delivered one or more times is stored exactly once;
- every stored order keeps the schema's guarantees, including at most one order per session id;
- the generated order number parses back to its year and sequence number, so distinct
  (year, count) pairs never share a number, and in a sequential run in which the server's
  local year equals the UTC year the number the hook generates is never already taken;
- an order whose metadata `type` is missing or empty becomes type `"unknown"`, and any type
  outside traineeship/show/courses (that default included) fails the enum, so the order is
  never stored;
- after the webhook stores an order, retrieving its session id returns that order's view.

The repository declares the `Order` schema twice, and the two copies differ: server.js
(used by the routes) has the payment statuses pending/paid/failed/refunded with default
"paid", optional customer fields and a plain unique index on the order number;
models/Order.js has pending/succeeded/failed/refunded with default "succeeded", requires the
customer's name and email, and makes the order-number index sparse. Both are modelled as
values of one `Schema` datatype. `ModelSchemaSettleStoresNothing` shows that under the
models/Order.js schema the webhook would never store an order, because it sets status "paid".

The code reserves no event capacity and issues no refunds (nothing decrements
`bookedPlaces`); a failed save or lookup inside the handler is logged and acknowledged with
200; an order-number collision is not retried.

Files: `wrappers.dfy` (Option, Result), `js.dfy` (truthiness, decoded JSON),
`order_number.dfy`, `order_schema.dfy`, `ledger.dfy`, `settlement.dfy`, `service.dfy`.

## Model

| member | source | states |
|---|---|---|
| OrderNumber.Decimal | server.js:48 | `String(n)` is a non-empty digit string without a leading zero (unless it is "0") whose value is `n`, i.e. the canonical decimal form |
| OrderNumber.PadStart | models/Order.js:99 | `padStart(5, "0")` keeps the string as its suffix, only adds leading zeros, and reaches at least width 5 |
| OrderNumber.Format | models/Order.js:91-99 | the generated number starts with `CMD-` and is at least 11 characters long |
| OrderNumber.FormatExample | models/Order.js:91 | the 421st order of 2025 is numbered `CMD-2025-00421` |
| OrderNumber.ParseFormat | models/Order.js:94-99 | parsing `CMD-<year>-<count+1 padded>` gives back the year and `count + 1` |
| OrderNumber.FormatInjective | models/Order.js:14-18 | two generated numbers are equal exactly when their years and counts are equal |
| OrderSchema.ToLower | models/Order.js:41 | the stored email has no upper-case letter and the same length, and is unchanged if already lower-case |
| OrderSchema.Construct | models/Order.js:21-43 | `new Order(...)` defaults status and currency only when undefined, stores the email as the given address lower-cased, and changes nothing else |
| OrderSchema.ConstructIdempotent | server.js:35-38 | constructing twice is constructing once |
| OrderSchema.SnapshotCastErrors | server.js:41 | the event snapshot fails validation exactly when one of its four `String` fields holds a list or an object without a non-empty string `_id` |
| OrderSchema.Violations | server.js:33-41 | the failing validator paths are among the session id, status, amount, customer name and email, type and the four snapshot fields |
| OrderSchema.Conforms | server.js:33-39 | a valid document has a non-empty session id and a type from the enum |
| OrderSchema.ConformsIff | models/Order.js:7-50 | a document validates exactly when the session id is a non-empty string, the status is in the enum, the amount is set, the required customer fields are non-empty, the type is one of traineeship/show/courses and the snapshot fields cast to `String` |
| OrderSchema.AssignNumber | models/Order.js:92-101 | the hook changes only the order number; a new document always leaves it numbered, with the number parsing to (year, count + 1) when it had none; otherwise the document is unchanged |
| OrderSchema.AssignNumberIdempotent | models/Order.js:93 | running the hook again keeps the first number, whatever year and count the second run sees |
| OrderSchema.OrderDocument.constructor | server.js:131 | a new document holds the constructed fields and is new |
| OrderSchema.OrderDocument.PreSave | server.js:44-51 | the in-place hook leaves the document as `AssignNumber` of its old fields |
| Ledger.CountFrom | server.js:47 | the count of orders created since the year began is at most the number of orders, all of them when every order is that recent, none when none is |
| Ledger.SessionTaken | server.js:33 | the session-id index holds a key exactly when `findOne` finds an order with it |
| Ledger.NumberTaken | server.js:34 | the order-number index refuses a present number exactly when some order already holds it; a sparse index never refuses a document without a number, a plain one refuses it exactly when another order also lacks one |
| Ledger.CountFromAppend | server.js:47 | storing an order created in year y raises the count of every year up to y by one and no other |
| Ledger.FindBySession | server.js:121 | `findOne` returns the first order with the session id, and nothing exactly when none has it |
| Ledger.InsertNew | server.js:131-149 | a save fails validation exactly when the document does not validate; a successful save is valid, dated `now`, numbered, holds a key neither unique index has, equals the document apart from number and date, and carries `Format(now, count)` when it had no number |
| Ledger.InsertNewKeepsValid | models/Order.js:7-18 | a successful save keeps every stored order valid and both unique indexes duplicate-free |
| Ledger.GeneratedNumberFresh | models/Order.js:94-99 | under the numbering invariant no stored order already has the number the hook generates |
| Ledger.InsertNewKeepsNumberingSound | server.js:44-49 | a document without a number is never refused by the order-number index and the numbering invariant survives the save |
| Settlement.MetadataOf | server.js:127 | the session's metadata, or `{}` when it has none |
| Settlement.CustomerFrom | server.js:136-140 | the name is never empty: metadata `nom`, else the processor's name, else "Anonyme"; email and phone are the metadata's when truthy, else the processor's when truthy, else null, never empty |
| Settlement.SingleEvent | server.js:129 | the snapshot source is the first element of a list (none for an empty list), the value itself otherwise, nothing when absent |
| Settlement.Snapshot | server.js:143-148 | an event snapshot exists exactly for a truthy value and holds its title, place, date and hours |
| Settlement.EventDataOf | server.js:128 | event data is decoded only when `metadata.eventData` is truthy; then the decoded value is passed on, and a parse failure is an error |
| Settlement.BuildOrder | server.js:127-149 | the built order has the session id, no number, status "paid", amount defaulting to 0, currency defaulting to "eur", the fallback customer, type defaulting to "unknown", the metadata and the snapshot; it fails only when the event data does not parse |
| Settlement.Settle | server.js:109-162 | 400 exactly on a signature failure, with the orders untouched; other events and known sessions leave the orders unchanged; otherwise at most the built, validated order is appended |
| Settlement.SettleKeepsValid | server.js:33-39 | the webhook keeps every schema and unique-index guarantee of the stored orders |
| Settlement.SettleKeepsNumberingSound | server.js:44-49 | the webhook keeps the numbering invariant |
| Settlement.ServerSchemaAcceptsIff | server.js:39-41 | under the server.js schema a built order is valid exactly when the session id is non-empty, the metadata type is a known kind and the snapshot fields cast to `String` |
| Settlement.ModelSchemaRejectsEveryOrder | models/Order.js:21-25 | under the models/Order.js schema no built order validates, since "paid" is not in its status enum |
| Settlement.ModelSchemaSettleStoresNothing | models/Order.js:21-25 | under the models/Order.js schema the webhook never stores an order |
| Settlement.SettleStoresAcceptable | server.js:121-157 | a completed event for a new session is stored exactly when its order is valid, as the last order, with the session id and the number `Format(now, count)` |
| Settlement.RedeliveryIsAcknowledged | server.js:121-125 | an event whose session is stored is acknowledged and changes nothing |
| Settlement.SettleTwice | server.js:121-125 | a second delivery leaves the orders as the first left them when it stored the order, and is always a no-op in the same year |
| Settlement.RedeliveriesChangeNothing | server.js:122-124 | any number of redeliveries of a stored session change nothing |
| Settlement.DeliveredOnce | server.js:121-149 | one or more deliveries of a valid new session store exactly one order for it |
| Settlement.RefusedNeverStored | server.js:152-157 | an event whose order the schema refuses is never stored, however often delivered |
| Settlement.View | server.js:88-100 | the projection copies the stored fields, defaults the name to "Anonyme" and the metadata to `{}` |
| Settlement.Retrieve | server.js:80-101 | status 400 exactly when the query has no session id, 404 exactly when no order has it, 200 exactly when one has it, with the view of an order with that id |
| Settlement.RetrieveUnique | server.js:85 | with unique session ids the retrieved order is the one with that id |
| Settlement.SettleThenRetrieve | server.js:85-100 | after the webhook stores a session's order, retrieve returns its view with the generated number and the fallback name |
| Service.OrderLedger.constructor | server.js:53 | a new ledger is empty and valid |
| Service.OrderLedger.Save | server.js:149 | saving behaves as `InsertNew`, appends exactly the stored order, keeps the ledger valid and, for a document without a number, the numbering invariant |
| Service.OrderLedger.Webhook | server.js:109-162 | the handler answers and updates the orders as `Settle` does, keeping the ledger valid and the numbering invariant |
| Service.DeliverTwice | server.js:121-125 | two deliveries of a valid new session are both acknowledged and store exactly one order, after the orders already stored, which are kept |

## Left out

- Stripe: `constructEvent` is an input (the decoded event or the verifier's error message); checkout-session creation and the Stripe calls of index.js are not part of this model.
- MongoDB I/O: the collection is an in-memory sequence; a lookup or save that throws for infrastructure reasons (which the handler would log and acknowledge with 200) and the retrieve route's 500 path are not modelled.
- Concurrency: the races between `findOne` and `save`, and between two `countDocuments` calls, cannot appear in this sequential model; the unique indexes are modelled as refusing a duplicate insert.
- The clock: the current year is the parameter `now`; the hook's year (`getFullYear()`, local time) and the UTC year of `createdAt` compared with `new Date("<year>-01-01")` (UTC midnight) are the same `now`. Where they differ the hook can repeat a number: on a server ahead of UTC, two deliveries late on 31 December UTC both see the next local year, both count no order created since UTC midnight of that year, and both generate `CMD-<year>-00001`; the second save fails on the unique `orderNumber` index, the handler swallows the error and answers 200, so that paid order is never stored and not redelivered. The freshness of generated numbers is proved only for a run in which the two years agree.
- `JSON.parse` of `metadata.eventData` is an input (`eventDataParsed`, `None` when the text is not valid JSON); JSON numbers are integers.
- Mongoose casting: a snapshot field that cannot be cast to String fails validation as in Mongoose, but a field that can is stored as the decoded value (a number or boolean is not turned into its text); the typed `metadata` sub-fields and strict-mode stripping of models/Order.js are not modelled; stored metadata is the session's string dictionary.
- `undefined` and `null` are both `None`, so a field explicitly set to `null` takes its default in the model while Mongoose would keep `null`; the webhook never sets such a field to `null`.
- OrderSchema.ToLower: lower-cases ASCII letters only, where JavaScript's `toLowerCase` also maps other Unicode letters.
- Saving an existing (not new) document, i.e. an update, is not modelled: the handler only creates orders; the hook's not-new branch is covered by `AssignNumber`.
- Settlement.Retrieve: only the status and the success body are modelled, not the texts of the error bodies; a `session_id` given several times in the query is not modelled.
- Logging, CORS, body parsing, `app.listen`, the `/` route and the declarative models Show, Traineeship, TrialCourse, ClassicCourse and EventCapacity, which have no operations; no capacity reservation or refund code exists to model.
