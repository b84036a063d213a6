/**
 * The order collection as a sequence of stored documents, in insertion order, and the
 * insertion of a new document: validation, the numbering hook, then the two unique
 * indexes (on the session id, and on the order number, sparse or not).
 */
module Ledger {
  import opened Wrappers
  import opened Js
  import opened OrderSchema
  import OrderNumber

  /** `countDocuments({ createdAt: { $gte: <year>-01-01 } })`: orders created in `year` or later. */
  function CountFrom(orders: seq<OrderDoc>, year: nat): (n: nat)
    ensures n <= |orders|
    ensures (forall i :: 0 <= i < |orders| ==> orders[i].createdYear.Some? && orders[i].createdYear.value >= year)
      ==> n == |orders|
    ensures (forall i :: 0 <= i < |orders| ==> !(orders[i].createdYear.Some? && orders[i].createdYear.value >= year))
      ==> n == 0
  {
    if orders == [] then 0
    else
      var last := orders[|orders| - 1];
      CountFrom(orders[..|orders| - 1], year)
        + (if last.createdYear.Some? && last.createdYear.value >= year then 1 else 0)
  }

  /** Appending an order created in `year'` counts once more for every year up to `year'`. */
  lemma CountFromAppend(orders: seq<OrderDoc>, rec: OrderDoc, year: nat)
    ensures CountFrom(orders + [rec], year)
      == CountFrom(orders, year) + (if rec.createdYear.Some? && rec.createdYear.value >= year then 1 else 0)
  {
    assert (orders + [rec])[..|orders|] == orders;
  }

  /** `findOne({ stripeSessionId: id })`: the position of the first order with that session id. */
  function FindBySession(orders: seq<OrderDoc>, id: string): (r: Option<nat>)
    ensures r.Some? ==> r.value < |orders| && orders[r.value].stripeSessionId == Some(id)
    ensures r.Some? ==> forall i :: 0 <= i < r.value ==> orders[i].stripeSessionId != Some(id)
    ensures r.None? <==> forall i :: 0 <= i < |orders| ==> orders[i].stripeSessionId != Some(id)
  {
    if orders == [] then None
    else if orders[0].stripeSessionId == Some(id) then Some(0)
    else match FindBySession(orders[1..], id)
      case None => None
      case Some(k) => Some(k + 1)
  }

  /** The unique index on `stripeSessionId` already holds this key. */
  predicate SessionTaken(orders: seq<OrderDoc>, id: Option<string>)
    ensures id.Some? ==> (SessionTaken(orders, id) <==> FindBySession(orders, id.value).Some?)
  {
    exists i :: 0 <= i < |orders| && orders[i].stripeSessionId == id
  }

  /**
   * The unique index on `orderNumber` already holds this key. A sparse index leaves out
   * documents without the field; a plain one indexes them all under `null`.
   */
  predicate NumberTaken(schema: Schema, orders: seq<OrderDoc>, number: Option<string>)
    ensures schema.sparseOrderNumber && number.None? ==> !NumberTaken(schema, orders, number)
    ensures NumberTaken(schema, orders, number) ==> exists i :: 0 <= i < |orders| && orders[i].orderNumber == number
    ensures number.Some? ==>
      (NumberTaken(schema, orders, number) <==> exists i :: 0 <= i < |orders| && orders[i].orderNumber == number)
    ensures !schema.sparseOrderNumber && number.None? ==>
      (NumberTaken(schema, orders, number) <==> exists i :: 0 <= i < |orders| && orders[i].orderNumber.None?)
  {
    (number.Some? || !schema.sparseOrderNumber)
    && exists i :: 0 <= i < |orders| && orders[i].orderNumber == number
  }

  /** No two stored orders share a session id. */
  ghost predicate SessionIdsUnique(orders: seq<OrderDoc>) {
    forall i, j :: 0 <= i < j < |orders| ==> orders[i].stripeSessionId != orders[j].stripeSessionId
  }

  /** No two stored orders share an order number (with a sparse index, several may have none). */
  ghost predicate OrderNumbersUnique(schema: Schema, orders: seq<OrderDoc>) {
    forall i, j :: 0 <= i < j < |orders| && (schema.sparseOrderNumber ==> orders[i].orderNumber.Some?) ==>
      orders[i].orderNumber != orders[j].orderNumber
  }

  /** What the schema and its indexes guarantee of the stored collection. */
  ghost predicate LedgerValid(schema: Schema, orders: seq<OrderDoc>) {
    && (forall i :: 0 <= i < |orders| ==> Conforms(schema, orders[i]) && orders[i].createdYear.Some?)
    && SessionIdsUnique(orders)
    && OrderNumbersUnique(schema, orders)
  }

  datatype SaveError = ValidationError(paths: set<string>) | DuplicateKey(path: string)

  /**
   * `doc.save()` for a new document in year `now`: validation first, then the numbering
   * hook with the count of orders created since `now` began, then the unique indexes.
   * On success the result is the stored document.
   */
  function InsertNew(schema: Schema, orders: seq<OrderDoc>, doc: OrderDoc, now: nat): (r: Result<OrderDoc, SaveError>)
    ensures r.Failure? && r.error.ValidationError? <==> !Conforms(schema, doc)
    ensures r.Success? ==>
      && Conforms(schema, r.value)
      && r.value.createdYear == Some(now)
      && Present(r.value.orderNumber)
      && !SessionTaken(orders, r.value.stripeSessionId)
      && !NumberTaken(schema, orders, r.value.orderNumber)
      && r.value == doc.(orderNumber := r.value.orderNumber, createdYear := Some(now))
    ensures r.Success? && !Present(doc.orderNumber) ==>
      r.value.orderNumber == Some(OrderNumber.Format(now, CountFrom(orders, now)))
    ensures Conforms(schema, doc) && !SessionTaken(orders, doc.stripeSessionId) ==>
      (r.Success? <==> !NumberTaken(schema, orders, AssignNumber(doc, true, now, CountFrom(orders, now)).orderNumber))
  {
    var violations := Violations(schema, doc);
    if violations != {} then Failure(ValidationError(violations))
    else
      var rec := AssignNumber(doc, true, now, CountFrom(orders, now)).(createdYear := Some(now));
      if SessionTaken(orders, rec.stripeSessionId) then Failure(DuplicateKey("stripeSessionId"))
      else if NumberTaken(schema, orders, rec.orderNumber) then Failure(DuplicateKey("orderNumber"))
      else Success(rec)
  }

  /** A successful insertion keeps every schema and index guarantee. */
  lemma InsertNewKeepsValid(schema: Schema, orders: seq<OrderDoc>, doc: OrderDoc, now: nat)
    requires LedgerValid(schema, orders)
    requires InsertNew(schema, orders, doc, now).Success?
    ensures LedgerValid(schema, orders + [InsertNew(schema, orders, doc, now).value])
  {
    var rec := InsertNew(schema, orders, doc, now).value;
    var after := orders + [rec];
    forall i, j | 0 <= i < j < |after|
      ensures after[i].stripeSessionId != after[j].stripeSessionId
    {
      if j == |orders| { assert after[i] == orders[i]; }
    }
    forall i, j | 0 <= i < j < |after| && (schema.sparseOrderNumber ==> after[i].orderNumber.Some?)
      ensures after[i].orderNumber != after[j].orderNumber
    {
      if j == |orders| { assert after[i] == orders[i]; }
    }
  }

  /**
   * The sequential numbering invariant: every stored number of the generated shape
   * carries a sequence number no larger than the count of orders created since its year.
   */
  ghost predicate NumberingSound(orders: seq<OrderDoc>) {
    forall i :: 0 <= i < |orders| ==> NumberWithinCount(orders, orders[i].orderNumber)
  }

  ghost predicate NumberWithinCount(orders: seq<OrderDoc>, number: Option<string>) {
    number.Some? ==>
      match OrderNumber.Parse(number.value)
      case None => true
      case Some(n) => n.sequence <= CountFrom(orders, n.year)
  }

  /** Counts only grow when an order is appended, so a number within count stays within count. */
  lemma WithinCountAppend(orders: seq<OrderDoc>, rec: OrderDoc, number: Option<string>)
    requires NumberWithinCount(orders, number)
    ensures NumberWithinCount(orders + [rec], number)
  {
    if number.Some? && OrderNumber.Parse(number.value).Some? {
      CountFromAppend(orders, rec, OrderNumber.Parse(number.value).value.year);
    }
  }

  /** Under the numbering invariant the number the hook generates is held by no stored order. */
  lemma GeneratedNumberFresh(orders: seq<OrderDoc>, now: nat)
    requires NumberingSound(orders)
    ensures forall i :: 0 <= i < |orders| ==>
      orders[i].orderNumber != Some(OrderNumber.Format(now, CountFrom(orders, now)))
  {
    var generated := OrderNumber.Format(now, CountFrom(orders, now));
    OrderNumber.ParseFormat(now, CountFrom(orders, now));
    forall i | 0 <= i < |orders| ensures orders[i].orderNumber != Some(generated) {
      assert NumberWithinCount(orders, orders[i].orderNumber);
    }
  }

  /**
   * Inserted sequentially, a valid new order without a number of its own is never refused
   * by the order-number index, and the numbering invariant still holds afterwards.
   */
  lemma InsertNewKeepsNumberingSound(schema: Schema, orders: seq<OrderDoc>, doc: OrderDoc, now: nat)
    requires NumberingSound(orders)
    requires !Present(doc.orderNumber)
    ensures InsertNew(schema, orders, doc, now) != Failure(DuplicateKey("orderNumber"))
    ensures InsertNew(schema, orders, doc, now).Success? ==>
      NumberingSound(orders + [InsertNew(schema, orders, doc, now).value])
  {
    var count := CountFrom(orders, now);
    GeneratedNumberFresh(orders, now);
    var r := InsertNew(schema, orders, doc, now);
    if Conforms(schema, doc) {
      var rec := AssignNumber(doc, true, now, count).(createdYear := Some(now));
      assert rec.orderNumber == Some(OrderNumber.Format(now, count));
      assert !NumberTaken(schema, orders, rec.orderNumber);
    }
    if r.Success? {
      var rec := r.value;
      var after := orders + [rec];
      forall i | 0 <= i < |after| ensures NumberWithinCount(after, after[i].orderNumber) {
        if i < |orders| {
          assert after[i] == orders[i];
          WithinCountAppend(orders, rec, orders[i].orderNumber);
        } else {
          OrderNumber.ParseFormat(now, count);
          CountFromAppend(orders, rec, now);
        }
      }
    }
  }
}
