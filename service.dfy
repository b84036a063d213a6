/**
 * The running server's order collection: a ledger object whose stored orders the
 * webhook extends in place, one insertion at a time.
 */
module Service {
  import opened Wrappers
  import opened Js
  import opened OrderSchema
  import opened Ledger
  import opened Settlement

  class OrderLedger {
    /** The schema the `Order` model was declared with. */
    const schema: Schema
    /** The stored orders, in insertion order. */
    var orders: seq<OrderDoc>

    ghost predicate Valid()
      reads this
    {
      LedgerValid(schema, orders)
    }

    constructor (schema: Schema)
      ensures this.schema == schema && orders == [] && Valid() && NumberingSound(orders)
    {
      this.schema := schema;
      orders := [];
    }

    /**
     * `doc.save()` on a new document in year `now`: validate, run the `pre("save")` hook
     * on the document, then insert subject to the unique indexes.
     */
    method Save(fields: OrderDoc, now: nat) returns (r: Result<OrderDoc, SaveError>)
      requires Valid()
      modifies this
      ensures Valid()
      ensures r == InsertNew(schema, old(orders), Construct(schema, fields), now)
      ensures orders == if r.Success? then old(orders) + [r.value] else old(orders)
      ensures old(NumberingSound(orders)) && !Present(fields.orderNumber) ==>
        NumberingSound(orders) && r != Failure(DuplicateKey("orderNumber"))
    {
      var doc := new OrderDocument(schema, fields);
      ghost var constructed := doc.fields;
      ghost var spec := InsertNew(schema, orders, constructed, now);
      var violations := Violations(schema, doc.fields);
      if violations != {} {
        return Failure(ValidationError(violations));
      }
      if spec.Success? {
        InsertNewKeepsValid(schema, orders, constructed, now);
      }
      if NumberingSound(orders) && !Present(constructed.orderNumber) {
        InsertNewKeepsNumberingSound(schema, orders, constructed, now);
      }
      doc.PreSave(now, CountFrom(orders, now));
      var rec := doc.fields.(createdYear := Some(now));
      assert rec == AssignNumber(constructed, true, now, CountFrom(orders, now)).(createdYear := Some(now));
      if SessionTaken(orders, rec.stripeSessionId) {
        return Failure(DuplicateKey("stripeSessionId"));
      }
      if NumberTaken(schema, orders, rec.orderNumber) {
        return Failure(DuplicateKey("orderNumber"));
      }
      assert spec == Success(rec);
      orders := orders + [rec];
      doc.isNew := false;
      r := Success(rec);
    }

    /**
     * `POST /webhook`, given the outcome of signature verification: a failure is answered
     * with 400 before the orders are looked at; a completed checkout whose session is not
     * stored yet is built into an order and saved, and a failed save is swallowed.
     */
    method Webhook(verified: Result<StripeEvent, string>, now: nat) returns (resp: Response)
      requires Valid()
      modifies this
      ensures Valid()
      ensures (resp, orders) == Settle(schema, old(orders), verified, now)
      ensures old(NumberingSound(orders)) ==> NumberingSound(orders)
    {
      if verified.Failure? {
        return BadRequest("Webhook Error: " + verified.error);
      }
      var event := verified.value;
      if event.eventType == CompletedType {
        var session := event.session;
        var existing := FindBySession(orders, session.id);
        if existing.Some? {
          return Received;
        }
        var built := BuildOrder(session);
        if built.Some? {
          var saved := Save(built.value, now);
        }
      }
      resp := Received;
    }
  }

  /**
   * Scenario: the same completed session delivered twice in a row is stored once and
   * both deliveries are acknowledged.
   */
  method DeliverTwice(ledger: OrderLedger, event: StripeEvent, now: nat) returns (first: Response, second: Response)
    requires ledger.Valid() && NumberingSound(ledger.orders)
    requires event.eventType == CompletedType && Acceptable(ledger.schema, event.session)
    requires FindBySession(ledger.orders, event.session.id).None?
    modifies ledger
    ensures ledger.Valid()
    ensures first == Received && second == Received
    ensures |ledger.orders| == |old(ledger.orders)| + 1
    ensures ledger.orders[..|old(ledger.orders)|] == old(ledger.orders)
    ensures ledger.orders[|old(ledger.orders)|].stripeSessionId == Some(event.session.id)
  {
    SettleStoresAcceptable(ledger.schema, ledger.orders, event, now);
    first := ledger.Webhook(Success(event), now);
    FindAppended(old(ledger.orders), ledger.orders[|old(ledger.orders)|], event.session.id);
    assert ledger.orders == old(ledger.orders) + [ledger.orders[|old(ledger.orders)|]];
    second := ledger.Webhook(Success(event), now);
  }
}
