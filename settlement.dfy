/**
 * The settlement webhook and the retrieve route of server.js, as functions of the stored
 * orders: how a completed checkout session becomes an order document, what the handler
 * answers, and which orders it stores.
 */
module Settlement {
  import opened Wrappers
  import opened Js
  import opened OrderSchema
  import opened Ledger

  /** `session.customer_details` as the processor reports it. */
  datatype CustomerDetails = CustomerDetails(name: Option<string>, email: Option<string>, phone: Option<string>)

  /**
   * The `checkout.session` object of an event. `eventDataParsed` is what `JSON.parse`
   * makes of `metadata.eventData` (`None` when that text is not valid JSON); it is only
   * read when `metadata.eventData` is truthy.
   */
  datatype CheckoutSession = CheckoutSession(
    id: string,
    amountTotal: Option<int>,
    currency: Option<string>,
    customerDetails: Option<CustomerDetails>,
    metadata: Option<Metadata>,
    eventDataParsed: Option<Json>)

  datatype StripeEvent = StripeEvent(eventType: string, session: CheckoutSession)

  /** The webhook's answer: 400 with a message, or `{received: true}`. */
  datatype Response = BadRequest(body: string) | Received

  const CompletedType: string := "checkout.session.completed"
  const Anonymous: string := "Anonyme"
  const UnknownKind: string := "unknown"
  const PaidStatus: string := "paid"

  /** `session.metadata || {}`. */
  function MetadataOf(s: CheckoutSession): (m: Metadata)
    ensures s.metadata.Some? ==> m == s.metadata.value
    ensures s.metadata.None? ==> m == map[]
  {
    s.metadata.GetOr(map[])
  }

  /** `session.customer_details?.<field>`. */
  function DetailName(d: Option<CustomerDetails>): Option<string> {
    if d.Some? then d.value.name else None
  }

  function DetailEmail(d: Option<CustomerDetails>): Option<string> {
    if d.Some? then d.value.email else None
  }

  function DetailPhone(d: Option<CustomerDetails>): Option<string> {
    if d.Some? then d.value.phone else None
  }

  /**
   * The customer of a new order: each field comes from the metadata when truthy there,
   * else from the processor's customer details; the name falls back to "Anonyme", the
   * email and the phone to `null`.
   */
  function CustomerFrom(m: Metadata, d: Option<CustomerDetails>): (c: Customer)
    ensures Present(c.name)
    ensures Present(Lookup(m, "nom")) ==> c.name == Lookup(m, "nom")
    ensures !Present(Lookup(m, "nom")) && Present(DetailName(d)) ==> c.name == DetailName(d)
    ensures !Present(Lookup(m, "nom")) && !Present(DetailName(d)) ==> c.name == Some(Anonymous)
    ensures c.email.None? || Present(c.email)
    ensures Present(c.email) <==> Present(Lookup(m, "email")) || Present(DetailEmail(d))
    ensures Present(Lookup(m, "email")) ==> c.email == Lookup(m, "email")
    ensures !Present(Lookup(m, "email")) && Present(DetailEmail(d)) ==> c.email == DetailEmail(d)
    ensures c.phone.None? || Present(c.phone)
    ensures Present(c.phone) <==> Present(Lookup(m, "telephone")) || Present(DetailPhone(d))
    ensures Present(Lookup(m, "telephone")) ==> c.phone == Lookup(m, "telephone")
    ensures !Present(Lookup(m, "telephone")) && Present(DetailPhone(d)) ==> c.phone == DetailPhone(d)
  {
    Customer(
      Or(Or(Lookup(m, "nom"), DetailName(d)), Some(Anonymous)),
      Or(Or(Lookup(m, "email"), DetailEmail(d)), None),
      Or(Or(Lookup(m, "telephone"), DetailPhone(d)), None))
  }

  /**
   * `Array.isArray(eventData) ? eventData[0] : eventData`: the first element of a list
   * (`undefined` for an empty one), the value itself otherwise, nothing when absent.
   */
  function SingleEvent(eventData: Option<Json>): (r: Option<Json>)
    ensures eventData.None? ==> r.None?
    ensures eventData.Some? && !eventData.value.JArray? ==> r == eventData
    ensures eventData.Some? && eventData.value.JArray? ==>
      r == (if eventData.value.items == [] then None else Some(eventData.value.items[0]))
  {
    match eventData
    case None => None
    case Some(JArray(items)) => if items == [] then None else Some(items[0])
    case Some(j) => Some(j)
  }

  /** The event snapshot: the four named properties of a truthy value, `null` otherwise. */
  function Snapshot(single: Option<Json>): (r: Option<EventSnapshot>)
    ensures r.Some? <==> single.Some? && Truthy(single.value)
    ensures r.Some? ==>
      && r.value.title == Property(single.value, "title")
      && r.value.place == Property(single.value, "place")
      && r.value.date == Property(single.value, "date")
      && r.value.hours == Property(single.value, "hours")
  {
    if single.Some? && Truthy(single.value) then
      var j := single.value;
      Some(EventSnapshot(Property(j, "title"), Property(j, "place"), Property(j, "date"), Property(j, "hours")))
    else None
  }

  /**
   * `metadata.eventData ? JSON.parse(metadata.eventData) : null`: `Failure` when the parse
   * throws, otherwise the decoded value, or nothing when there is no event data.
   */
  function EventDataOf(m: Metadata, parsed: Option<Json>): (r: Result<Option<Json>, string>)
    ensures r.Failure? <==> Present(Lookup(m, "eventData")) && parsed.None?
    ensures r.Success? && r.value.Some? ==> Present(Lookup(m, "eventData")) && r.value == parsed
    ensures Present(Lookup(m, "eventData")) && parsed.Some? ==> r == Success(parsed)
    ensures !Present(Lookup(m, "eventData")) ==> r == Success(None)
  {
    if Present(Lookup(m, "eventData")) then
      if parsed.Some? then Success(parsed) else Failure("invalid eventData")
    else Success(None)
  }

  /** The order document the handler builds for a new session, or `None` when `JSON.parse` throws. */
  function BuildOrder(s: CheckoutSession): (r: Option<OrderDoc>)
    ensures r.None? <==> EventDataOf(MetadataOf(s), s.eventDataParsed).Failure?
    ensures r.Some? ==>
      && r.value.stripeSessionId == Some(s.id)
      && r.value.orderNumber.None?
      && r.value.createdYear.None?
      && r.value.paymentStatus == Some(PaidStatus)
      && r.value.amountTotal == Some(s.amountTotal.GetOr(0))
      && Present(r.value.currency)
      && (Present(s.currency) ==> r.value.currency == s.currency)
      && (!Present(s.currency) ==> r.value.currency == Some("eur"))
      && r.value.customer == CustomerFrom(MetadataOf(s), s.customerDetails)
      && Present(r.value.kind)
      && (Present(Lookup(MetadataOf(s), "type")) ==> r.value.kind == Lookup(MetadataOf(s), "type"))
      && (!Present(Lookup(MetadataOf(s), "type")) ==> r.value.kind == Some(UnknownKind))
      && r.value.metadata == Some(MetadataOf(s))
      && r.value.event == Snapshot(SingleEvent(EventDataOf(MetadataOf(s), s.eventDataParsed).value))
  {
    var m := MetadataOf(s);
    match EventDataOf(m, s.eventDataParsed)
    case Failure(_) => None
    case Success(eventData) =>
      Some(OrderDoc(
        stripeSessionId := Some(s.id),
        orderNumber := None,
        paymentStatus := Some(PaidStatus),
        amountTotal := Some(s.amountTotal.GetOr(0)),
        currency := Or(s.currency, Some("eur")),
        customer := CustomerFrom(m, s.customerDetails),
        kind := Or(Lookup(m, "type"), Some(UnknownKind)),
        metadata := Some(m),
        event := Snapshot(SingleEvent(eventData)),
        createdYear := None))
  }

  /**
   * The webhook handler at year `now`, given the outcome of signature verification (the
   * decoded event, or the verifier's error message): the response and the orders afterwards.
   */
  function Settle(schema: Schema, orders: seq<OrderDoc>, verified: Result<StripeEvent, string>, now: nat)
    : (r: (Response, seq<OrderDoc>))
    ensures r.0.BadRequest? <==> verified.Failure?
    ensures verified.Failure? ==> r == (BadRequest("Webhook Error: " + verified.error), orders)
    ensures verified.Success? && verified.value.eventType != CompletedType ==> r == (Received, orders)
    ensures verified.Success? && FindBySession(orders, verified.value.session.id).Some? ==> r.1 == orders
    ensures r.1 == orders || (
      && verified.Success? && verified.value.eventType == CompletedType
      && FindBySession(orders, verified.value.session.id).None?
      && BuildOrder(verified.value.session).Some?
      && InsertNew(schema, orders, Construct(schema, BuildOrder(verified.value.session).value), now).Success?
      && r.1 == orders + [InsertNew(schema, orders, Construct(schema, BuildOrder(verified.value.session).value), now).value])
  {
    match verified
    case Failure(message) => (BadRequest("Webhook Error: " + message), orders)
    case Success(event) =>
      if event.eventType != CompletedType then (Received, orders)
      else if FindBySession(orders, event.session.id).Some? then (Received, orders)
      else match BuildOrder(event.session)
        case None => (Received, orders)
        case Some(doc) =>
          match InsertNew(schema, orders, Construct(schema, doc), now)
          case Success(rec) => (Received, orders + [rec])
          case Failure(_) => (Received, orders)
  }

  /** The webhook keeps every schema and index guarantee of the stored orders. */
  lemma SettleKeepsValid(schema: Schema, orders: seq<OrderDoc>, verified: Result<StripeEvent, string>, now: nat)
    requires LedgerValid(schema, orders)
    ensures LedgerValid(schema, Settle(schema, orders, verified, now).1)
  {
    if Settle(schema, orders, verified, now).1 != orders {
      InsertNewKeepsValid(schema, orders, Construct(schema, BuildOrder(verified.value.session).value), now);
    }
  }

  /** The webhook keeps the numbering invariant. */
  lemma SettleKeepsNumberingSound(schema: Schema, orders: seq<OrderDoc>, verified: Result<StripeEvent, string>, now: nat)
    requires NumberingSound(orders)
    ensures NumberingSound(Settle(schema, orders, verified, now).1)
  {
    if Settle(schema, orders, verified, now).1 != orders {
      InsertNewKeepsNumberingSound(schema, orders, Construct(schema, BuildOrder(verified.value.session).value), now);
    }
  }

  /** Whether a session's order passes the schema's validators. */
  predicate Acceptable(schema: Schema, s: CheckoutSession) {
    BuildOrder(s).Some? && Conforms(schema, Construct(schema, BuildOrder(s).value))
  }

  /**
   * Under the server.js schema an order built from a session is valid exactly when the
   * session id is non-empty and the metadata names a known type; a missing type becomes
   * "unknown", which is outside the enum.
   */
  lemma ServerSchemaAcceptsIff(s: CheckoutSession)
    requires BuildOrder(s).Some?
    ensures Acceptable(ServerSchema, s) <==>
      && s.id != ""
      && Lookup(MetadataOf(s), "type").GetOr("") in Kinds
      && SnapshotCastErrors(BuildOrder(s).value.event) == {}
  {
    var doc := Construct(ServerSchema, BuildOrder(s).value);
    ConformsIff(ServerSchema, doc);
    assert UnknownKind !in Kinds;
  }

  /**
   * Under the models/Order.js schema no webhook order is ever valid: the handler sets the
   * status "paid", which that schema's enum does not contain.
   */
  lemma ModelSchemaRejectsEveryOrder(s: CheckoutSession)
    ensures !Acceptable(ModelSchema, s)
  {
    if BuildOrder(s).Some? {
      var doc := Construct(ModelSchema, BuildOrder(s).value);
      ConformsIff(ModelSchema, doc);
      assert PaidStatus !in ModelSchema.statuses;
    }
  }

  /** Consequently, with the models/Order.js schema the webhook never stores anything. */
  lemma ModelSchemaSettleStoresNothing(orders: seq<OrderDoc>, verified: Result<StripeEvent, string>, now: nat)
    ensures Settle(ModelSchema, orders, verified, now).1 == orders
  {
    if verified.Success? {
      ModelSchemaRejectsEveryOrder(verified.value.session);
    }
  }

  /**
   * A completed event for a new session is stored exactly when its order is valid, and
   * then as the last order, numbered with the count of this year's orders plus one.
   * Under the numbering invariant the order-number index never refuses it.
   */
  lemma SettleStoresAcceptable(schema: Schema, orders: seq<OrderDoc>, event: StripeEvent, now: nat)
    requires NumberingSound(orders) && LedgerValid(schema, orders)
    requires event.eventType == CompletedType
    requires FindBySession(orders, event.session.id).None?
    ensures var after := Settle(schema, orders, Success(event), now).1;
      && (after != orders <==> Acceptable(schema, event.session))
      && (after != orders ==>
            && |after| == |orders| + 1 && after[..|orders|] == orders
            && after[|orders|].stripeSessionId == Some(event.session.id)
            && after[|orders|].orderNumber == Some(OrderNumber.Format(now, CountFrom(orders, now))))
  {
    var after := Settle(schema, orders, Success(event), now).1;
    if Acceptable(schema, event.session) {
      var doc := Construct(schema, BuildOrder(event.session).value);
      InsertNewKeepsNumberingSound(schema, orders, doc, now);
      assert !SessionTaken(orders, doc.stripeSessionId);
      assert InsertNew(schema, orders, doc, now).Success?;
      assert after[..|orders|] == orders;
    }
  }

  /** Redelivery of an event whose session is already stored changes nothing and is acknowledged. */
  lemma RedeliveryIsAcknowledged(schema: Schema, orders: seq<OrderDoc>, event: StripeEvent, now: nat)
    requires FindBySession(orders, event.session.id).Some?
    ensures Settle(schema, orders, Success(event), now) == (Received, orders)
  {
  }

  /** An order appended for a session is found by its session id. */
  lemma FindAppended(orders: seq<OrderDoc>, rec: OrderDoc, id: string)
    requires rec.stripeSessionId == Some(id)
    ensures FindBySession(orders + [rec], id).Some?
  {
    assert (orders + [rec])[|orders|] == rec;
  }

  /**
   * Idempotency: delivering the same event a second time, in any year, leaves the orders
   * as the first delivery left them, if the first one stored the order; with the same
   * year the second delivery is always a no-op.
   */
  lemma SettleTwice(schema: Schema, orders: seq<OrderDoc>, event: StripeEvent, now1: nat, now2: nat)
    ensures var first := Settle(schema, orders, Success(event), now1).1;
      && (first != orders ==> Settle(schema, first, Success(event), now2) == (Received, first))
      && Settle(schema, first, Success(event), now1) == (Received, first)
  {
    var first := Settle(schema, orders, Success(event), now1).1;
    if first != orders {
      var doc := Construct(schema, BuildOrder(event.session).value);
      var rec := InsertNew(schema, orders, doc, now1).value;
      FindAppended(orders, rec, event.session.id);
    }
  }

  /** The orders after the same event is delivered once per year in `nows`, in order. */
  function DeliverEach(schema: Schema, orders: seq<OrderDoc>, event: StripeEvent, nows: seq<nat>): (r: seq<OrderDoc>)
    ensures |orders| <= |r|
    decreases |nows|
  {
    if nows == [] then orders
    else DeliverEach(schema, Settle(schema, orders, Success(event), nows[0]).1, event, nows[1..])
  }

  /** Once its session is stored, any number of redeliveries of an event change nothing. */
  lemma {:induction false} RedeliveriesChangeNothing(schema: Schema, orders: seq<OrderDoc>, event: StripeEvent, nows: seq<nat>)
    requires FindBySession(orders, event.session.id).Some?
    ensures DeliverEach(schema, orders, event, nows) == orders
  {
    if nows != [] {
      RedeliveryIsAcknowledged(schema, orders, event, nows[0]);
      RedeliveriesChangeNothing(schema, orders, event, nows[1..]);
    }
  }

  /**
   * Exactly one record per delivered session: delivering a valid completed event for a new
   * session one or more times stores exactly one order, with that session id, after the
   * orders that were there.
   */
  lemma DeliveredOnce(schema: Schema, orders: seq<OrderDoc>, event: StripeEvent, nows: seq<nat>)
    requires NumberingSound(orders) && LedgerValid(schema, orders)
    requires event.eventType == CompletedType && Acceptable(schema, event.session)
    requires FindBySession(orders, event.session.id).None?
    requires nows != []
    ensures var after := DeliverEach(schema, orders, event, nows);
      |after| == |orders| + 1 && after[..|orders|] == orders
      && after[|orders|].stripeSessionId == Some(event.session.id)
  {
    SettleStoresAcceptable(schema, orders, event, nows[0]);
    var first := Settle(schema, orders, Success(event), nows[0]).1;
    FindAppended(orders, first[|orders|], event.session.id);
    assert first == orders + [first[|orders|]];
    RedeliveriesChangeNothing(schema, first, event, nows[1..]);
  }

  /** An event whose order the schema refuses is never stored, however often it is delivered. */
  lemma {:induction false} RefusedNeverStored(schema: Schema, orders: seq<OrderDoc>, event: StripeEvent, nows: seq<nat>)
    requires !Acceptable(schema, event.session)
    ensures DeliverEach(schema, orders, event, nows) == orders
  {
    if nows != [] {
      assert Settle(schema, orders, Success(event), nows[0]).1 == orders;
      RefusedNeverStored(schema, orders, event, nows[1..]);
    }
  }

  // ---------------------------------------------------------------- retrieve-session

  datatype CustomerView = CustomerView(name: string, email: Option<string>, phone: Option<string>)

  /** The JSON the retrieve route returns for a stored order. */
  datatype SessionView = SessionView(
    id: Option<string>,
    orderNumber: Option<string>,
    amountTotal: Option<int>,
    currency: Option<string>,
    customerDetails: CustomerView,
    metadata: Metadata,
    kind: Option<string>,
    event: Option<EventSnapshot>)

  /** 400 when the query has no session id, 404 when no order has it, 200 with the view otherwise. */
  datatype RetrieveResponse = MissingSessionId | OrderNotFound | Found(view: SessionView)

  /** The HTTP status the retrieve route answers with. */
  function StatusCode(r: RetrieveResponse): nat {
    match r
    case MissingSessionId => 400
    case OrderNotFound => 404
    case Found(_) => 200
  }

  /** The projection of a stored order: the name defaults to "Anonyme" and the metadata to `{}`. */
  function View(o: OrderDoc): (v: SessionView)
    ensures v.customerDetails.name != ""
    ensures Present(o.customer.name) ==> v.customerDetails.name == o.customer.name.value
    ensures !Present(o.customer.name) ==> v.customerDetails.name == Anonymous
    ensures o.metadata.Some? ==> v.metadata == o.metadata.value
    ensures o.metadata.None? ==> v.metadata == map[]
    ensures v.id == o.stripeSessionId && v.orderNumber == o.orderNumber && v.kind == o.kind && v.event == o.event
    ensures v.amountTotal == o.amountTotal && v.currency == o.currency
    ensures v.customerDetails.email == o.customer.email && v.customerDetails.phone == o.customer.phone
  {
    SessionView(
      o.stripeSessionId,
      o.orderNumber,
      o.amountTotal,
      o.currency,
      CustomerView(Or(o.customer.name, Some(Anonymous)).value, o.customer.email, o.customer.phone),
      o.metadata.GetOr(map[]),
      o.kind,
      o.event)
  }

  /** `GET /api/retrieve-session?session_id=…`. */
  function Retrieve(orders: seq<OrderDoc>, query: Option<string>): (r: RetrieveResponse)
    ensures r.MissingSessionId? <==> !Present(query)
    ensures r.OrderNotFound? <==> Present(query) && !SessionTaken(orders, query)
    ensures r.Found? ==> exists i :: 0 <= i < |orders| && orders[i].stripeSessionId == query && r.view == View(orders[i])
    ensures StatusCode(r) == 400 <==> !Present(query)
    ensures StatusCode(r) == 404 <==> Present(query) && !SessionTaken(orders, query)
    ensures StatusCode(r) == 200 <==> Present(query) && SessionTaken(orders, query)
  {
    if !Present(query) then MissingSessionId
    else match FindBySession(orders, query.value)
      case None => OrderNotFound
      case Some(i) => Found(View(orders[i]))
  }

  /** With unique session ids, the order retrieve returns is THE order with that id. */
  lemma RetrieveUnique(schema: Schema, orders: seq<OrderDoc>, i: nat)
    requires LedgerValid(schema, orders)
    requires i < |orders| && Present(orders[i].stripeSessionId)
    ensures Retrieve(orders, orders[i].stripeSessionId) == Found(View(orders[i]))
  {
  }

  /**
   * Settle then retrieve: once the webhook has stored a session's order, retrieving that
   * session id returns the view of that order, with its number and the customer name.
   */
  lemma SettleThenRetrieve(schema: Schema, orders: seq<OrderDoc>, event: StripeEvent, now: nat)
    requires LedgerValid(schema, orders)
    ensures var after := Settle(schema, orders, Success(event), now).1;
      after != orders ==>
      && Retrieve(after, Some(event.session.id)) == Found(View(after[|orders|]))
      && Retrieve(after, Some(event.session.id)).view.orderNumber
           == Some(OrderNumber.Format(now, CountFrom(orders, now)))
      && Retrieve(after, Some(event.session.id)).view.customerDetails.name
           == CustomerFrom(MetadataOf(event.session), event.session.customerDetails).name.value
  {
    var after := Settle(schema, orders, Success(event), now).1;
    if after != orders {
      SettleKeepsValid(schema, orders, Success(event), now);
      RetrieveUnique(schema, after, |orders|);
    }
  }
}
