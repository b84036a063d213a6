/**
 * The order document and the rules a Mongoose schema imposes on it. The repository
 * declares two schemas for the same `Order` model: the one in server.js, which the
 * webhook and the retrieve route use, and the one in models/Order.js. They differ in
 * their payment-status enum and default, in which customer fields are required, and in
 * whether the order-number index is sparse; `Schema` captures exactly those differences.
 */
module OrderSchema {
  import opened Wrappers
  import opened Js
  import OrderNumber

  /** Processor metadata: a dictionary of strings. */
  type Metadata = map<string, string>

  datatype Customer = Customer(name: Option<string>, email: Option<string>, phone: Option<string>)

  /** The denormalised snapshot of the booked event; each field is the decoded value found there. */
  datatype EventSnapshot = EventSnapshot(title: Option<Json>, place: Option<Json>, date: Option<Json>, hours: Option<Json>)

  /** An order document. `None` is a path left `undefined` or `null`; `createdYear` is the year of `createdAt`. */
  datatype OrderDoc = OrderDoc(
    stripeSessionId: Option<string>,
    orderNumber: Option<string>,
    paymentStatus: Option<string>,
    amountTotal: Option<int>,
    currency: Option<string>,
    customer: Customer,
    kind: Option<string>,
    metadata: Option<Metadata>,
    event: Option<EventSnapshot>,
    createdYear: Option<nat>)

  /** What distinguishes the two declared schemas. */
  datatype Schema = Schema(
    statuses: set<string>,
    defaultStatus: string,
    kinds: set<string>,
    nameRequired: bool,
    emailRequired: bool,
    sparseOrderNumber: bool)

  const Kinds: set<string> := {"traineeship", "show", "courses"}
  const DefaultCurrency: string := "eur"

  /** The schema declared in server.js. */
  const ServerSchema: Schema := Schema({"pending", "paid", "failed", "refunded"}, "paid", Kinds, false, false, false)

  /** The schema declared in models/Order.js. */
  const ModelSchema: Schema := Schema({"pending", "succeeded", "failed", "refunded"}, "succeeded", Kinds, true, true, true)

  function LowerChar(c: char): char {
    if 'A' <= c <= 'Z' then (c as int + 32) as char else c
  }

  predicate IsLower(s: string) {
    forall i :: 0 <= i < |s| ==> !('A' <= s[i] <= 'Z')
  }

  /** `s.toLowerCase()` on ASCII letters; the result has no upper-case letter and the same length. */
  function ToLower(s: string): (r: string)
    ensures |r| == |s| && IsLower(r)
    ensures forall i :: 0 <= i < |s| ==> LowerChar(s[i]) == r[i]
    ensures IsLower(s) ==> r == s
  {
    seq(|s|, i requires 0 <= i < |s| => LowerChar(s[i]))
  }

  /**
   * `new Order(fields)`: the email setter lower-cases the address, and the payment status
   * and the currency take their defaults when left undefined.
   */
  function Construct(schema: Schema, doc: OrderDoc): (r: OrderDoc)
    ensures r.paymentStatus.Some? && r.currency.Some?
    ensures doc.paymentStatus.None? ==> r.paymentStatus == Some(schema.defaultStatus)
    ensures doc.currency.None? ==> r.currency == Some(DefaultCurrency)
    ensures r.customer.email.Some? ==> IsLower(r.customer.email.value)
    ensures r.customer.email == (if doc.customer.email.Some? then Some(ToLower(doc.customer.email.value)) else None)
    ensures Present(r.customer.email) <==> Present(doc.customer.email)
    ensures r == doc.(paymentStatus := r.paymentStatus, currency := r.currency,
                      customer := doc.customer.(email := r.customer.email))
    ensures doc.paymentStatus.Some? ==> r.paymentStatus == doc.paymentStatus
    ensures doc.currency.Some? ==> r.currency == doc.currency
  {
    var email := match doc.customer.email
      case None => None
      case Some(e) => Some(ToLower(e));
    doc.(paymentStatus := Some(doc.paymentStatus.GetOr(schema.defaultStatus)),
         currency := Some(doc.currency.GetOr(DefaultCurrency)),
         customer := doc.customer.(email := email))
  }

  /** Constructing an already constructed document changes nothing. */
  lemma ConstructIdempotent(schema: Schema, doc: OrderDoc)
    ensures Construct(schema, Construct(schema, doc)) == Construct(schema, doc)
  {
  }

  /**
   * Mongoose's cast of a value to `String`: `null` and absent values stay so, scalars have
   * their own `toString`, an object casts only through a non-empty string `_id`, and a list
   * or any other object is a cast error.
   */
  predicate CastsToString(v: Option<Json>) {
    match v
    case None => true
    case Some(JArray(_)) => false
    case Some(JObject(f)) => "_id" in f && f["_id"].JString? && f["_id"].s != ""
    case Some(_) => true
  }

  /** The paths of the event snapshot, all declared `String`, whose cast fails. */
  function SnapshotCastErrors(e: Option<EventSnapshot>): (r: set<string>)
    ensures r == {} <==> (e.None? ||
      (CastsToString(e.value.title) && CastsToString(e.value.place)
       && CastsToString(e.value.date) && CastsToString(e.value.hours)))
  {
    if e.None? then {}
    else
      var s := e.value;
      (if CastsToString(s.title) then {} else {"event.title"})
      + (if CastsToString(s.place) then {} else {"event.place"})
      + (if CastsToString(s.date) then {} else {"event.date"})
      + (if CastsToString(s.hours) then {} else {"event.hours"})
  }

  /**
   * The paths whose validators fail: required strings must be non-empty, the required
   * amount must be set, the status and the type must belong to their enums, and the event
   * snapshot's fields must cast to `String` (a cast error is reported by validation).
   */
  function Violations(schema: Schema, doc: OrderDoc): (r: set<string>)
    ensures r <= {"stripeSessionId", "paymentStatus", "amountTotal", "customer.name", "customer.email", "type",
                  "event.title", "event.place", "event.date", "event.hours"}
  {
    (if Present(doc.stripeSessionId) then {} else {"stripeSessionId"})
    + (if doc.paymentStatus.None? || doc.paymentStatus.value in schema.statuses then {} else {"paymentStatus"})
    + (if doc.amountTotal.Some? then {} else {"amountTotal"})
    + (if schema.nameRequired && !Present(doc.customer.name) then {"customer.name"} else {})
    + (if schema.emailRequired && !Present(doc.customer.email) then {"customer.email"} else {})
    + (if Present(doc.kind) && doc.kind.value in schema.kinds then {} else {"type"})
    + SnapshotCastErrors(doc.event)
  }

  /** A document passes validation; it then has its key, its amount and a known type. */
  predicate Conforms(schema: Schema, doc: OrderDoc)
    ensures Conforms(schema, doc) ==>
      Present(doc.stripeSessionId) && Present(doc.kind) && doc.kind.value in schema.kinds
  {
    Violations(schema, doc) == {}
  }

  /** Validation, field by field: what a stored order is guaranteed to satisfy. */
  lemma ConformsIff(schema: Schema, doc: OrderDoc)
    ensures Conforms(schema, doc) <==>
      && Present(doc.stripeSessionId)
      && (doc.paymentStatus.Some? ==> doc.paymentStatus.value in schema.statuses)
      && doc.amountTotal.Some?
      && (schema.nameRequired ==> Present(doc.customer.name))
      && (schema.emailRequired ==> Present(doc.customer.email))
      && Present(doc.kind) && doc.kind.value in schema.kinds
      && SnapshotCastErrors(doc.event) == {}
  {
    var v := Violations(schema, doc);
    if !Present(doc.stripeSessionId) { assert "stripeSessionId" in v; }
    if doc.paymentStatus.Some? && doc.paymentStatus.value !in schema.statuses { assert "paymentStatus" in v; }
    if doc.amountTotal.None? { assert "amountTotal" in v; }
    if schema.nameRequired && !Present(doc.customer.name) { assert "customer.name" in v; }
    if schema.emailRequired && !Present(doc.customer.email) { assert "customer.email" in v; }
    if !(Present(doc.kind) && doc.kind.value in schema.kinds) { assert "type" in v; }
    assert SnapshotCastErrors(doc.event) <= v;
  }

  /**
   * The `pre("save")` hook: a new document without a (truthy) order number gets the
   * number for the `count`-th order of `year`; any other document is left as it is.
   */
  function AssignNumber(doc: OrderDoc, isNew: bool, year: nat, count: nat): (r: OrderDoc)
    ensures r == doc.(orderNumber := r.orderNumber)
    ensures isNew ==> Present(r.orderNumber)
    ensures Present(doc.orderNumber) || !isNew ==> r == doc
    ensures !Present(doc.orderNumber) && isNew ==>
      OrderNumber.Parse(r.orderNumber.value) == Some(OrderNumber.Numbered(year, count + 1))
  {
    if !Present(doc.orderNumber) && isNew then
      OrderNumber.ParseFormat(year, count);
      doc.(orderNumber := Some(OrderNumber.Format(year, count)))
    else doc
  }

  /** Running the hook again, whatever the year and count, keeps the number the first run gave. */
  lemma AssignNumberIdempotent(doc: OrderDoc, isNew: bool, y1: nat, c1: nat, y2: nat, c2: nat)
    ensures AssignNumber(AssignNumber(doc, isNew, y1, c1), isNew, y2, c2) == AssignNumber(doc, isNew, y1, c1)
  {
  }

  /** A Mongoose document in memory: its paths and whether it has been saved before. */
  class OrderDocument {
    var fields: OrderDoc
    var isNew: bool

    /** `new Order(fields)`. */
    constructor (schema: Schema, fields: OrderDoc)
      ensures this.fields == Construct(schema, fields) && isNew
    {
      this.fields := Construct(schema, fields);
      isNew := true;
    }

    /** The `pre("save")` hook, which sets `this.orderNumber` in place. */
    method PreSave(year: nat, count: nat)
      modifies this
      ensures isNew == old(isNew)
      ensures fields == AssignNumber(old(fields), old(isNew), year, count)
    {
      if !Present(fields.orderNumber) && isNew {
        fields := fields.(orderNumber := Some(OrderNumber.Format(year, count)));
      }
    }
  }
}
