/** The transaction schema (server/models/transactionModel.js): the shape of
    an order record, the status enumeration with its default, the required
    paths, and the validation a new document passes before it is stored. */
module TransactionModel {
  import opened Wrappers

  /** The values the schema's `enum` admits for `status`. */
  predicate IsStatus(s: string)
  {
    s == "pending" || s == "completed" || s == "cancelled"
  }

  const DefaultStatus: string := "pending"

  datatype Address = Address(street: Option<string>, city: Option<string>, state: Option<string>,
                             zipCode: Option<string>, country: Option<string>)

  datatype Item = Item(productId: string, title: Option<string>, quantity: Option<real>,
                       price: Option<real>, thumbnail: Option<string>)

  /** A stored order. `paymentStatus` and `paidAmount` are the two paths the
      payment callback writes; the schema as written does not declare them,
      so under it they stay `None` (see `TransactionStore.ApplyUpdateStrict`). */
  datatype Transaction = Transaction(
    id: string,
    user: string,
    items: seq<Item>,
    totalAmount: real,
    status: string,
    shippingAddress: Address,
    paymentMethod: string,
    createdAt: int,
    updatedAt: int,
    paymentStatus: Option<string>,
    paidAmount: Option<real>)

  /** One line item as it arrives, before casting and validation. */
  datatype ItemInput = ItemInput(productId: Option<string>, title: Option<string>, quantity: Option<real>,
                                 price: Option<real>, thumbnail: Option<string>)

  /** The fields handed to `new Transaction({...})`; `None` is a path left
      undefined. */
  datatype TransactionInput = TransactionInput(
    user: Option<string>,
    items: seq<ItemInput>,
    totalAmount: Option<real>,
    status: Option<string>,
    shippingAddress: Address,
    paymentMethod: Option<string>)

  /** The outcome of document validation: the document, or the first path
      whose validator failed. */
  datatype Validated = Valid(doc: Transaction) | Invalid(path: string)

  /** Mongoose's `required` on a String path: `undefined` and the empty
      string both fail. */
  predicate RequiredString(v: Option<string>)
  {
    v.Some? && v.value != ""
  }

  predicate ItemsHaveProducts(items: seq<ItemInput>)
  {
    forall i :: 0 <= i < |items| ==> items[i].productId.Some?
  }

  /** Every validator of the schema passes. */
  predicate Admissible(input: TransactionInput)
  {
    && input.user.Some?
    && ItemsHaveProducts(input.items)
    && input.totalAmount.Some?
    && (input.status.None? || IsStatus(input.status.value))
    && RequiredString(input.paymentMethod)
  }

  /** The invariant every document that passed validation satisfies. */
  predicate WellFormed(t: Transaction)
  {
    IsStatus(t.status) && t.paymentMethod != "" && t.createdAt <= t.updatedAt
  }

  function CastItems(items: seq<ItemInput>): (r: seq<Item>)
    requires ItemsHaveProducts(items)
    ensures |r| == |items|
    ensures forall i :: 0 <= i < |items| ==> r[i].productId == items[i].productId.value
  {
    if items == [] then []
    else
      var it := items[0];
      [Item(it.productId.value, it.title, it.quantity, it.price, it.thumbnail)] + CastItems(items[1..])
  }

  /** The path a failing document is reported under, in schema order. */
  function FirstInvalidPath(input: TransactionInput): string
  {
    if input.user.None? then "user"
    else if !ItemsHaveProducts(input.items) then "items.productId"
    else if input.totalAmount.None? then "totalAmount"
    else if input.status.Some? && !IsStatus(input.status.value) then "status"
    else "paymentMethod"
  }

  /** `new Transaction(input)` followed by validation on `save()`, at time
      `now` under the fresh id `id`: defaults are applied (status
      `pending`), the timestamps are set, and a document that breaks a
      validator is refused. */
  function NewTransaction(id: string, input: TransactionInput, now: int): (r: Validated)
    ensures r.Valid? <==> Admissible(input)
    ensures r.Valid? ==> WellFormed(r.doc) && r.doc.id == id
    ensures r.Valid? ==> r.doc.status == (if input.status.Some? then input.status.value else DefaultStatus)
    ensures r.Valid? ==> r.doc.createdAt == now && r.doc.updatedAt == now
    ensures r.Valid? ==> r.doc.paymentStatus.None? && r.doc.paidAmount.None?
    ensures r.Invalid? ==> r.path in {"user", "items.productId", "totalAmount", "status", "paymentMethod"}
  {
    if Admissible(input) then
      Valid(Transaction(id, input.user.value, CastItems(input.items), input.totalAmount.value,
                        input.status.GetOr(DefaultStatus), input.shippingAddress, input.paymentMethod.value,
                        now, now, None, None))
    else Invalid(FirstInvalidPath(input))
  }

  /** A document created without a status is pending. */
  lemma DefaultIsPending(id: string, input: TransactionInput, now: int)
    requires Admissible(input) && input.status.None?
    ensures NewTransaction(id, input, now).Valid?
    ensures NewTransaction(id, input, now).doc.status == "pending"
  {
  }

  /** A document missing its user, its total or its payment method, or with
      an item lacking a product, is refused, and the path named is that of the
      first validator to fail. */
  lemma RequiredPaths(id: string, input: TransactionInput, now: int)
    ensures input.user.None? ==> NewTransaction(id, input, now) == Invalid("user")
    ensures input.user.Some? && (exists i :: 0 <= i < |input.items| && input.items[i].productId.None?)
      ==> NewTransaction(id, input, now) == Invalid("items.productId")
    ensures input.user.Some? && ItemsHaveProducts(input.items) && input.totalAmount.None?
      ==> NewTransaction(id, input, now) == Invalid("totalAmount")
    ensures !RequiredString(input.paymentMethod) ==> NewTransaction(id, input, now).Invalid?
  {
  }
}
