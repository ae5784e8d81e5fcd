/** The product schema (server/models/productModel.js): reviews with their
    rating range and required text, the product's ranges, enumeration and
    defaults, and the document whose `save()` runs validation and then the
    pre-save hook that stamps `meta.updatedAt`. */
module ProductModel {
  import opened Wrappers
  import opened JsNumbers

  /** Mongoose's `required` on a String path: `undefined` and the empty
      string both fail. */
  predicate RequiredString(v: Option<string>)
  {
    v.Some? && v.value != ""
  }

  datatype Review = Review(rating: real, comment: string, date: int, reviewerName: string,
                           reviewerEmail: Option<string>, edited: bool)

  /** A review subdocument as it arrives; `None` is a path left undefined. */
  datatype ReviewInput = ReviewInput(rating: Option<real>, comment: Option<string>, date: Option<int>,
                                     reviewerName: Option<string>, reviewerEmail: Option<string>,
                                     edited: Option<bool>)

  /** A review's rating is required and lies between 1 and 5. */
  predicate ValidRating(r: real)
  {
    1.0 <= r <= 5.0
  }

  predicate ValidReview(r: Review)
  {
    ValidRating(r.rating) && r.comment != "" && r.reviewerName != ""
  }

  predicate ReviewAdmissible(input: ReviewInput)
  {
    input.rating.Some? && ValidRating(input.rating.value)
    && RequiredString(input.comment) && RequiredString(input.reviewerName)
  }

  /** Casting and validating one review at time `now`: `date` defaults to the
      current time and `edited` to false. */
  function NewReview(input: ReviewInput, now: int): (r: Option<Review>)
    ensures r.Some? <==> ReviewAdmissible(input)
    ensures r.Some? ==> ValidReview(r.value)
    ensures r.Some? ==> r.value.rating == input.rating.value && r.value.comment == input.comment.value
                        && r.value.reviewerName == input.reviewerName.value
                        && r.value.reviewerEmail == input.reviewerEmail
    ensures r.Some? ==> r.value.edited == (input.edited == Some(true))
    ensures r.Some? ==> r.value.date == (if input.date.Some? then input.date.value else now)
  {
    if ReviewAdmissible(input) then
      Some(Review(input.rating.value, input.comment.value, input.date.GetOr(now), input.reviewerName.value,
                  input.reviewerEmail, input.edited.GetOr(false)))
    else None
  }

  datatype Meta = Meta(createdAt: int, updatedAt: int, barcode: Option<string>, qrCode: Option<string>)

  /** The `meta` sub-document as given in a body; both stamps default to the
      current time. */
  datatype MetaInput = MetaInput(createdAt: Option<int>, updatedAt: Option<int>,
                                 barcode: Option<string>, qrCode: Option<string>)

  datatype Dimensions = Dimensions(width: Option<real>, height: Option<real>, depth: Option<real>)

  /** The paths no handler of the model reads or writes. */
  datatype Details = Details(tags: seq<string>, weight: Option<real>, dimensions: Option<Dimensions>,
                             warrantyInformation: Option<string>, shippingInformation: Option<string>,
                             returnPolicy: Option<string>, images: seq<string>, thumbnail: Option<string>)

  /** The values the schema's `enum` admits for `availabilityStatus`. */
  predicate IsAvailability(s: string)
  {
    s == "In Stock" || s == "Low Stock" || s == "Out of Stock"
  }

  datatype Product = Product(
    title: string,
    description: string,
    category: string,
    price: real,
    discountPercentage: real,
    rating: real,
    stock: real,
    brand: string,
    sku: string,
    availabilityStatus: string,
    reviews: seq<Review>,
    minimumOrderQuantity: real,
    meta: Option<Meta>,
    details: Details,
    createdAt: int,
    updatedAt: int)

  /** Every validator of the schema holds. */
  predicate WellFormed(p: Product)
  {
    && p.title != "" && p.description != "" && p.category != "" && p.brand != "" && p.sku != ""
    && p.price >= 0.0
    && 0.0 <= p.discountPercentage <= 100.0
    && 0.0 <= p.rating <= 5.0
    && p.stock >= 0.0
    && IsAvailability(p.availabilityStatus)
    && (forall i :: 0 <= i < |p.reviews| ==> ValidReview(p.reviews[i]))
  }

  /** The fields handed to `new Product(body)`. */
  datatype ProductInput = ProductInput(
    title: Option<string>,
    description: Option<string>,
    category: Option<string>,
    price: Option<real>,
    discountPercentage: Option<real>,
    rating: Option<real>,
    stock: Option<real>,
    brand: Option<string>,
    sku: Option<string>,
    availabilityStatus: Option<string>,
    reviews: seq<ReviewInput>,
    minimumOrderQuantity: Option<real>,
    meta: Option<MetaInput>,
    details: Details)

  /** `String.prototype.trim`, which the `title` path applies before it is
      validated. */
  function Trim(s: string): (r: string)
    ensures |r| <= |s|
    ensures r != [] ==> !IsJsWhiteSpace(r[0]) && !IsJsWhiteSpace(r[|r| - 1])
    ensures (forall i :: 0 <= i < |s| ==> IsJsWhiteSpace(s[i])) <==> r == []
  {
    var t := TrimStart(s);
    TrimStartAll(s);
    TrimEnd(t)
  }

  lemma {:induction false} TrimStartAll(s: string)
    ensures (forall i :: 0 <= i < |s| ==> IsJsWhiteSpace(s[i])) <==> TrimStart(s) == []
  {
    if s != [] && IsJsWhiteSpace(s[0]) {
      TrimStartAll(s[1..]);
      assert forall i :: 1 <= i < |s| ==> s[i] == s[1..][i - 1];
    }
  }

  function TrimEnd(s: string): (r: string)
    ensures |r| <= |s| && r == s[..|r|]
    ensures r != [] ==> !IsJsWhiteSpace(r[|r| - 1])
    ensures s != [] && !IsJsWhiteSpace(s[0]) ==> r != [] && r[0] == s[0]
    ensures r == [] <==> forall i :: 0 <= i < |s| ==> IsJsWhiteSpace(s[i])
  {
    if s != [] && IsJsWhiteSpace(s[|s| - 1]) then TrimEnd(s[..|s| - 1]) else s
  }

  predicate AllReviewsAdmissible(reviews: seq<ReviewInput>)
  {
    forall i :: 0 <= i < |reviews| ==> ReviewAdmissible(reviews[i])
  }

  function NewReviews(reviews: seq<ReviewInput>, now: int): (r: seq<Review>)
    requires AllReviewsAdmissible(reviews)
    ensures |r| == |reviews|
    ensures forall i :: 0 <= i < |r| ==> NewReview(reviews[i], now) == Some(r[i])
  {
    if reviews == [] then [] else [NewReview(reviews[0], now).value] + NewReviews(reviews[1..], now)
  }

  /** Every validator of the schema passes on the cast input. */
  predicate ProductAdmissible(input: ProductInput)
  {
    && input.title.Some? && Trim(input.title.value) != ""
    && RequiredString(input.description) && RequiredString(input.category)
    && input.price.Some? && input.price.value >= 0.0
    && (input.discountPercentage.None? || 0.0 <= input.discountPercentage.value <= 100.0)
    && (input.rating.None? || 0.0 <= input.rating.value <= 5.0)
    && input.stock.Some? && input.stock.value >= 0.0
    && RequiredString(input.brand) && RequiredString(input.sku)
    && (input.availabilityStatus.None? || IsAvailability(input.availabilityStatus.value))
    && AllReviewsAdmissible(input.reviews)
  }

  /** `new Product(body)` saved at time `now`: defaults are discount 0,
      rating 0, `In Stock` and a minimum order of 1; the title is trimmed.
      `meta` has no default, so for a body without it the pre-save hook
      throws and nothing is created. */
  function NewProduct(input: ProductInput, now: int): (r: Option<Product>)
    ensures r.Some? <==> ProductAdmissible(input) && input.meta.Some?
    ensures r.Some? ==> WellFormed(r.value)
    ensures r.Some? ==> r.value.title == Trim(input.title.value)
    ensures r.Some? && input.discountPercentage.None? ==> r.value.discountPercentage == 0.0
    ensures r.Some? && input.rating.None? ==> r.value.rating == 0.0
    ensures r.Some? && input.availabilityStatus.None? ==> r.value.availabilityStatus == "In Stock"
    ensures r.Some? && input.minimumOrderQuantity.None? ==> r.value.minimumOrderQuantity == 1.0
    ensures r.Some? ==> r.value.meta.Some?
    ensures r.Some? ==> r.value.meta.value.createdAt == input.meta.value.createdAt.GetOr(now)
                        && r.value.meta.value.updatedAt == now
                        && r.value.meta.value.barcode == input.meta.value.barcode
                        && r.value.meta.value.qrCode == input.meta.value.qrCode
                        && r.value.createdAt == now && r.value.updatedAt == now
  {
    if ProductAdmissible(input) && input.meta.Some? then
      Some(Product(Trim(input.title.value), input.description.value, input.category.value,
                   input.price.value, input.discountPercentage.GetOr(0.0), input.rating.GetOr(0.0),
                   input.stock.value, input.brand.value, input.sku.value,
                   input.availabilityStatus.GetOr("In Stock"), NewReviews(input.reviews, now),
                   input.minimumOrderQuantity.GetOr(1.0), Some(NewMeta(input.meta.value, now)), input.details,
                   now, now))
    else None
  }

  /** The cast `meta` once the pre-save hook has run: `createdAt` defaults
      to `now`, and `updatedAt` is `now` whatever was given. */
  function NewMeta(m: MetaInput, now: int): Meta
  {
    Meta(m.createdAt.GetOr(now), now, m.barcode, m.qrCode)
  }

  /** A title of white space only is missing once trimmed. */
  lemma BlankTitleRefused(input: ProductInput, now: int)
    requires input.title.Some? && forall i :: 0 <= i < |input.title.value| ==> IsJsWhiteSpace(input.title.value[i])
    ensures NewProduct(input, now).None?
  {
  }

  /** A product document in memory. The paths the review handlers change
      (`reviews`, `rating`, `meta`, `updatedAt`) are fields of their own; the
      rest are kept together in `fixed`, whose `reviews`, `rating`, `meta` and
      timestamp slots are unused. */
  class ProductDocument {
    var fixed: Product
    var reviews: seq<Review>
    var rating: real
    var meta: Option<Meta>
    var updatedAt: int

    function Value(): Product
      reads this
    {
      fixed.(reviews := reviews, rating := rating, meta := meta, updatedAt := updatedAt)
    }

    constructor (p: Product)
      ensures Value() == p
    {
      fixed := p;
      reviews := p.reviews;
      rating := p.rating;
      meta := p.meta;
      updatedAt := p.updatedAt;
    }

    /** Appending a review to the embedded array. */
    method PushReview(r: Review)
      modifies this`reviews
      ensures reviews == old(reviews) + [r]
    {
      reviews := reviews + [r];
    }

    /** The `pre('save')` hook, `this.meta.updatedAt = new Date()`: it stamps
        `meta` and nothing else, and throws (`ok` false, nothing changed)
        when the document has no `meta`. */
    method PreSave(now: int) returns (ok: bool)
      modifies this`meta
      ensures ok <==> old(meta).Some?
      ensures ok ==> meta == Some(old(meta).value.(updatedAt := now))
      ensures !ok ==> meta == old(meta)
    {
      if meta.None? {
        return false;
      }
      meta := Some(meta.value.(updatedAt := now));
      ok := true;
    }

    /** `save()` at time `now`: validation runs first, then the hook. A
        document that fails either is not written and nothing changes.
        Otherwise the hook stamps `meta.updatedAt` and the `timestamps`
        option stamps `updatedAt`. */
    method Save(now: int) returns (ok: bool)
      modifies this
      ensures ok <==> WellFormed(old(Value())) && old(meta).Some?
      ensures ok ==> Value() == old(Value()).(meta := Some(old(meta).value.(updatedAt := now)), updatedAt := now)
      ensures !ok ==> Value() == old(Value())
      ensures fixed == old(fixed)
    {
      if !WellFormed(Value()) {
        return false;
      }
      ok := PreSave(now);
      if ok {
        updatedAt := now;
      }
    }
  }
}
