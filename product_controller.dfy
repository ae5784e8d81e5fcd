/** The product handlers (server/controllers/productController.js) that
    carry logic of their own: the two ways of adding a review, the paged
    review listing, and the query that `getProducts` builds. */
module ProductController {
  import opened Wrappers
  import opened JsNumbers
  import opened ProductModel
  import Sorting

  /* ---------------- adding a review ---------------- */

  /** The body of a review request; `None` is a field left out. */
  datatype ReviewRequest = ReviewRequest(rating: Option<real>, comment: Option<string>,
                                         reviewerName: Option<string>, reviewerEmail: Option<string>)

  datatype Reply = Reply(status: int, success: bool, message: string)

  /** JavaScript truthiness of an optional number and an optional string. */
  predicate TruthyNumber(v: Option<real>)
  {
    v.Some? && v.value != 0.0
  }

  predicate TruthyString(v: Option<string>)
  {
    v.Some? && v.value != ""
  }

  /** The checks `handleReview` makes before it looks the product up: the
      message of the 400 reply, or `None` when the request passes. */
  function ValidateReview(req: ReviewRequest): (r: Option<string>)
    ensures r.None? <==> req.rating.Some? && ValidRating(req.rating.value)
                         && TruthyString(req.comment) && TruthyString(req.reviewerName)
    ensures !TruthyNumber(req.rating) || !TruthyString(req.comment) || !TruthyString(req.reviewerName)
      ==> r == Some("Rating, comment, and reviewer name are required")
    ensures TruthyNumber(req.rating) && TruthyString(req.comment) && TruthyString(req.reviewerName)
            && !ValidRating(req.rating.value)
      ==> r == Some("Rating must be between 1 and 5")
  {
    if !TruthyNumber(req.rating) || !TruthyString(req.comment) || !TruthyString(req.reviewerName) then
      Some("Rating, comment, and reviewer name are required")
    else if req.rating.value < 1.0 || req.rating.value > 5.0 then
      Some("Rating must be between 1 and 5")
    else None
  }

  /** The review `handleReview` builds: no e-mail, dated now, not edited. */
  function HandledReview(req: ReviewRequest, now: int): ReviewInput
  {
    ReviewInput(req.rating, req.comment, None, req.reviewerName, None, None)
  }

  /** Passing the handler's checks is the same as passing the review schema. */
  lemma ValidatedIsAdmissible(req: ReviewRequest, now: int)
    ensures ValidateReview(req).None? <==> ReviewAdmissible(HandledReview(req, now))
  {
  }

  function SumRatings(reviews: seq<Review>): real
  {
    if reviews == [] then 0.0 else SumRatings(reviews[..|reviews| - 1]) + reviews[|reviews| - 1].rating
  }

  /** The arithmetic mean of the ratings. */
  function MeanRating(reviews: seq<Review>): real
    requires reviews != []
  {
    SumRatings(reviews) / |reviews| as real
  }

  predicate AllValid(reviews: seq<Review>)
  {
    forall i :: 0 <= i < |reviews| ==> ValidReview(reviews[i])
  }

  lemma {:induction false} SumRatingsBounds(reviews: seq<Review>)
    requires AllValid(reviews)
    ensures |reviews| as real <= SumRatings(reviews) <= 5.0 * |reviews| as real
  {
    if reviews != [] {
      SumRatingsBounds(reviews[..|reviews| - 1]);
    }
  }

  /** The mean of ratings that all lie in 1..5 lies in 1..5, and so does its
      rounding to one decimal. */
  lemma MeanRatingBounds(reviews: seq<Review>)
    requires reviews != [] && AllValid(reviews)
    ensures 1.0 <= MeanRating(reviews) <= 5.0
    ensures 1.0 <= RoundTenth(MeanRating(reviews)) <= 5.0
  {
    SumRatingsBounds(reviews);
    QuotientBounds(SumRatings(reviews), |reviews| as real);
    RoundTenthBounds(MeanRating(reviews), 10, 50);
  }

  lemma QuotientBounds(sum: real, n: real)
    requires n > 0.0 && n <= sum <= 5.0 * n
    ensures 1.0 <= sum / n <= 5.0
  {
    DivMonotone(n, sum, n);
    DivMonotone(sum, 5.0 * n, n);
  }

  lemma DivMonotone(a: real, b: real, n: real)
    requires a <= b && n > 0.0
    ensures a / n <= b / n
  {
    assert b / n - a / n == (b - a) / n;
  }

  /** `handleReview`: a request with a missing or falsy field, or a rating
      outside 1..5, gets 400 whether or not the product exists; an unknown
      product gets 404; otherwise the review is appended and the product's
      rating becomes the mean of all ratings rounded to one decimal. The save
      then succeeds unless the product has no `meta`, on which the pre-save
      hook throws and the reply is 500. */
  method HandleReview(product: ProductDocument?, req: ReviewRequest, now: int) returns (reply: Reply)
    requires product != null ==> WellFormed(product.Value())
    modifies product
    ensures ValidateReview(req).Some? ==> reply == Reply(400, false, ValidateReview(req).value)
    ensures ValidateReview(req).Some? && product != null ==> unchanged(product)
    ensures ValidateReview(req).None? && product == null ==> reply == Reply(404, false, "Product not found")
    ensures ValidateReview(req).None? && product != null ==>
      && reply == (if old(product.meta).Some? then Reply(200, true, "Review added successfully")
                   else Reply(500, false, "Error in handling review"))
      && product.reviews == old(product.reviews)
           + [Review(req.rating.value, req.comment.value, now, req.reviewerName.value, None, false)]
      && product.rating == RoundTenth(MeanRating(product.reviews))
      && product.fixed == old(product.fixed)
      && WellFormed(product.Value())
    ensures ValidateReview(req).None? && product != null && old(product.meta).Some? ==>
      product.meta == Some(old(product.meta).value.(updatedAt := now)) && product.updatedAt == now
    ensures ValidateReview(req).None? && product != null && old(product.meta).None? ==>
      product.meta.None? && product.updatedAt == old(product.updatedAt)
  {
    var invalid := ValidateReview(req);
    if invalid.Some? {
      return Reply(400, false, invalid.value);
    }
    if product == null {
      return Reply(404, false, "Product not found");
    }
    var review := NewReview(HandledReview(req, now), now).value;
    product.PushReview(review);
    if |product.reviews| > 0 {
      product.rating := RoundTenth(MeanRating(product.reviews));
    }
    MeanRatingBounds(product.reviews);
    var ok := product.Save(now);
    if !ok {
      return Reply(500, false, "Error in handling review");
    }
    reply := Reply(200, true, "Review added successfully");
  }

  /** `addReview`: no checks of its own; an unknown product gets 404, a
      review the schema refuses makes the save fail with 400 and nothing is
      written, and otherwise the review is appended with the product's rating
      the exact mean of all ratings. A product without `meta` makes the save
      fail in the pre-save hook, again with 400. */
  method AddReview(product: ProductDocument?, req: ReviewRequest, now: int) returns (reply: Reply)
    requires product != null ==> WellFormed(product.Value())
    modifies product
    ensures product == null ==> reply == Reply(404, false, "Product not found")
    ensures product != null && !ReviewAdmissible(ReviewInput(req.rating, req.comment, Some(now), req.reviewerName, req.reviewerEmail, None))
      ==> reply == Reply(400, false, "Error adding review") && unchanged(product)
    ensures product != null && ReviewAdmissible(ReviewInput(req.rating, req.comment, Some(now), req.reviewerName, req.reviewerEmail, None))
      ==>
      && reply == (if old(product.meta).Some? then Reply(200, true, "Review added successfully")
                   else Reply(400, false, "Error adding review"))
      && product.reviews == old(product.reviews)
           + [Review(req.rating.value, req.comment.value, now, req.reviewerName.value, req.reviewerEmail, false)]
      && product.rating == MeanRating(product.reviews)
      && 1.0 <= product.rating <= 5.0
      && product.fixed == old(product.fixed)
      && WellFormed(product.Value())
    ensures product != null && old(product.meta).Some?
            && ReviewAdmissible(ReviewInput(req.rating, req.comment, Some(now), req.reviewerName, req.reviewerEmail, None)) ==>
      product.meta == Some(old(product.meta).value.(updatedAt := now)) && product.updatedAt == now
    ensures product != null && old(product.meta).None?
            && ReviewAdmissible(ReviewInput(req.rating, req.comment, Some(now), req.reviewerName, req.reviewerEmail, None)) ==>
      product.meta.None? && product.updatedAt == old(product.updatedAt)
  {
    if product == null {
      return Reply(404, false, "Product not found");
    }
    var input := ReviewInput(req.rating, req.comment, Some(now), req.reviewerName, req.reviewerEmail, None);
    var review := NewReview(input, now);
    if review.None? {
      return Reply(400, false, "Error adding review");
    }
    product.PushReview(review.value);
    product.rating := MeanRating(product.reviews);
    MeanRatingBounds(product.reviews);
    var ok := product.Save(now);
    if !ok {
      return Reply(400, false, "Error adding review");
    }
    reply := Reply(200, true, "Review added successfully");
  }

  /* ---------------- listing reviews ---------------- */

  /** `Array.prototype.slice(start, end)`: a negative index counts from the
      end, and indices are clamped to the length. */
  function SliceIndex(i: int, n: nat): (k: nat)
    ensures k <= n
  {
    if i < 0 then (if n + i < 0 then 0 else n + i) else if i > n then n else i
  }

  function JsSlice<T>(s: seq<T>, start: int, end: int): (r: seq<T>)
    ensures |r| <= |s|
  {
    var a := SliceIndex(start, |s|);
    var b := SliceIndex(end, |s|);
    if a < b then s[a..b] else []
  }

  /** `?rating=` filtering: a review stays when its rating equals the parsed filter. A value
      that does not parse (`NaN`) equals no rating. */
  function KeepRating(reviews: seq<Review>, n: Option<int>): (r: seq<Review>)
    ensures forall x :: x in r <==> x in reviews && n.Some? && x.rating == n.value as real
    ensures |r| <= |reviews|
    ensures n.None? ==> r == []
  {
    if reviews == [] then []
    else
      var last := reviews[|reviews| - 1];
      KeepRating(reviews[..|reviews| - 1], n) + (if n.Some? && last.rating == n.value as real then [last] else [])
  }

  /** Sorting by date or by rating, descending unless `order` is anything
      but `desc`; any other `sortBy` compares every pair as equal. */
  predicate ReviewBefore(sortBy: string, order: string, a: Review, b: Review)
  {
    if sortBy == "date" then (if order == "desc" then a.date > b.date else a.date < b.date)
    else if sortBy == "rating" then (if order == "desc" then a.rating > b.rating else a.rating < b.rating)
    else false
  }

  function Comparator(sortBy: string, order: string): (Review, Review) -> bool
  {
    (a: Review, b: Review) => ReviewBefore(sortBy, order, a, b)
  }

  lemma ComparatorOrders(sortBy: string, order: string)
    ensures Sorting.StrictWeakOrder(Comparator(sortBy, order))
  {
  }

  /** The query of `getUserReview`; `None` is a parameter left out. */
  datatype ReviewQuery = ReviewQuery(page: Option<int>, limit: Option<int>, sortBy: Option<string>,
                                     order: Option<string>, rating: Option<string>)

  datatype ReviewPage = ReviewPage(reviews: seq<Review>, totalReviews: nat, currentPage: int,
                                   totalPages: Option<int>, hasMore: bool)

  function Filtered(reviews: seq<Review>, rating: Option<string>): seq<Review>
  {
    if TruthyString(rating) then KeepRating(reviews, ParseInt(rating.value)) else reviews
  }

  /** The page `getUserReview` returns for the product's reviews, with the
      defaults page 1, limit 3, `sortBy=date`, `order=desc`. */
  function ReviewPageOf(reviews: seq<Review>, q: ReviewQuery): ReviewPage
  {
    var page := q.page.GetOr(1);
    var limit := q.limit.GetOr(3);
    var sorted := Sorting.SortSeq(Filtered(reviews, q.rating), Comparator(q.sortBy.GetOr("date"), q.order.GetOr("desc")));
    PageOf(sorted, page, limit)
  }

  /** Page `page` of `limit` items of the sorted listing, with its figures. */
  function PageOf(sorted: seq<Review>, page: int, limit: int): ReviewPage
  {
    ReviewPage(JsSlice(sorted, (page - 1) * limit, page * limit), |sorted|, page,
               CeilDiv(|sorted|, limit), page * limit < |sorted|)
  }

  datatype PageReply = PageReply(status: int, success: bool, page: Option<ReviewPage>)

  /** `getUserReview`: 404 for an unknown product (`None`); otherwise the
      filtered reviews are copied, sorted in place, and sliced. */
  method GetUserReview(reviews: Option<seq<Review>>, q: ReviewQuery) returns (reply: PageReply)
    ensures reviews.None? ==> reply == PageReply(404, false, None)
    ensures reviews.Some? ==> reply == PageReply(200, true, Some(ReviewPageOf(reviews.value, q)))
  {
    if reviews.None? {
      return PageReply(404, false, None);
    }
    var page := q.page.GetOr(1);
    var limit := q.limit.GetOr(3);
    var sortBy := q.sortBy.GetOr("date");
    var order := q.order.GetOr("desc");
    var filteredReviews := reviews.value;
    if TruthyString(q.rating) {
      filteredReviews := KeepRating(filteredReviews, ParseInt(q.rating.value));
    }
    assert filteredReviews == Filtered(reviews.value, q.rating);
    var a := new Review[|filteredReviews|](i requires 0 <= i < |filteredReviews| => filteredReviews[i]);
    assert a[..] == filteredReviews;
    var before := Comparator(sortBy, order);
    Sorting.SortInPlace(a, before);
    var sorted := a[..];
    assert sorted == Sorting.SortSeq(Filtered(reviews.value, q.rating), before);
    reply := PageReply(200, true, Some(PageOf(sorted, page, limit)));
  }

  /** With a rating filter given, the listing holds exactly the reviews of
      that rating; a filter that does not parse keeps none; without one,
      every review is listed. All are listed once each. */
  lemma FilterExact(reviews: seq<Review>, rating: Option<string>)
    ensures TruthyString(rating) && ParseInt(rating.value).Some? ==>
      forall x :: x in Filtered(reviews, rating) <==> x in reviews && x.rating == ParseInt(rating.value).value as real
    ensures TruthyString(rating) && ParseInt(rating.value).None? ==> Filtered(reviews, rating) == []
    ensures !TruthyString(rating) ==> Filtered(reviews, rating) == reviews
  {
  }

  /** The listing is the filtered reviews rearranged: newest (or best) first
      for `desc`, oldest (or worst) first otherwise, and in their stored
      order for any other `sortBy`. */
  lemma ListingOrder(filtered: seq<Review>, sortBy: string, order: string)
    ensures var sorted := Sorting.SortSeq(filtered, Comparator(sortBy, order));
      && multiset(sorted) == multiset(filtered)
      && (sortBy == "date" && order == "desc" ==> forall i, j :: 0 <= i < j < |sorted| ==> sorted[i].date >= sorted[j].date)
      && (sortBy == "date" && order != "desc" ==> forall i, j :: 0 <= i < j < |sorted| ==> sorted[i].date <= sorted[j].date)
      && (sortBy == "rating" && order == "desc" ==> forall i, j :: 0 <= i < j < |sorted| ==> sorted[i].rating >= sorted[j].rating)
      && (sortBy == "rating" && order != "desc" ==> forall i, j :: 0 <= i < j < |sorted| ==> sorted[i].rating <= sorted[j].rating)
      && (sortBy != "date" && sortBy != "rating" ==> sorted == filtered)
  {
    var before := Comparator(sortBy, order);
    Sorting.SortSeqPermutes(filtered, before);
    ComparatorOrders(sortBy, order);
    Sorting.SortSeqSorted(filtered, before);
    if sortBy != "date" && sortBy != "rating" {
      Sorting.SortSeqUnmoved(filtered, before);
    }
  }

  /** A page of a list of `n` items holds at most `limit` of them: exactly
      those from `(page - 1) * limit` up to `page * limit` (or the end of
      the list). */
  lemma PageSlice<T>(s: seq<T>, page: int, limit: int)
    requires page >= 1 && limit >= 0
    ensures var start := (page - 1) * limit;
      var end := page * limit;
      && |JsSlice(s, start, end)| <= limit
      && (start < |s| ==> JsSlice(s, start, end) == s[start..if end < |s| then end else |s|])
      && (start >= |s| ==> JsSlice(s, start, end) == [])
  {
    var start := (page - 1) * limit;
    var end := page * limit;
    assert start >= 0 by { NonNegativeProduct(page - 1, limit); }
    assert end == start + limit;
  }

  lemma NonNegativeProduct(a: int, b: int)
    requires a >= 0 && b >= 0
    ensures a * b >= 0
  {
  }

  /** The figures of a page: `hasMore` holds exactly when items remain after
      it, the total is the number of filtered reviews, and the page count is
      that total over the limit, rounded up (none for a zero limit). */
  lemma PageFigures(reviews: seq<Review>, q: ReviewQuery)
    ensures var p := ReviewPageOf(reviews, q);
      var limit := q.limit.GetOr(3);
      && p.totalReviews == |Filtered(reviews, q.rating)|
      && (p.hasMore <==> q.page.GetOr(1) * limit < p.totalReviews)
      && (p.totalPages.None? <==> limit == 0)
      && (limit > 0 ==> (p.totalPages.value - 1) as real < p.totalReviews as real / limit as real <= p.totalPages.value as real)
      && p.currentPage == q.page.GetOr(1)
  {
  }

  /* ---------------- the product query ---------------- */

  /** The query of `getProducts`; `None` is a parameter left out. Page and
      limit are numbers already. */
  datatype ProductsRequest = ProductsRequest(category: Option<string>, brand: Option<string>,
                                             minPrice: Option<string>, maxPrice: Option<string>,
                                             sortBy: Option<string>, page: Option<int>, limit: Option<int>)

  /** `{ $gte, $lte }` on `price`. */
  datatype PriceRange = PriceRange(gte: Option<real>, lte: Option<real>)

  /** The filter object; `category` and `brand` hold the patterns of the
      case-insensitive regular expressions. */
  datatype Filter = Filter(category: Option<string>, brand: Option<string>, price: Option<PriceRange>)

  datatype SortField = ByPrice | ByRating | ByCreatedAt

  datatype ProductQuery = ProductQuery(filter: Filter, sortField: SortField, direction: int, skip: int, limit: int)

  /** The filter, sort and skip `getProducts` builds; `toNumber` is
      `Number(...)` applied to a query string. */
  method BuildProductQuery(req: ProductsRequest, toNumber: string -> real) returns (q: ProductQuery)
    ensures q.filter.category == (if TruthyString(req.category) then req.category else None)
    ensures q.filter.brand == (if TruthyString(req.brand) then req.brand else None)
    ensures q.filter.price.Some? <==> TruthyString(req.minPrice) || TruthyString(req.maxPrice)
    ensures q.filter.price.Some? ==>
      && (q.filter.price.value.gte.Some? <==> TruthyString(req.minPrice))
      && (q.filter.price.value.lte.Some? <==> TruthyString(req.maxPrice))
      && (TruthyString(req.minPrice) ==> q.filter.price.value.gte.value == toNumber(req.minPrice.value))
      && (TruthyString(req.maxPrice) ==> q.filter.price.value.lte.value == toNumber(req.maxPrice.value))
    ensures req.sortBy == Some("priceAsc") ==> q.sortField == ByPrice && q.direction == 1
    ensures req.sortBy == Some("priceDesc") ==> q.sortField == ByPrice && q.direction == -1
    ensures req.sortBy == Some("rating") ==> q.sortField == ByRating && q.direction == -1
    ensures req.sortBy !in {Some("priceAsc"), Some("priceDesc"), Some("rating")} ==>
      q.sortField == ByCreatedAt && q.direction == -1
    ensures q.limit == req.limit.GetOr(10)
    ensures q.skip == (req.page.GetOr(1) - 1) * q.limit
  {
    var filter := Filter(None, None, None);
    if TruthyString(req.category) {
      filter := filter.(category := req.category);
    }
    if TruthyString(req.brand) {
      filter := filter.(brand := req.brand);
    }
    if TruthyString(req.minPrice) || TruthyString(req.maxPrice) {
      var price := PriceRange(None, None);
      if TruthyString(req.minPrice) {
        price := price.(gte := Some(toNumber(req.minPrice.value)));
      }
      if TruthyString(req.maxPrice) {
        price := price.(lte := Some(toNumber(req.maxPrice.value)));
      }
      filter := filter.(price := Some(price));
    }
    var sortBy := req.sortBy.GetOr("createdAt");
    var field, direction;
    if sortBy == "priceAsc" {
      field, direction := ByPrice, 1;
    } else if sortBy == "priceDesc" {
      field, direction := ByPrice, -1;
    } else if sortBy == "rating" {
      field, direction := ByRating, -1;
    } else if sortBy == "newest" {
      field, direction := ByCreatedAt, -1;
    } else {
      field, direction := ByCreatedAt, -1;
    }
    var page := req.page.GetOr(1);
    var limit := req.limit.GetOr(10);
    q := ProductQuery(filter, field, direction, (page - 1) * limit, limit);
  }

  /** The figures of the `getProducts` reply for `total` matching products. */
  datatype ProductsPage = ProductsPage(currentPage: int, totalPages: Option<int>, total: nat)

  function ProductsPageOf(req: ProductsRequest, total: nat): ProductsPage
  {
    ProductsPage(req.page.GetOr(1), CeilDiv(total, req.limit.GetOr(10)), total)
  }

  /** The reply figures: the page asked for, the total, and a page count that
      is missing (`Infinity` or `NaN`) only for a zero limit. For a positive
      limit, `totalPages` pages of `limit` cover the total and one fewer do
      not, and the page the query skips to, `(page - 1) * limit`, holds
      products exactly when its number is at most `totalPages`. */
  lemma ProductsPageFigures(req: ProductsRequest, total: nat)
    ensures var p := ProductsPageOf(req, total);
      && p.currentPage == req.page.GetOr(1) && p.total == total
      && (p.totalPages.None? <==> req.limit.GetOr(10) == 0)
    ensures var p := ProductsPageOf(req, total);
      var limit := req.limit.GetOr(10);
      limit > 0 ==>
        && (p.totalPages.value - 1) * limit < total <= p.totalPages.value * limit
        && (p.currentPage >= 1 ==> ((p.currentPage - 1) * limit < total <==> p.currentPage <= p.totalPages.value))
  {
    var limit := req.limit.GetOr(10);
    if limit > 0 {
      CeilDivBetween(total, limit);
      if req.page.GetOr(1) >= 1 {
        PagesCover(req.page.GetOr(1), limit, total);
      }
    }
  }

  /** A page has products exactly when its number is at most `totalPages`. */
  lemma PagesCover(page: int, limit: int, total: nat)
    requires page >= 1 && limit > 0
    ensures (page - 1) * limit < total <==> page <= CeilDiv(total, limit).value
  {
    var c := CeilDiv(total, limit).value;
    CeilDivBetween(total, limit);
    if page <= c {
      TimesMonotone(page - 1, c - 1, limit);
    } else {
      TimesMonotone(c, page - 1, limit);
    }
  }

  /** `Math.ceil(n / d)` for a positive `d`, stated over integers. */
  lemma CeilDivBetween(n: int, d: int)
    requires d > 0
    ensures (CeilDiv(n, d).value - 1) * d < n <= CeilDiv(n, d).value * d
  {
    var c := CeilDiv(n, d).value;
    var x := n as real / d as real;
    assert x * d as real == n as real;
    RealTimesMonotone((c - 1) as real, x, d as real);
    RealTimesMonotone(x, c as real, d as real);
  }

  lemma RealTimesMonotone(a: real, b: real, k: real)
    requires k > 0.0
    ensures a < b ==> a * k < b * k
    ensures a <= b ==> a * k <= b * k
  {
  }

  lemma TimesMonotone(a: int, b: int, k: int)
    requires a <= b && k >= 0
    ensures a * k <= b * k
  {
  }
}
