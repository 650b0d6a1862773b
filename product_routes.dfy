/**
 * The product routes: rate-product (validate, then delete the caller's
 * first rating and append the new one) and deal-of-the-day (the product
 * with the largest rating sum).
 */
module ProductRoutes {
  import opened Wrappers
  import opened Models

  // ---------------------------------------------------------------------
  // The ratings list
  // ---------------------------------------------------------------------

  /** Entry `i` is the first entry of `rs` by user `u`. */
  predicate IsFirstRating(rs: seq<RatingEntry>, u: Id, i: int) {
    && 0 <= i < |rs|
    && rs[i].userId == u
    && forall j :: 0 <= j < i ==> rs[j].userId != u
  }

  /** The number of entries by user `u`. */
  function CountFor(rs: seq<RatingEntry>, u: Id): nat
  {
    if rs == [] then 0 else (if rs[0].userId == u then 1 else 0) + CountFor(rs[1..], u)
  }

  /** The entries by users other than `u`, in order. */
  function OthersOf(rs: seq<RatingEntry>, u: Id): seq<RatingEntry>
  {
    if rs == [] then [] else (if rs[0].userId == u then [] else [rs[0]]) + OthersOf(rs[1..], u)
  }

  /** The list after the scan that splices out the first entry by `u`, if any. */
  function WithoutFirstRating(rs: seq<RatingEntry>, u: Id): seq<RatingEntry>
  {
    if rs == [] then []
    else if rs[0].userId == u then rs[1..]
    else [rs[0]] + WithoutFirstRating(rs[1..], u)
  }

  /** The ratings after user `u` rates `v`: the first entry by `u` goes, `{u, v}` is pushed. */
  function Upsert(rs: seq<RatingEntry>, u: Id, v: real): seq<RatingEntry>
  {
    WithoutFirstRating(rs, u) + [RatingEntry(u, v)]
  }

  /** No user holds more than one entry. */
  ghost predicate AtMostOnePerUser(rs: seq<RatingEntry>) {
    forall u :: CountFor(rs, u) <= 1
  }

  /** Every entry is within the accepted range. */
  predicate RatingsInRange(rs: seq<RatingEntry>) {
    forall i :: 0 <= i < |rs| ==> 0.0 <= rs[i].rating <= 5.0
  }

  lemma {:induction false} CountForConcat(a: seq<RatingEntry>, b: seq<RatingEntry>, u: Id)
    ensures CountFor(a + b, u) == CountFor(a, u) + CountFor(b, u)
  {
    if a == [] {
      assert a + b == b;
    } else {
      assert (a + b)[0] == a[0] && (a + b)[1..] == a[1..] + b;
      CountForConcat(a[1..], b, u);
    }
  }

  lemma {:induction false} OthersOfConcat(a: seq<RatingEntry>, b: seq<RatingEntry>, u: Id)
    ensures OthersOf(a + b, u) == OthersOf(a, u) + OthersOf(b, u)
  {
    if a == [] {
      assert a + b == b;
    } else {
      assert (a + b)[0] == a[0] && (a + b)[1..] == a[1..] + b;
      OthersOfConcat(a[1..], b, u);
    }
  }

  /**
   * Splicing out the first entry by `u`: one fewer entry by `u` if there was
   * one, the same entries by everyone else, in the same order.
   */
  lemma {:induction false} WithoutFirstRatingCounts(rs: seq<RatingEntry>, u: Id)
    ensures |WithoutFirstRating(rs, u)| == |rs| - (if CountFor(rs, u) > 0 then 1 else 0)
    ensures CountFor(WithoutFirstRating(rs, u), u) == (if CountFor(rs, u) > 0 then CountFor(rs, u) - 1 else 0)
    ensures forall w :: w != u ==> CountFor(WithoutFirstRating(rs, u), w) == CountFor(rs, w)
    ensures OthersOf(WithoutFirstRating(rs, u), u) == OthersOf(rs, u)
  {
    if rs != [] {
      WithoutFirstRatingCounts(rs[1..], u);
      if rs[0].userId != u {
        var rest := WithoutFirstRating(rs[1..], u);
        assert ([rs[0]] + rest)[0] == rs[0] && ([rs[0]] + rest)[1..] == rest;
      } else {
        // The rest holds no further entry by `u` to count differently.
      }
    }
  }

  /** The scan stops at the first entry by `u`: the splice is `rs[..i] + rs[i + 1..]`. */
  lemma {:induction false} WithoutFirstRatingAt(rs: seq<RatingEntry>, u: Id, i: nat)
    requires IsFirstRating(rs, u, i)
    ensures WithoutFirstRating(rs, u) == rs[..i] + rs[i + 1..]
  {
    if i > 0 {
      WithoutFirstRatingAt(rs[1..], u, i - 1);
      assert rs[..i] == [rs[0]] + rs[1..][..i - 1];
      assert rs[1..][i..] == rs[i + 1..];
    }
  }

  /** After a rating, the user holds as many entries as before, or one if none. */
  lemma UpsertCounts(rs: seq<RatingEntry>, u: Id, v: real)
    ensures CountFor(Upsert(rs, u, v), u) == (if CountFor(rs, u) > 0 then CountFor(rs, u) else 1)
    ensures |Upsert(rs, u, v)| == (if CountFor(rs, u) > 0 then |rs| else |rs| + 1)
    ensures Upsert(rs, u, v)[|Upsert(rs, u, v)| - 1] == RatingEntry(u, v)
  {
    WithoutFirstRatingCounts(rs, u);
    CountForConcat(WithoutFirstRating(rs, u), [RatingEntry(u, v)], u);
    assert CountFor([RatingEntry(u, v)][1..], u) == 0;
  }

  /** A rating leaves every other user's entries in place and in their relative order. */
  lemma UpsertKeepsOthers(rs: seq<RatingEntry>, u: Id, v: real)
    ensures OthersOf(Upsert(rs, u, v), u) == OthersOf(rs, u)
    ensures forall w :: w != u ==> CountFor(Upsert(rs, u, v), w) == CountFor(rs, w)
  {
    WithoutFirstRatingCounts(rs, u);
    OthersOfConcat(WithoutFirstRating(rs, u), [RatingEntry(u, v)], u);
    assert OthersOf([RatingEntry(u, v)][1..], u) == [];
    forall w | w != u ensures CountFor(Upsert(rs, u, v), w) == CountFor(rs, w) {
      CountForConcat(WithoutFirstRating(rs, u), [RatingEntry(u, v)], w);
      assert CountFor([RatingEntry(u, v)][1..], w) == 0;
    }
  }

  /** A user with at most one entry holds exactly one afterwards: the new value, at the end. */
  lemma UpsertSingleEntry(rs: seq<RatingEntry>, u: Id, v: real)
    requires CountFor(rs, u) <= 1
    ensures CountFor(Upsert(rs, u, v), u) == 1
    ensures forall i :: 0 <= i < |Upsert(rs, u, v)| && Upsert(rs, u, v)[i].userId == u
                        ==> i == |Upsert(rs, u, v)| - 1 && Upsert(rs, u, v)[i] == RatingEntry(u, v)
  {
    UpsertCounts(rs, u, v);
    WithoutFirstRatingCounts(rs, u);
    var w := WithoutFirstRating(rs, u);
    NoEntryFor(w, u);
  }

  lemma {:induction false} NoEntryFor(rs: seq<RatingEntry>, u: Id)
    requires CountFor(rs, u) == 0
    ensures forall i :: 0 <= i < |rs| ==> rs[i].userId != u
  {
    if rs != [] {
      NoEntryFor(rs[1..], u);
      assert forall i :: 1 <= i < |rs| ==> rs[i] == rs[1..][i - 1];
    }
  }

  /** Rating preserves "at most one entry per user". */
  lemma UpsertKeepsAtMostOne(rs: seq<RatingEntry>, u: Id, v: real)
    requires AtMostOnePerUser(rs)
    ensures AtMostOnePerUser(Upsert(rs, u, v))
  {
    UpsertCounts(rs, u, v);
    UpsertKeepsOthers(rs, u, v);
  }

  /** Rating as `u` with `r1` and then `r2` leaves one entry for `u`, holding `r2`. */
  lemma RateTwice(rs: seq<RatingEntry>, u: Id, r1: real, r2: real)
    requires CountFor(rs, u) <= 1
    ensures var after := Upsert(Upsert(rs, u, r1), u, r2);
            && CountFor(after, u) == 1
            && after[|after| - 1] == RatingEntry(u, r2)
            && OthersOf(after, u) == OthersOf(rs, u)
  {
    UpsertSingleEntry(rs, u, r1);
    UpsertSingleEntry(Upsert(rs, u, r1), u, r2);
    UpsertKeepsOthers(rs, u, r1);
    UpsertKeepsOthers(Upsert(rs, u, r1), u, r2);
  }

  // ---------------------------------------------------------------------
  // Rating sums
  // ---------------------------------------------------------------------

  /** The sum of the `rating` fields, accumulated left to right. */
  function RatingSum(rs: seq<RatingEntry>): real
  {
    if rs == [] then 0.0 else RatingSum(rs[..|rs| - 1]) + rs[|rs| - 1].rating
  }

  lemma {:induction false} RatingSumConcat(a: seq<RatingEntry>, b: seq<RatingEntry>)
    ensures RatingSum(a + b) == RatingSum(a) + RatingSum(b)
  {
    if b == [] {
      assert a + b == a;
    } else {
      assert (a + b)[..|a + b| - 1] == a + b[..|b| - 1];
      RatingSumConcat(a, b[..|b| - 1]);
    }
  }

  /** With every entry in [0, 5], the sum lies between 0 and 5 per entry. */
  lemma {:induction false} RatingSumBounds(rs: seq<RatingEntry>)
    requires RatingsInRange(rs)
    ensures 0.0 <= RatingSum(rs) <= 5.0 * |rs| as real
  {
    if rs != [] {
      RatingSumBounds(rs[..|rs| - 1]);
    }
  }

  /** Re-rating replaces the user's old value in the sum. */
  lemma UpsertSum(rs: seq<RatingEntry>, u: Id, v: real, i: nat)
    requires IsFirstRating(rs, u, i)
    ensures RatingSum(Upsert(rs, u, v)) == RatingSum(rs) - rs[i].rating + v
  {
    WithoutFirstRatingAt(rs, u, i);
    assert rs == rs[..i] + [rs[i]] + rs[i + 1..];
    RatingSumConcat(rs[..i] + [rs[i]], rs[i + 1..]);
    RatingSumConcat(rs[..i], [rs[i]]);
    RatingSumConcat(rs[..i], rs[i + 1..]);
    RatingSumConcat(rs[..i] + rs[i + 1..], [RatingEntry(u, v)]);
    assert [rs[i]][..0] == [];
    assert [RatingEntry(u, v)][..0] == [];
  }

  /** With no entry by `u` the scan removes nothing. */
  lemma {:induction false} WithoutAbsentRating(rs: seq<RatingEntry>, u: Id)
    requires CountFor(rs, u) == 0
    ensures WithoutFirstRating(rs, u) == rs
  {
    if rs != [] {
      WithoutAbsentRating(rs[1..], u);
    }
  }

  /** A first rating adds its value to the sum. */
  lemma UpsertSumFirstRating(rs: seq<RatingEntry>, u: Id, v: real)
    requires CountFor(rs, u) == 0
    ensures RatingSum(Upsert(rs, u, v)) == RatingSum(rs) + v
  {
    WithoutAbsentRating(rs, u);
    RatingSumConcat(rs, [RatingEntry(u, v)]);
    assert [RatingEntry(u, v)][..0] == [];
  }

  /** A rating in range keeps every entry in range. */
  lemma {:induction false} UpsertInRange(rs: seq<RatingEntry>, u: Id, v: real)
    requires RatingsInRange(rs) && 0.0 <= v <= 5.0
    ensures RatingsInRange(Upsert(rs, u, v))
  {
    WithoutFirstInRange(rs, u);
  }

  lemma {:induction false} WithoutFirstInRange(rs: seq<RatingEntry>, u: Id)
    requires RatingsInRange(rs)
    ensures RatingsInRange(WithoutFirstRating(rs, u))
  {
    if rs != [] {
      assert RatingsInRange(rs[1..]) by {
        forall i | 0 <= i < |rs[1..]| ensures 0.0 <= rs[1..][i].rating <= 5.0 { assert rs[1..][i] == rs[i + 1]; }
      }
      WithoutFirstInRange(rs[1..], u);
    }
  }

  /** The comparator's accumulator loop over one product's ratings. */
  method SumRatings(rs: seq<RatingEntry>) returns (sum: real)
    ensures sum == RatingSum(rs)
  {
    sum := 0.0;
    var i := 0;
    while i < |rs|
      invariant 0 <= i <= |rs|
      invariant sum == RatingSum(rs[..i])
    {
      assert rs[..i + 1][..i] == rs[..i];
      sum := sum + rs[i].rating;
      i := i + 1;
    }
    assert rs[..i] == rs;
  }

  // ---------------------------------------------------------------------
  // The handlers
  // ---------------------------------------------------------------------

  /** What `Number(rating)` gives. */
  datatype JsNumber = NaN | Infinity(negative: bool) | Finite(value: real)

  /** The request body's `rating`: undefined, null, or a value and its `Number(...)`. */
  datatype RatingInput = Undefined | Null | Given(number: JsNumber)

  /** `isNaN(n) || n < 0 || n > 5`: only finite values in [0, 5] get through. */
  predicate Rejected(n: JsNumber)
    ensures !Rejected(n) <==> n.Finite? && 0.0 <= n.value <= 5.0
  {
    match n
    case NaN => true
    case Infinity(negative) => true
    case Finite(v) => v < 0.0 || v > 5.0
  }

  /** The handler's index scan: `splice(i, 1)` at the first entry by `userId`, then `break`. */
  method SpliceOutOwnRating(ratings: seq<RatingEntry>, userId: Id) returns (rest: seq<RatingEntry>)
    ensures rest == WithoutFirstRating(ratings, userId)
  {
    rest := ratings;
    var i := 0;
    while i < |rest|
      invariant 0 <= i <= |rest| && rest == ratings
      invariant WithoutFirstRating(ratings, userId) == ratings[..i] + WithoutFirstRating(ratings[i..], userId)
    {
      assert ratings[i..][1..] == ratings[i + 1..];
      if rest[i].userId == userId {
        rest := rest[..i] + rest[i + 1..];
        break;
      }
      assert ratings[..i + 1] == ratings[..i] + [ratings[i]];
      i := i + 1;
    }
  }

  /**
   * POST /api/rate-product. A missing id, a missing rating and a rating
   * outside [0, 5] are each a 400, checked in that order; then an unknown
   * product is a 404. On success the caller's first entry is spliced out,
   * `{userId, rating}` is pushed and the product saved. Nothing changes on
   * an error.
   * An `Err(e)` result is answered with the status `HttpStatus(e)`, or with
   * no response when that is None.
   */
  method RateProduct(db: Store, userId: Id, id: Option<Id>, rating: RatingInput) returns (r: Result<Product, ApiError>)
    requires db.Valid()
    modifies db
    ensures db.Valid()
    ensures db.users == old(db.users) && db.orders == old(db.orders)
    ensures r.Err? ==> db.products == old(db.products)
    ensures Missing(id) ==> r == Err(MissingProductId)
    ensures !Missing(id) && (rating.Undefined? || rating.Null?) ==> r == Err(MissingRating)
    ensures !Missing(id) && rating.Given? && Rejected(rating.number) ==> r == Err(InvalidRating)
    ensures !Missing(id) && rating.Given? && !Rejected(rating.number) ==>
              if id.value !in old(db.products) then r == Err(ProductNotFound)
              else
                var p := old(db.products)[id.value];
                var rated := p.(ratings := Upsert(p.ratings, userId, rating.number.value));
                r == Ok(rated) && db.products == old(db.products)[id.value := rated]
  {
    if Missing(id) {
      return Err(MissingProductId);
    }
    if rating.Undefined? || rating.Null? {
      return Err(MissingRating);
    }
    if Rejected(rating.number) {
      return Err(InvalidRating);
    }
    var value := rating.number.value;
    if id.value !in db.products {
      return Err(ProductNotFound);
    }
    var product := db.products[id.value];
    var ratings := SpliceOutOwnRating(product.ratings, userId);
    ratings := ratings + [RatingEntry(userId, value)];
    product := product.(ratings := ratings);
    db.products := db.products[id.value := product];
    r := Ok(product);
  }

  /** `listing` is the whole catalog, as `Product.find({})` returns it. */
  ghost predicate ListsCatalog(products: map<Id, Product>, listing: seq<Product>) {
    && (forall i :: 0 <= i < |listing| ==> listing[i] in products.Values)
    && (forall k :: k in products ==> products[k] in listing)
  }

  /**
   * GET /api/deal-of-the-day over `listing`, the catalog in the order the
   * store returns it: no product on an empty catalog, otherwise a catalog
   * product whose rating sum no other product exceeds.
   */
  method DealOfTheDay(db: Store, listing: seq<Product>) returns (deal: Option<Product>)
    requires ListsCatalog(db.products, listing)
    ensures deal.None? <==> listing == []
    ensures deal.None? <==> db.products == map[]
    ensures deal.Some? ==> deal.value in listing && deal.value in db.products.Values
    ensures deal.Some? ==> forall q :: q in listing ==> RatingSum(q.ratings) <= RatingSum(deal.value.ratings)
    ensures deal.Some? ==> forall k :: k in db.products ==> RatingSum(db.products[k].ratings) <= RatingSum(deal.value.ratings)
  {
    if |listing| == 0 {
      assert forall k :: k !in db.products;
      return None;
    }
    var best := 0;
    var bestSum := SumRatings(listing[0].ratings);
    var i := 1;
    while i < |listing|
      invariant 1 <= i <= |listing| && 0 <= best < i
      invariant bestSum == RatingSum(listing[best].ratings)
      invariant forall j :: 0 <= j < i ==> RatingSum(listing[j].ratings) <= bestSum
    {
      var sum := SumRatings(listing[i].ratings);
      if bestSum < sum {
        best, bestSum := i, sum;
      }
      i := i + 1;
    }
    deal := Some(listing[best]);
  }
}
