/**
 * The home page: it defaults the search parameters into the filter record
 * passed to `fetchCars`, decides whether the answer is empty, and derives the
 * page number and the `isNext` flag for the "Show More" control.
 */
module Home {

  import opened Wrappers
  import opened Types

  const DefaultYear := 2022
  const DefaultLimit: nat := 10
  /** The number of cars per page that the page number is counted in. */
  const PageSize: nat := 10

  /** The record handed to `fetchCars`: every field present. */
  datatype CarQuery = CarQuery(manufacturer: string, year: int, fuel: string, limit: nat, model: string)

  /** What `fetchCars` resolves to: a JSON array of cars, or some other JSON
      payload that may carry a `message`. */
  datatype FetchResult = CarArray(cars: seq<CarProps>) | OtherPayload(message: Option<string>)

  /** What the page renders below the filters. */
  datatype View = NoResults(message: Option<string>) | Catalogue(cars: seq<CarProps>, showMore: ShowMoreProps)

  /** JavaScript's `v || d` for a property that may be absent; `falsy` is the
      type's falsy value ("" for strings, 0 for numbers). */
  function Or<T(==)>(v: Option<T>, falsy: T, d: T): T {
    if v.Some? && v.value != falsy then v.value else d
  }

  /** `searchParams.limit || 10`: passed to `fetchCars` and used for the page number and `isNext`. */
  function EffectiveLimit(p: FilterProps): (l: nat)
    ensures l > 0
    ensures p.limit.Some? && p.limit.value != 0 ==> l == p.limit.value
  {
    Or(p.limit, 0, DefaultLimit)
  }

  /** The record passed to `fetchCars`. */
  function CarQueryOf(p: FilterProps): CarQuery {
    CarQuery(Or(p.manufacturer, "", ""), Or(p.year, 0, DefaultYear), Or(p.fuel, "", ""),
             EffectiveLimit(p), Or(p.model, "", ""))
  }

  /** A query record read back as search parameters, every field present. */
  function AsFilterProps(q: CarQuery): FilterProps {
    FilterProps(Some(q.manufacturer), Some(q.year), Some(q.model), Some(q.limit), Some(q.fuel))
  }

  /** Falsy fields take their defaults ("" for the text fields, 2022 for the
      year, 10 for the limit); truthy ones pass through unchanged. */
  lemma CarQueryDefaults(p: FilterProps)
    ensures var q := CarQueryOf(p);
      (p.manufacturer.Some? && p.manufacturer.value != "" ==> q.manufacturer == p.manufacturer.value)
      && (p.manufacturer.None? || p.manufacturer == Some("") ==> q.manufacturer == "")
      && (p.fuel.Some? && p.fuel.value != "" ==> q.fuel == p.fuel.value)
      && (p.fuel.None? || p.fuel == Some("") ==> q.fuel == "")
      && (p.model.Some? && p.model.value != "" ==> q.model == p.model.value)
      && (p.model.None? || p.model == Some("") ==> q.model == "")
      && (p.year.Some? && p.year.value != 0 ==> q.year == p.year.value)
      && (p.year.None? || p.year == Some(0) ==> q.year == DefaultYear)
      && (p.limit.Some? && p.limit.value != 0 ==> q.limit == p.limit.value)
      && (p.limit.None? || p.limit == Some(0) ==> q.limit == DefaultLimit)
  {
  }

  /** The year and limit passed to `fetchCars` are never falsy. */
  lemma CarQueryTruthyNumbers(p: FilterProps)
    ensures CarQueryOf(p).year != 0 && CarQueryOf(p).limit > 0
  {
  }

  /** Defaulting is idempotent: a defaulted record, read back as search
      parameters, defaults to itself. */
  lemma CarQueryIdempotent(p: FilterProps)
    ensures CarQueryOf(AsFilterProps(CarQueryOf(p))) == CarQueryOf(p)
  {
  }

  /** `isDataEmpty`: the answer is not an array, or is an empty one (the
      third disjunct `!allCars` is false for every array). */
  predicate IsDataEmpty(r: FetchResult) {
    !r.CarArray? || |r.cars| < 1
  }

  /** `(searchParams.limit || 10) / 10`, in exact arithmetic. */
  function PageNumber(p: FilterProps): (n: real)
    ensures n > 0.0
    ensures n * PageSize as real == EffectiveLimit(p) as real
  {
    EffectiveLimit(p) as real / PageSize as real
  }

  /** `(searchParams.limit || 10) > allCars.length`. */
  predicate IsNext(p: FilterProps, count: nat) {
    EffectiveLimit(p) > count
  }

  /** The page below the filters: "no results" with the payload's message
      when there is one, otherwise the cars and the "Show More" control. */
  function Render(p: FilterProps, r: FetchResult): (v: View)
    ensures v.NoResults? <==> IsDataEmpty(r)
    ensures v.Catalogue? ==> r.CarArray? && v.cars == r.cars && |v.cars| > 0
    ensures v.Catalogue? ==> v.showMore.pageNumber == PageNumber(p)
    ensures v.Catalogue? ==> (v.showMore.isNext <==> |r.cars| < EffectiveLimit(p))
  {
    if IsDataEmpty(r) then
      NoResults(if r.OtherPayload? && r.message.Some? && r.message.value != "" then r.message else None)
    else
      Catalogue(r.cars, ShowMoreProps(PageNumber(p), IsNext(p, |r.cars|)))
  }

  /** The answer is empty exactly when it is not a non-empty array of cars. */
  lemma DataEmptyIff(r: FetchResult)
    ensures IsDataEmpty(r) <==> !(r.CarArray? && |r.cars| > 0)
  {
  }

  /** `isNext` is false exactly when at least `limit` cars came back. */
  lemma IsNextIff(p: FilterProps, count: nat)
    ensures !IsNext(p, count) <==> count >= EffectiveLimit(p)
  {
  }

  /** Without a `limit` parameter the page number is 1. */
  lemma NoLimitFirstPage(p: FilterProps)
    requires p.limit.None?
    ensures PageNumber(p) == 1.0
  {
  }

  /** For a limit that is a multiple of 10 the page number is the natural
      number limit / 10. */
  lemma {:induction false} PageNumberNatural(p: FilterProps)
    requires EffectiveLimit(p) % PageSize == 0
    ensures PageNumber(p) == (EffectiveLimit(p) / PageSize) as real
  {
    var l := EffectiveLimit(p);
    assert l == (l / PageSize) * PageSize;
    assert l as real == (l / PageSize) as real * PageSize as real;
  }

  /** The "no results" message is the payload's message, shown only when it is
      non-empty; an empty array shows none. */
  lemma NoResultsMessage(p: FilterProps, r: FetchResult)
    requires IsDataEmpty(r)
    ensures Render(p, r).message.Some? <==> r.OtherPayload? && r.message.Some? && r.message.value != ""
    ensures Render(p, r).message.Some? ==> Render(p, r).message == r.message
  {
  }
}
