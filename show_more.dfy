/**
 * The "Show More" control: it asks for ten more cars by raising the `limit`
 * query parameter, and is shown only while the last answer filled the limit.
 */
module ShowMore {

  import opened Wrappers
  import opened Text
  import opened UrlSearchParams
  import opened Types
  import Home

  /** `(pageNumber + 1) * 10`. */
  function NewLimit(pageNumber: real): (n: real)
    ensures pageNumber >= 0.0 ==> n >= Home.PageSize as real && n > pageNumber * Home.PageSize as real
    ensures n - pageNumber * Home.PageSize as real == Home.PageSize as real
  {
    (pageNumber + 1.0) * Home.PageSize as real
  }

  /** The real is a natural number. */
  predicate IsNatural(x: real) {
    x >= 0.0 && x.Floor as real == x
  }

  /** For a natural page number the new limit is a positive multiple of 10. */
  lemma NaturalPageNewLimit(pageNumber: nat)
    ensures IsNatural(NewLimit(pageNumber as real))
    ensures NewLimit(pageNumber as real).Floor % Home.PageSize == 0 && NewLimit(pageNumber as real).Floor > 0
  {
    assert NewLimit(pageNumber as real) == ((pageNumber + 1) * Home.PageSize) as real;
  }

  /** The parameter update `handleNavigation` asks for: key `limit`, value the
      decimal text of the new limit. */
  function LimitUpdate(pageNumber: real): (u: Pair)
    requires IsNatural(NewLimit(pageNumber))
    ensures u.0 == "limit"
    ensures ParseDecimal(u.1) == Some(NewLimit(pageNumber).Floor)
    ensures u.1 == DecimalString(NewLimit(pageNumber).Floor)
  {
    var n: nat := NewLimit(pageNumber).Floor;
    ParseDecimalString(n);
    ("limit", DecimalString(n))
  }

  /** The button is rendered exactly when `isNext` is false. */
  predicate ButtonVisible(props: ShowMoreProps) {
    !props.isNext
  }

  /** On the home page the button appears exactly when the answer holds at
      least `limit` cars. */
  lemma ButtonVisibleIffLimitReached(p: FilterProps, r: Home.FetchResult)
    requires Home.Render(p, r).Catalogue?
    ensures ButtonVisible(Home.Render(p, r).showMore) <==> |r.cars| >= Home.EffectiveLimit(p)
  {
  }

  /** Whatever limit the home page had, the next limit is that limit plus 10:
      the decimal text of limit + 10 is what goes into the `limit` key. */
  lemma NextLimitFromHome(p: FilterProps)
    ensures IsNatural(NewLimit(Home.PageNumber(p)))
    ensures NewLimit(Home.PageNumber(p)).Floor == Home.EffectiveLimit(p) + Home.PageSize
    ensures LimitUpdate(Home.PageNumber(p)) == ("limit", DecimalString(Home.EffectiveLimit(p) + Home.PageSize))
  {
    var l := Home.EffectiveLimit(p);
    assert NewLimit(Home.PageNumber(p)) == (l + Home.PageSize) as real;
  }

  /** Applied with `URLSearchParams.set`, the update changes only the `limit`
      key, which then holds the single new value. */
  lemma LimitUpdateEffect(params: seq<Pair>, pageNumber: real)
    requires IsNatural(NewLimit(pageNumber))
    ensures var u := LimitUpdate(pageNumber);
      GetAll(AfterSet(params, u.0, u.1), "limit") == [u.1]
      && Without(AfterSet(params, u.0, u.1), {"limit"}) == Without(params, {"limit"})
  {
    var u := LimitUpdate(pageNumber);
    SetValue(params, u.0, u.1);
    SetKeepsOthers(params, u.0, u.1);
  }
}
