/**
 * The search bar: submitting the form checks that manufacturer or model was
 * given, then rewrites the `model` and `manufacturer` query parameters of the
 * current address and navigates to the result.
 */
module SearchBar {

  import opened Text
  import opened UrlSearchParams

  /** `window.location`: the path and the query of the current address, the
      query already parsed into its list of pairs. */
  datatype Location = Location(pathname: string, search: seq<Pair>)

  /** What a submission does in the browser. */
  datatype Effect = Alert(message: string) | Push(path: string)

  const Prompt := "Please provide some input"

  /** JavaScript truthiness of a string. */
  predicate Truthy(s: string) {
    s != ""
  }

  /** The list after `updateSearchParams(model, manufacturer)` applied its two
      updates, `model` first. */
  function UpdatedParams(l: seq<Pair>, model: string, manufacturer: string): seq<Pair>
  {
    var afterModel := if Truthy(model) then AfterSet(l, "model", model) else Without(l, {"model"});
    if Truthy(manufacturer) then AfterSet(afterModel, "manufacturer", manufacturer)
    else Without(afterModel, {"manufacturer"})
  }

  /** A non-empty model leaves exactly one `model` pair holding it; an empty one leaves none. */
  lemma UpdatedModel(l: seq<Pair>, model: string, manufacturer: string)
    ensures GetAll(UpdatedParams(l, model, manufacturer), "model") == if Truthy(model) then [model] else []
  {
    var afterModel := if Truthy(model) then AfterSet(l, "model", model) else Without(l, {"model"});
    if Truthy(model) {
      SetValue(l, "model", model);
    } else {
      GetAllWithout(l, {"model"}, "model");
    }
    if Truthy(manufacturer) {
      SetOtherName(afterModel, "manufacturer", manufacturer, "model");
    } else {
      GetAllWithout(afterModel, {"manufacturer"}, "model");
    }
  }

  /** The same for the `manufacturer` key. */
  lemma UpdatedManufacturer(l: seq<Pair>, model: string, manufacturer: string)
    ensures GetAll(UpdatedParams(l, model, manufacturer), "manufacturer")
         == if Truthy(manufacturer) then [manufacturer] else []
  {
    var afterModel := if Truthy(model) then AfterSet(l, "model", model) else Without(l, {"model"});
    if Truthy(manufacturer) {
      SetValue(afterModel, "manufacturer", manufacturer);
    } else {
      GetAllWithout(afterModel, {"manufacturer"}, "manufacturer");
    }
  }

  /** Pairs named neither `model` nor `manufacturer` keep their values and relative order. */
  lemma UpdatedKeepsOthers(l: seq<Pair>, model: string, manufacturer: string)
    ensures Without(UpdatedParams(l, model, manufacturer), {"model", "manufacturer"})
         == Without(l, {"model", "manufacturer"})
  {
    var afterModel := if Truthy(model) then AfterSet(l, "model", model) else Without(l, {"model"});
    var both: set<string> := {"model", "manufacturer"};
    assert {"model"} + both == both && {"manufacturer"} + both == both;
    // Without(x, both) == Without(Without(x, {n}), both) for either name n
    if Truthy(model) {
      SetKeepsOthers(l, "model", model);
      WithoutWithout(afterModel, {"model"}, both);
      WithoutWithout(l, {"model"}, both);
    } else {
      WithoutWithout(l, {"model"}, both);
    }
    var r := UpdatedParams(l, model, manufacturer);
    if Truthy(manufacturer) {
      SetKeepsOthers(afterModel, "manufacturer", manufacturer);
      WithoutWithout(r, {"manufacturer"}, both);
      WithoutWithout(afterModel, {"manufacturer"}, both);
    } else {
      WithoutWithout(afterModel, {"manufacturer"}, both);
    }
  }

  /** Updating twice with the same arguments gives the list of updating once. */
  lemma UpdatedIdempotent(l: seq<Pair>, model: string, manufacturer: string)
    ensures UpdatedParams(UpdatedParams(l, model, manufacturer), model, manufacturer)
         == UpdatedParams(l, model, manufacturer)
  {
    var once := UpdatedParams(l, model, manufacturer);
    UpdatedModel(l, model, manufacturer);
    UpdatedManufacturer(l, model, manufacturer);
    // the model step leaves `once` as it is
    var afterModel := if Truthy(model) then AfterSet(once, "model", model) else Without(once, {"model"});
    if Truthy(model) {
      SetFixed(once, "model", model);
    } else {
      WithoutAbsent(once, "model");
    }
    assert afterModel == once;
    // and so does the manufacturer step
    if Truthy(manufacturer) {
      SetFixed(once, "manufacturer", manufacturer);
    } else {
      WithoutAbsent(once, "manufacturer");
    }
  }

  /** `updateSearchParams`: a fresh `URLSearchParams` over the current query,
      `model` then `manufacturer` set or deleted by truthiness, and the new
      path is the current path, `?` (present even when no parameter remains)
      and the serialised list. */
  method UpdateSearchParams(model: string, manufacturer: string, location: Location,
                            serialize: seq<Pair> -> string)
    returns (newPathname: string)
    ensures |newPathname| > |location.pathname| && newPathname[..|location.pathname|] == location.pathname
    ensures newPathname[|location.pathname|] == '?'
    ensures newPathname == location.pathname + "?" + serialize(UpdatedParams(location.search, model, manufacturer))
  {
    var searchParams := new URLSearchParams(location.search);
    if Truthy(model) {
      searchParams.Set("model", model);
    } else {
      searchParams.Delete("model");
    }
    if Truthy(manufacturer) {
      searchParams.Set("manufacturer", manufacturer);
    } else {
      searchParams.Delete("manufacturer");
    }
    newPathname := location.pathname + "?" + searchParams.ToString(serialize);
  }

  /** `handleSearch`: when both fields trim to nothing the user is prompted
      and nothing is updated; otherwise both values, lowercased but not
      trimmed, go to `updateSearchParams`. */
  method HandleSearch(manufacturer: string, model: string, location: Location,
                      serialize: seq<Pair> -> string)
    returns (effect: Effect)
    ensures effect.Alert? <==> Trim(manufacturer) == "" && Trim(model) == ""
    ensures effect.Alert? ==> effect.message == Prompt
    ensures effect.Push? ==>
              effect.path == location.pathname + "?" + serialize(UpdatedParams(location.search, ToLower(model), ToLower(manufacturer)))
  {
    if Trim(manufacturer) == "" && Trim(model) == "" {
      return Alert(Prompt);
    }
    var path := UpdateSearchParams(ToLower(model), ToLower(manufacturer), location, serialize);
    effect := Push(path);
  }

  /** A whitespace-only model passes the guard when the manufacturer is given,
      and is then set as the `model` value: truthiness, not trimming, decides. */
  lemma WhitespaceModelIsSet(l: seq<Pair>, manufacturer: string, model: string)
    requires Trim(manufacturer) != ""
    requires model != [] && forall k :: 0 <= k < |model| ==> IsWhitespace(model[k])
    ensures !(Trim(manufacturer) == "" && Trim(model) == "")
    ensures GetAll(UpdatedParams(l, ToLower(model), ToLower(manufacturer)), "model") == [model]
  {
    assert ToLower(model) == model;
    UpdatedModel(l, ToLower(model), ToLower(manufacturer));
  }
}
