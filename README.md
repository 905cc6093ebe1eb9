# Car showcase: search, filter and paging logic

A Dafny model of the decision logic of a small car-catalogue web front end.
The page builds a filter record from the address bar's query parameters and
passes it to `fetchCars` (which ignores it), then shows the cars that come
back in a grid with a "Show More" button. Four pieces of logic are modelled:

- **Manufacturer filter** (`SearchManufacturer`). The combobox keeps the
  manufacturers whose name contains the typed query, both lowercased and
  stripped of whitespace. The module proves that the result is the input
  filtered in order, gives the exact keep condition, and shows that case and
  whitespace in the query do not matter.
- **Search submission** (`SearchBar`). The submission is rejected when both
  fields trim to nothing. Otherwise the `model` and `manufacturer` query
  parameters are set or deleted and the new path is built. It works on a
  `URLSearchParams` object (`UrlSearchParams`): a class over an ordered list
  of name/value pairs. Its `Set` and `Delete` methods follow section 6.2 of
  the WHATWG URL Standard and are proved against list functions.
- **Home page** (`Home`). The search parameters are defaulted with `||`.
  An answer that is not a non-empty array is "no results". The page number
  and the `isNext` flag are derived from the limit.
- **Show More** (`ShowMore`). The next limit is `(pageNumber + 1) * 10` and
  goes into the `limit` key. The button shows only while `isNext` is false.

Supporting modules: `Wrappers` (Option), `Text` (ASCII `toLowerCase`, `trim`,
whitespace removal, `includes`, decimal text of a number) and `Types` (the
record shapes of `types/index.ts`).

Behaviour of the program worth knowing:
- The defaulted filter record holds `""` for a missing manufacturer, fuel or
  model; those fields are not left out of the record.
- Defaulting uses JavaScript `||`, so `0` and `""` take the default too, not
  only missing values.
- `URLSearchParams.set` keeps the position of the first pair of that name, so
  the order of the other keys is preserved.

## Model

| member | source | states |
|---|---|---|
| Text.ToLowerChar | components/SearchManufacturer.tsx:47-48 | an ASCII capital becomes the matching small letter, every other character is unchanged, no capital comes out, and whitespace stays whitespace |
| Text.ToLower | components/SearchBar.tsx:49 | the result has the input's length and is the input lowered character by character |
| Text.StripWhitespace | components/SearchManufacturer.tsx:47-48 | the result holds no whitespace, only characters of the input, and every non-whitespace character of the input |
| Text.IsWhitespace | components/SearchManufacturer.tsx:47-48 | the ASCII characters of JavaScript's `\s` class and of `trim`: tab, line feed, vertical tab, form feed, carriage return, space |
| Text.StripWhitespaceConcat | components/SearchManufacturer.tsx:47-48 | stripping whitespace distributes over concatenation, which fixes the order and number of the kept characters |
| Text.StripWhitespaceEmpty | components/SearchManufacturer.tsx:48 | stripping leaves nothing exactly when the string is all whitespace |
| Text.StripWhitespaceToLower | components/SearchManufacturer.tsx:47-48 | lowering and stripping whitespace commute |
| Text.Trim | components/SearchBar.tsx:45 | the trimmed string is empty exactly when the input is all whitespace, and a non-empty result neither starts nor ends with whitespace |
| Text.Includes | components/SearchManufacturer.tsx:49 | `includes` is true exactly when the needle occurs at some position of the string |
| Text.EmptyIsSubstring | components/SearchManufacturer.tsx:49 | every string includes the empty string |
| Text.DecimalString | components/ShowMore.tsx:23 | the decimal text of a natural number is non-empty, all digits, with no leading zero |
| Text.ParseDecimalString | components/ShowMore.tsx:23 | reading the decimal text back gives the number: the text identifies the limit |
| SearchManufacturer.Normalize | components/SearchManufacturer.tsx:47-48 | a normalised string holds neither whitespace nor capitals |
| SearchManufacturer.Keeps | components/SearchManufacturer.tsx:46-50 | the filter callback: the normalised item includes the normalised query, or the raw query is empty |
| SearchManufacturer.FilteredManufacturers | components/SearchManufacturer.tsx:46-50 | the result holds only input items the predicate keeps, holds every such item, and is no longer than the input |
| SearchManufacturer.FilterConcat | components/SearchManufacturer.tsx:46 | filtering distributes over concatenation, so the input's order is kept |
| SearchManufacturer.FilterKeepsAll | components/SearchManufacturer.tsx:46 | when the predicate keeps every item the result is the input itself |
| SearchManufacturer.KeepsIffSubstring | components/SearchManufacturer.tsx:47-49 | an item is kept exactly when its normal form contains the query's normal form; the `query === ""` disjunct is redundant |
| SearchManufacturer.KeepsByNormalForm | components/SearchManufacturer.tsx:47-49 | two queries with one normal form keep the same items |
| SearchManufacturer.SameNormalFormSameResult | components/SearchManufacturer.tsx:45-48 | queries with the same normal form give identical result lists |
| SearchManufacturer.CaseInsensitive | components/SearchManufacturer.tsx:47-48 | queries differing only in letter case give identical results |
| SearchManufacturer.WhitespaceInsensitive | components/SearchManufacturer.tsx:47-48 | queries differing only in whitespace give identical results |
| SearchManufacturer.BlankQueryKeepsAll | components/SearchManufacturer.tsx:48-49 | a whitespace-only query keeps every manufacturer in the original order |
| SearchManufacturer.EmptyQueryKeepsAll | components/SearchManufacturer.tsx:44-49 | the empty query keeps every manufacturer in the original order |
| UrlSearchParams.Without | components/SearchBar.tsx:70 | a pair survives the removal exactly when it was in the list and its name is not removed |
| UrlSearchParams.ReplaceFirst | components/SearchBar.tsx:68 | the first pair of the name takes the new value and the later pairs of that name are removed |
| UrlSearchParams.AfterSet | components/SearchBar.tsx:68 | the list after `set`: the first pair of that name is replaced and the rest of that name removed, or the pair is appended when the name is absent |
| UrlSearchParams.HasGetAll | components/SearchBar.tsx:67-70 | a name is present exactly when it has some value |
| UrlSearchParams.GetAllWithout | components/SearchBar.tsx:70 | after `delete` the name has no values and every other name keeps its values |
| UrlSearchParams.WithoutWithout | components/SearchBar.tsx:70-77 | two deletions in a row remove the union of their names |
| UrlSearchParams.WithoutAbsent | components/SearchBar.tsx:70 | deleting a name with no values leaves the list unchanged |
| UrlSearchParams.SetValue | components/SearchBar.tsx:68 | after `set` the name has exactly one pair, holding the new value |
| UrlSearchParams.SetKeepsOthers | components/SearchBar.tsx:68 | after `set` the pairs of every other name are unchanged, in their order |
| UrlSearchParams.SetOtherName | components/SearchBar.tsx:68 | `set` does not change the values of any other name |
| UrlSearchParams.SetPosition | components/SearchBar.tsx:68 | `set` puts the new pair where the first pair of that name was and leaves the pairs before it alone |
| UrlSearchParams.SetAppends | components/SearchBar.tsx:68 | `set` of an absent name appends the pair |
| UrlSearchParams.SetFixed | components/SearchBar.tsx:68 | `set` leaves the list unchanged when the name already has exactly that one value |
| UrlSearchParams.SetIdempotent | components/SearchBar.tsx:68 | `set` twice with the same arguments equals `set` once |
| UrlSearchParams.DeleteIdempotent | components/SearchBar.tsx:70 | `delete` twice equals `delete` once |
| UrlSearchParams.URLSearchParams.constructor | components/SearchBar.tsx:64 | the new object holds the parsed pairs of the current query |
| UrlSearchParams.URLSearchParams.Set | components/SearchBar.tsx:68 | the list after the in-place pass is the list `set` prescribes |
| UrlSearchParams.URLSearchParams.Delete | components/SearchBar.tsx:70 | the list after the in-place pass is the old list without the pairs of that name |
| UrlSearchParams.URLSearchParams.ToString | components/SearchBar.tsx:83 | the serialisation of the object's current list by the given serializer |
| SearchBar.Truthy | components/SearchBar.tsx:67-74 | a string is truthy exactly when it is non-empty |
| SearchBar.UpdatedParams | components/SearchBar.tsx:64-78 | the list after `model` and then `manufacturer` were each set when truthy or deleted otherwise |
| SearchBar.UpdatedModel | components/SearchBar.tsx:67-71 | a non-empty model leaves exactly one `model` pair holding it; an empty model leaves none |
| SearchBar.UpdatedManufacturer | components/SearchBar.tsx:74-78 | a non-empty manufacturer leaves exactly one `manufacturer` pair holding it; an empty one leaves none |
| SearchBar.UpdatedKeepsOthers | components/SearchBar.tsx:64-78 | pairs named neither `model` nor `manufacturer` keep their values and relative order |
| SearchBar.UpdatedIdempotent | components/SearchBar.tsx:62-78 | updating twice with the same arguments gives the same list as updating once |
| SearchBar.UpdateSearchParams | components/SearchBar.tsx:62-86 | the new path is the current path, then `?` (present even when no parameter remains), then the serialised updated list |
| SearchBar.HandleSearch | components/SearchBar.tsx:42-50 | the user is prompted exactly when both fields trim to nothing; otherwise the path is built from the lowercased, untrimmed values |
| SearchBar.WhitespaceModelIsSet | components/SearchBar.tsx:45-68 | a non-empty model made only of whitespace (spaces, tabs, line breaks) with a given manufacturer passes the guard and is stored as the `model` value |
| Home.Or | app/page.tsx:27-35 | JavaScript's or-operator on a property: the value when present and not the type's falsy value, otherwise the default |
| Home.EffectiveLimit | app/page.tsx:33 | the limit parameter or-defaulted to 10: the limit passed to `fetchCars` and used for the page number and `isNext`; it is always positive |
| Home.CarQueryOf | app/page.tsx:25-36 | the record passed to `fetchCars`, each field or-defaulted |
| Home.IsDataEmpty | app/page.tsx:39 | the answer is not an array or is an empty one |
| Home.IsNext | app/page.tsx:75 | the effective limit is greater than the number of cars that came back |
| Home.CarQueryDefaults | app/page.tsx:25-36 | falsy manufacturer, fuel and model become "", a falsy year (0 included) becomes 2022, a falsy limit becomes 10, and truthy values pass through unchanged |
| Home.CarQueryTruthyNumbers | app/page.tsx:29-33 | the year and limit passed to `fetchCars` are never falsy |
| Home.CarQueryIdempotent | app/page.tsx:25-36 | defaulting an already defaulted record changes nothing |
| Home.DataEmptyIff | app/page.tsx:39 | the data is empty exactly when the answer is not an array or is an empty array |
| Home.PageNumber | app/page.tsx:74 | the page number is positive and ten page numbers make the effective limit |
| Home.NoLimitFirstPage | app/page.tsx:74 | without a `limit` parameter the page number is 1 |
| Home.PageNumberNatural | app/page.tsx:74 | for a limit that is a multiple of 10 the page number is the natural limit / 10 |
| Home.IsNextIff | app/page.tsx:75 | `isNext` is false exactly when at least `limit` cars came back |
| Home.Render | app/page.tsx:63-85 | "no results" is shown exactly when the data is empty; otherwise the catalogue shows the cars that came back, and the control gets the page number and an `isNext` that holds exactly when fewer than `limit` cars came back |
| Home.NoResultsMessage | app/page.tsx:79-84 | the "no results" view shows the payload's message exactly when it has a non-empty one |
| ShowMore.NewLimit | components/ShowMore.tsx:20 | the new limit is ten more than pageNumber * 10, so for a non-negative page number it is at least 10 and larger than pageNumber * 10 |
| ShowMore.NaturalPageNewLimit | components/ShowMore.tsx:20 | for a natural page number the new limit is a positive multiple of 10 |
| ShowMore.LimitUpdate | components/ShowMore.tsx:20-23 | the update targets the `limit` key, and its value is the canonical decimal text of the new limit, which reads back as that limit |
| ShowMore.NextLimitFromHome | components/ShowMore.tsx:18-23 | for the page number the home page passes, the next limit is the current limit + 10 and its text goes into `limit` |
| ShowMore.LimitUpdateEffect | components/ShowMore.tsx:23 | applied with `URLSearchParams.set`, the update leaves one `limit` pair with the new value and changes no other pair |
| ShowMore.ButtonVisible | components/ShowMore.tsx:30-37 | the button is rendered exactly when `isNext` is false |
| ShowMore.ButtonVisibleIffLimitReached | components/ShowMore.tsx:30-37 | on the home page, "Show More" is rendered exactly when `isNext` is false, that is, when at least `limit` cars came back |

## Left out

- Browser and framework effects are not modelled: `router.push`, `alert`, `window.location`, React state and the combobox's `afterLeave` reset. `HandleSearch` returns the alert or the path it would push.
- `new URLSearchParams(window.location.search)` parses the query string. The model takes the already-parsed list.
- `URLSearchParams.toString` uses the application/x-www-form-urlencoded serializer (section 5.2 of the WHATWG URL Standard). The model passes it in as a function parameter.
- `utils/index.ts` is not part of this model. Its fetch is network I/O with a fixed URL, and it ignores the filter. Its answer is an input of `Home.Render`: an array of cars, or another payload with an optional message.
- The `updateSearchParams` that `ShowMore.tsx` and `CustomFilter.tsx` import from `@/utils` is not defined in `utils/index.ts`, which exports only `fetchCars`. `ShowMore.LimitUpdate` models only the (key, value) pair it is asked to set. `ShowMore.LimitUpdateEffect` shows what happens if that pair is applied with `URLSearchParams.set` semantics.
- `components/CustomFilter.tsx` is not part of this model. Its only logic is lowercasing a selected value and handing it to that helper.
- Presentation-only components are not modelled: Footer, Hero, Navbar, CustomButton, CarDetails and CarCard. `Types.CarProps` only mirrors a record shape.
- Text.ToLowerChar: lowercases only ASCII capitals. Other Unicode case mappings are not modelled.
- Text.IsWhitespace: covers only the ASCII members of JavaScript's `\s` and `trim` set. Non-ASCII spaces are not modelled.
- Numbers are exact integers and reals, not IEEE doubles. `Types.FilterProps` holds the limit as a natural number and the year as an integer. `NaN`, negative limits, fractional limits and the string-to-number coercion of query values are not modelled.
- ShowMore.LimitUpdate: requires the new limit to be a natural number, because only natural numbers get a decimal text here. `ShowMore.NextLimitFromHome` proves that every page number the home page produces meets this requirement.
