/**
 * The manufacturer combobox of the search bar: the list of manufacturers is
 * narrowed to those whose normalised name contains the normalised query.
 */
module SearchManufacturer {

  import opened Text

  /** `s.toLowerCase().replace(/\s+/g, "")`: lower case, no whitespace. */
  function Normalize(s: string): (r: string)
    ensures forall i :: 0 <= i < |r| ==> !IsWhitespace(r[i]) && !IsUpper(r[i])
  {
    var lower := ToLower(s);
    var r := StripWhitespace(lower);
    assert forall i :: 0 <= i < |r| ==> r[i] in lower;
    r
  }

  /** The predicate handed to `filter`: the normalised item includes the
      normalised query, or the raw query is empty. */
  predicate Keeps(item: string, query: string) {
    Includes(Normalize(item), Normalize(query)) || query == ""
  }

  /** `manufacturers.filter(...)`: the items the predicate keeps, in list order. */
  function FilteredManufacturers(manufacturers: seq<string>, query: string): (r: seq<string>)
    ensures |r| <= |manufacturers|
    ensures forall x :: x in r ==> x in manufacturers && Keeps(x, query)
    ensures forall x :: x in manufacturers && Keeps(x, query) ==> x in r
  {
    if manufacturers == [] then []
    else
      (if Keeps(manufacturers[0], query) then [manufacturers[0]] else [])
      + FilteredManufacturers(manufacturers[1..], query)
  }

  /** Filtering distributes over concatenation: the result keeps the input's order. */
  lemma {:induction false} FilterConcat(a: seq<string>, b: seq<string>, query: string)
    ensures FilteredManufacturers(a + b, query)
         == FilteredManufacturers(a, query) + FilteredManufacturers(b, query)
  {
    if a == [] {
      assert a + b == b;
    } else {
      assert (a + b)[1..] == a[1..] + b;
      FilterConcat(a[1..], b, query);
    }
  }

  /** When every item is kept, the result is the whole list in its original order. */
  lemma {:induction false} FilterKeepsAll(manufacturers: seq<string>, query: string)
    requires forall i :: 0 <= i < |manufacturers| ==> Keeps(manufacturers[i], query)
    ensures FilteredManufacturers(manufacturers, query) == manufacturers
  {
    if manufacturers != [] {
      FilterKeepsAll(manufacturers[1..], query);
    }
  }

  /** An item is kept exactly when its normalised form contains the normalised
      query; the `query === ""` disjunct adds nothing. */
  lemma KeepsIffSubstring(item: string, query: string)
    ensures Keeps(item, query) <==> IsSubstring(Normalize(query), Normalize(item))
  {
    if query == "" {
      assert Normalize(query) == "";
      EmptyIsSubstring(Normalize(item));
    }
  }

  /** The query enters the predicate only through its normal form. */
  lemma KeepsByNormalForm(item: string, q1: string, q2: string)
    requires Normalize(q1) == Normalize(q2)
    ensures Keeps(item, q1) <==> Keeps(item, q2)
  {
    KeepsIffSubstring(item, q1);
    KeepsIffSubstring(item, q2);
  }

  /** Queries with the same normal form select the same items. */
  lemma {:induction false} SameNormalFormSameResult(manufacturers: seq<string>, q1: string, q2: string)
    requires Normalize(q1) == Normalize(q2)
    ensures FilteredManufacturers(manufacturers, q1) == FilteredManufacturers(manufacturers, q2)
  {
    if manufacturers != [] {
      KeepsByNormalForm(manufacturers[0], q1, q2);
      SameNormalFormSameResult(manufacturers[1..], q1, q2);
    }
  }

  /** Queries that differ only in letter case give the same result. */
  lemma CaseInsensitive(manufacturers: seq<string>, q1: string, q2: string)
    requires ToLower(q1) == ToLower(q2)
    ensures FilteredManufacturers(manufacturers, q1) == FilteredManufacturers(manufacturers, q2)
  {
    SameNormalFormSameResult(manufacturers, q1, q2);
  }

  /** Queries that differ only in whitespace give the same result. */
  lemma WhitespaceInsensitive(manufacturers: seq<string>, q1: string, q2: string)
    requires StripWhitespace(q1) == StripWhitespace(q2)
    ensures FilteredManufacturers(manufacturers, q1) == FilteredManufacturers(manufacturers, q2)
  {
    StripWhitespaceToLower(q1);
    StripWhitespaceToLower(q2);
    SameNormalFormSameResult(manufacturers, q1, q2);
  }

  /** A query made only of whitespace (the empty query among them) keeps every
      manufacturer, in the original order. */
  lemma BlankQueryKeepsAll(manufacturers: seq<string>, query: string)
    requires forall k :: 0 <= k < |query| ==> IsWhitespace(query[k])
    ensures FilteredManufacturers(manufacturers, query) == manufacturers
  {
    StripWhitespaceToLower(query);
    StripWhitespaceEmpty(query);
    assert Normalize(query) == "";
    forall i | 0 <= i < |manufacturers| ensures Keeps(manufacturers[i], query) {
      EmptyIsSubstring(Normalize(manufacturers[i]));
    }
    FilterKeepsAll(manufacturers, query);
  }

  /** The empty query keeps every manufacturer, in the original order. */
  lemma EmptyQueryKeepsAll(manufacturers: seq<string>)
    ensures FilteredManufacturers(manufacturers, "") == manufacturers
  {
    FilterKeepsAll(manufacturers, "");
  }
}
