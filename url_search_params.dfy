/**
 * The `URLSearchParams` object of the WHATWG URL Standard (section 6.2): an
 * ordered list of name-value pairs with `set`, `delete` and serialisation.
 * The list functions below specify the two mutating methods of the class.
 */
module UrlSearchParams {

  /** One entry of the list: (name, value). */
  type Pair = (string, string)

  /** The values of the pairs named `name`, in list order (the standard's `getAll`). */
  function GetAll(l: seq<Pair>, name: string): (vs: seq<string>)
    ensures |vs| <= |l|
    ensures forall v :: v in vs ==> (name, v) in l
    ensures forall i :: 0 <= i < |l| && l[i].0 == name ==> l[i].1 in vs
  {
    if l == [] then []
    else (if l[0].0 == name then [l[0].1] else []) + GetAll(l[1..], name)
  }

  /** Some pair of `l` is named `name` (the standard's `has`). */
  predicate Has(l: seq<Pair>, name: string) {
    exists p :: p in l && p.0 == name
  }

  /** `l` with every pair whose name is in `names` removed; the others keep their order. */
  function Without(l: seq<Pair>, names: set<string>): (r: seq<Pair>)
    ensures |r| <= |l|
    ensures forall p :: p in r <==> p in l && p.0 !in names
  {
    if l == [] then []
    else (if l[0].0 in names then [] else [l[0]]) + Without(l[1..], names)
  }

  /** The first pair named `name` becomes (name, value) and the later ones are removed. */
  function ReplaceFirst(l: seq<Pair>, name: string, value: string): seq<Pair>
  {
    if l == [] then []
    else if l[0].0 == name then [(name, value)] + Without(l[1..], {name})
    else [l[0]] + ReplaceFirst(l[1..], name, value)
  }

  /** The list after `set(name, value)`: the first pair named `name`, if there
      is one, takes the new value and the rest of that name are removed;
      otherwise the pair is appended. */
  function AfterSet(l: seq<Pair>, name: string, value: string): seq<Pair>
  {
    if Has(l, name) then ReplaceFirst(l, name, value) else l + [(name, value)]
  }

  lemma {:induction false} GetAllConcat(a: seq<Pair>, b: seq<Pair>, name: string)
    ensures GetAll(a + b, name) == GetAll(a, name) + GetAll(b, name)
  {
    if a == [] {
      assert a + b == b;
    } else {
      assert (a + b)[1..] == a[1..] + b;
      GetAllConcat(a[1..], b, name);
    }
  }

  lemma {:induction false} WithoutConcat(a: seq<Pair>, b: seq<Pair>, names: set<string>)
    ensures Without(a + b, names) == Without(a, names) + Without(b, names)
  {
    if a == [] {
      assert a + b == b;
    } else {
      assert (a + b)[1..] == a[1..] + b;
      WithoutConcat(a[1..], b, names);
    }
  }

  /** A name is listed exactly when it has some value. */
  lemma {:induction false} HasGetAll(l: seq<Pair>, name: string)
    ensures Has(l, name) <==> GetAll(l, name) != []
  {
    if l != [] {
      HasGetAll(l[1..], name);
      if l[0].0 != name && Has(l, name) {
        var p :| p in l && p.0 == name;
        assert p in l[1..];
      }
    }
  }

  /** Removing `names` erases their values and leaves every other name's values as they were. */
  lemma {:induction false} GetAllWithout(l: seq<Pair>, names: set<string>, name: string)
    ensures GetAll(Without(l, names), name) == if name in names then [] else GetAll(l, name)
  {
    if l != [] {
      GetAllWithout(l[1..], names, name);
      var head := if l[0].0 in names then [] else [l[0]];
      GetAllConcat(head, Without(l[1..], names), name);
    }
  }

  /** Removing two sets of names one after the other removes their union. */
  lemma {:induction false} WithoutWithout(l: seq<Pair>, a: set<string>, b: set<string>)
    ensures Without(Without(l, a), b) == Without(l, a + b)
  {
    if l != [] {
      WithoutWithout(l[1..], a, b);
      var head := if l[0].0 in a then [] else [l[0]];
      WithoutConcat(head, Without(l[1..], a), b);
    }
  }

  /** Removing a name that has no values changes nothing. */
  lemma {:induction false} WithoutAbsent(l: seq<Pair>, name: string)
    requires GetAll(l, name) == []
    ensures Without(l, {name}) == l
  {
    if l != [] {
      GetAllConcat([l[0]], l[1..], name);
      assert [l[0]] + l[1..] == l;
      WithoutAbsent(l[1..], name);
    }
  }

  lemma {:induction false} ReplaceFirstConcat(a: seq<Pair>, b: seq<Pair>, name: string, value: string)
    ensures Has(a, name) ==> ReplaceFirst(a + b, name, value) == ReplaceFirst(a, name, value) + Without(b, {name})
    ensures !Has(a, name) ==> ReplaceFirst(a + b, name, value) == a + ReplaceFirst(b, name, value)
  {
    if a == [] {
      assert a + b == b;
    } else {
      var rest := a[1..];
      assert (a + b)[1..] == rest + b;
      ReplaceFirstConcat(rest, b, name, value);
      if a[0].0 == name {
        WithoutConcat(rest, b, {name});
        assert Has(a, name) by { assert a[0] in a; }
      } else {
        HasTail(a, name);
        if Has(rest, name) {
          assert ReplaceFirst(a + b, name, value) == [a[0]] + ReplaceFirst(rest + b, name, value);
        } else {
          assert ReplaceFirst(a + b, name, value) == [a[0]] + (rest + ReplaceFirst(b, name, value));
          assert [a[0]] + rest == a;
        }
      }
    }
  }

  /** A list whose first pair is named differently has the name exactly when its tail does. */
  lemma HasTail(l: seq<Pair>, name: string)
    requires l != [] && l[0].0 != name
    ensures Has(l, name) <==> Has(l[1..], name)
  {
    if Has(l, name) {
      var p :| p in l && p.0 == name;
      assert p in l[1..];
    }
    if Has(l[1..], name) {
      var p :| p in l[1..] && p.0 == name;
      assert p in l;
    }
  }

  lemma {:induction false} ReplaceFirstSpec(l: seq<Pair>, name: string, value: string)
    requires Has(l, name)
    ensures GetAll(ReplaceFirst(l, name, value), name) == [value]
    ensures Without(ReplaceFirst(l, name, value), {name}) == Without(l, {name})
  {
    var r := ReplaceFirst(l, name, value);
    if l[0].0 == name {
      GetAllConcat([(name, value)], Without(l[1..], {name}), name);
      GetAllWithout(l[1..], {name}, name);
      WithoutConcat([(name, value)], Without(l[1..], {name}), {name});
      WithoutWithout(l[1..], {name}, {name});
      assert {name} + {name} == {name};
      WithoutConcat([l[0]], l[1..], {name});
      assert [l[0]] + l[1..] == l;
    } else {
      assert Has(l[1..], name) by {
        var p :| p in l && p.0 == name;
        assert p in l[1..];
      }
      ReplaceFirstSpec(l[1..], name, value);
      GetAllConcat([l[0]], ReplaceFirst(l[1..], name, value), name);
      WithoutConcat([l[0]], ReplaceFirst(l[1..], name, value), {name});
      WithoutConcat([l[0]], l[1..], {name});
      assert [l[0]] + l[1..] == l;
    }
  }

  /** After `set(name, value)` the name has exactly one pair, holding `value`. */
  lemma SetValue(l: seq<Pair>, name: string, value: string)
    ensures GetAll(AfterSet(l, name, value), name) == [value]
  {
    if Has(l, name) {
      ReplaceFirstSpec(l, name, value);
    } else {
      HasGetAll(l, name);
      GetAllConcat(l, [(name, value)], name);
    }
  }

  /** `set(name, value)` leaves the pairs of every other name, with their order, as they were. */
  lemma SetKeepsOthers(l: seq<Pair>, name: string, value: string)
    ensures Without(AfterSet(l, name, value), {name}) == Without(l, {name})
  {
    if Has(l, name) {
      ReplaceFirstSpec(l, name, value);
    } else {
      WithoutConcat(l, [(name, value)], {name});
    }
  }

  /** Where `set` puts the pair: at the position of the first pair of that
      name (everything before it untouched), or at the end when there is none. */
  lemma {:induction false} SetPosition(l: seq<Pair>, name: string, value: string, i: nat)
    requires i < |l| && l[i].0 == name && forall k :: 0 <= k < i ==> l[k].0 != name
    ensures |AfterSet(l, name, value)| > i
    ensures AfterSet(l, name, value)[..i] == l[..i]
    ensures AfterSet(l, name, value)[i] == (name, value)
  {
    assert l[i] in l;
    assert !Has(l[..i], name);
    ReplaceFirstConcat(l[..i], l[i..], name, value);
    assert l[..i] + l[i..] == l;
  }

  /** When the name is absent, `set` appends the pair. */
  lemma SetAppends(l: seq<Pair>, name: string, value: string)
    requires !Has(l, name)
    ensures AfterSet(l, name, value) == l + [(name, value)]
  {
  }

  /** A name that already has exactly one pair holding `value` is left alone by `set`. */
  lemma {:induction false} SetFixed(l: seq<Pair>, name: string, value: string)
    requires GetAll(l, name) == [value]
    ensures AfterSet(l, name, value) == l
  {
    HasGetAll(l, name);
    ReplaceFirstFixed(l, name, value);
  }

  lemma {:induction false} ReplaceFirstFixed(l: seq<Pair>, name: string, value: string)
    requires GetAll(l, name) == [value]
    ensures ReplaceFirst(l, name, value) == l
  {
    GetAllConcat([l[0]], l[1..], name);
    assert [l[0]] + l[1..] == l;
    if l[0].0 == name {
      WithoutAbsent(l[1..], name);
    } else {
      ReplaceFirstFixed(l[1..], name, value);
    }
  }

  /** `set` and `delete` are idempotent. */
  lemma SetIdempotent(l: seq<Pair>, name: string, value: string)
    ensures AfterSet(AfterSet(l, name, value), name, value) == AfterSet(l, name, value)
  {
    SetValue(l, name, value);
    SetFixed(AfterSet(l, name, value), name, value);
  }

  lemma DeleteIdempotent(l: seq<Pair>, name: string)
    ensures Without(Without(l, {name}), {name}) == Without(l, {name})
  {
    GetAllWithout(l, {name}, name);
    WithoutAbsent(Without(l, {name}), name);
  }

  /** `set` does not touch the values of any other name. */
  lemma SetOtherName(l: seq<Pair>, name: string, value: string, other: string)
    requires other != name
    ensures GetAll(AfterSet(l, name, value), other) == GetAll(l, other)
  {
    SetKeepsOthers(l, name, value);
    GetAllWithout(AfterSet(l, name, value), {name}, other);
    GetAllWithout(l, {name}, other);
  }

  /**
   * A `URLSearchParams` object: its list of pairs is updated in place by
   * `set` and `delete`, and `toString` serialises it.
   */
  class URLSearchParams {

    /** The list of name-value pairs, in order. */
    var list: seq<Pair>

    /** `new URLSearchParams(init)`, with `init` already parsed into pairs. */
    constructor (init: seq<Pair>)
      ensures list == init
    {
      list := init;
    }

    /** `set(name, value)`: one pass over the list, keeping the first pair of
        that name with the new value and dropping the others. */
    method Set(name: string, value: string)
      modifies this
      ensures list == AfterSet(old(list), name, value)
    {
      var pairs := list;
      var result: seq<Pair> := [];
      var found := false;
      var i := 0;
      while i < |pairs|
        invariant 0 <= i <= |pairs|
        invariant found == Has(pairs[..i], name)
        invariant !found ==> result == pairs[..i]
        invariant found ==> result == ReplaceFirst(pairs[..i], name, value)
      {
        assert pairs[..i + 1] == pairs[..i] + [pairs[i]];
        ReplaceFirstConcat(pairs[..i], [pairs[i]], name, value);
        if pairs[i].0 == name {
          if !found {
            result := result + [(name, value)];
            found := true;
          }
        } else {
          result := result + [pairs[i]];
        }
        i := i + 1;
      }
      assert pairs[..i] == pairs;
      if !found {
        result := result + [(name, value)];
      }
      list := result;
    }

    /** `delete(name)`: every pair of that name is removed. */
    method Delete(name: string)
      modifies this
      ensures list == Without(old(list), {name})
    {
      var pairs := list;
      var result: seq<Pair> := [];
      var i := 0;
      while i < |pairs|
        invariant 0 <= i <= |pairs|
        invariant result == Without(pairs[..i], {name})
      {
        assert pairs[..i + 1] == pairs[..i] + [pairs[i]];
        WithoutConcat(pairs[..i], [pairs[i]], {name});
        if pairs[i].0 != name {
          result := result + [pairs[i]];
        }
        i := i + 1;
      }
      assert pairs[..i] == pairs;
      list := result;
    }

    /** `toString()`, given the application/x-www-form-urlencoded serializer. */
    function ToString(serialize: seq<Pair> -> string): string
      reads this
    {
      serialize(list)
    }
  }
}
