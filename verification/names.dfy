/** Order-preserving filters over lists of field names (Python list comprehensions). */
module Names {

  /** `[n for n in names if n not in drop]`. */
  function Without(names: seq<string>, drop: set<string>): (r: seq<string>)
    ensures forall n :: n in r <==> n in names && n !in drop
    ensures |r| <= |names|
  {
    if names == [] then []
    else if names[0] in drop then Without(names[1..], drop)
    else [names[0]] + Without(names[1..], drop)
  }

  /** `[n for n in names if n in allowed]`. */
  function Within(names: seq<string>, allowed: set<string>): (r: seq<string>)
    ensures forall n :: n in r <==> n in names && n in allowed
    ensures |r| <= |names|
  {
    if names == [] then []
    else if names[0] in allowed then [names[0]] + Within(names[1..], allowed)
    else Within(names[1..], allowed)
  }

  /** Filtering keeps the order: it distributes over concatenation. */
  lemma {:induction false} WithoutAppend(a: seq<string>, b: seq<string>, drop: set<string>)
    ensures Without(a + b, drop) == Without(a, drop) + Without(b, drop)
  {
    if a == [] {
      assert a + b == b;
    } else {
      assert (a + b)[0] == a[0];
      assert (a + b)[1..] == a[1..] + b;
      WithoutAppend(a[1..], b, drop);
    }
  }

  /** Keeping the allowed names keeps their order: it distributes over concatenation. */
  lemma {:induction false} WithinAppend(a: seq<string>, b: seq<string>, allowed: set<string>)
    ensures Within(a + b, allowed) == Within(a, allowed) + Within(b, allowed)
  {
    if a == [] {
      assert a + b == b;
    } else {
      assert (a + b)[0] == a[0];
      assert (a + b)[1..] == a[1..] + b;
      WithinAppend(a[1..], b, allowed);
    }
  }

  /** A list with none of the dropped names passes through unchanged. */
  lemma {:induction false} WithoutNothingDropped(names: seq<string>, drop: set<string>)
    ensures (forall i | 0 <= i < |names| :: names[i] !in drop) ==> Without(names, drop) == names
  {
    if names != [] {
      WithoutNothingDropped(names[1..], drop);
    }
  }
}
