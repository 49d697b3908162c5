// Shared vocabulary: optional values, results, errors, and sequence filtering.
module Prelude {

  datatype Option<+T> = None | Some(value: T)

  // The error kinds that the modelled code can return. `Panic` stands for an
  // index, unwrap or arithmetic panic, so that a panicking input is a visible
  // outcome of the model and not an excluded one.
  datatype Error =
    | Missing(what: string)
    | WrongWidth(what: string, want: nat, got: nat)
    | TooWide(what: string)
    | OutOfRange(number: int)
    | Invalid(reason: string)
    | Panic

  datatype Result<+T> = Ok(value: T) | Err(error: Error) {
    predicate IsFailure() {
      Err?
    }

    function PropagateFailure<U>(): Result<U>
      requires Err?
    {
      Err(error)
    }

    function Extract(): T
      requires Ok?
    {
      value
    }
  }

  const U32_LIMIT: nat := 0x1_0000_0000
  const U64_LIMIT: nat := 0x1_0000_0000_0000_0000

  type U64 = n: int | 0 <= n < U64_LIMIT

  // `u32::try_from`
  function ToU32(n: nat): Result<nat> {
    if n < U32_LIMIT then Ok(n) else Err(OutOfRange(n))
  }

  function Filter<T>(keep: T -> bool, s: seq<T>): seq<T> {
    if s == [] then []
    else if keep(s[0]) then [s[0]] + Filter(keep, s[1..])
    else Filter(keep, s[1..])
  }

  lemma {:induction false} FilterExtends<T>(keep: T -> bool, s: seq<T>, x: T)
    ensures Filter(keep, s + [x]) == Filter(keep, s) + if keep(x) then [x] else []
  {
    if s == [] {
    } else {
      assert (s + [x])[1..] == s[1..] + [x];
      FilterExtends(keep, s[1..], x);
    }
  }

  lemma {:induction false} FilterAppend<T>(keep: T -> bool, s: seq<T>, t: seq<T>)
    ensures Filter(keep, s + t) == Filter(keep, s) + Filter(keep, t)
  {
    if s == [] {
      assert s + t == t;
    } else {
      assert (s + t)[1..] == s[1..] + t;
      FilterAppend(keep, s[1..], t);
    }
  }

  // Two filters in a row are one filter, whenever their conjunction is that filter
  // on the elements at hand.
  lemma {:induction false} FilterTwice<T>(inner: T -> bool, outer: T -> bool, both: T -> bool, s: seq<T>)
    requires forall x | x in s :: both(x) <==> inner(x) && outer(x)
    ensures Filter(outer, Filter(inner, s)) == Filter(both, s)
  {
    if s == [] {
    } else {
      FilterTwice(inner, outer, both, s[1..]);
    }
  }

  lemma {:induction false} FilterCongruent<T>(p: T -> bool, q: T -> bool, s: seq<T>)
    requires forall x | x in s :: p(x) == q(x)
    ensures Filter(p, s) == Filter(q, s)
  {
    if s == [] {
    } else {
      FilterCongruent(p, q, s[1..]);
    }
  }

  lemma {:induction false} FilterNone<T>(keep: T -> bool, s: seq<T>)
    requires forall x | x in s :: !keep(x)
    ensures Filter(keep, s) == []
  {
    if s == [] {
    } else {
      FilterNone(keep, s[1..]);
    }
  }

  lemma {:induction false} FilterAll<T>(keep: T -> bool, s: seq<T>)
    requires forall x | x in s :: keep(x)
    ensures Filter(keep, s) == s
  {
    if s == [] {
    } else {
      FilterAll(keep, s[1..]);
      assert s == [s[0]] + s[1..];
    }
  }

  lemma {:induction false} FilterMembers<T>(keep: T -> bool, s: seq<T>)
    ensures forall x :: x in Filter(keep, s) <==> x in s && keep(x)
  {
    if s == [] {
    } else {
      FilterMembers(keep, s[1..]);
    }
  }

  function Concat<T>(parts: seq<seq<T>>): seq<T> {
    if parts == [] then [] else parts[0] + Concat(parts[1..])
  }

  predicate Unique<T(==)>(s: seq<T>) {
    forall i, j | 0 <= i < j < |s| :: s[i] != s[j]
  }

  lemma UniqueParts<T>(a: seq<T>, b: seq<T>)
    requires Unique(a + b)
    ensures Unique(a) && Unique(b) && forall x | x in a :: x !in b
  {
    var s := a + b;
    assert forall i | 0 <= i < |a| :: a[i] == s[i];
    assert forall j | 0 <= j < |b| :: b[j] == s[|a| + j];
    forall x | x in a
      ensures x !in b
    {
      var i :| 0 <= i < |a| && s[i] == x;
      forall j | 0 <= j < |b|
        ensures b[j] != x
      {
        assert s[|a| + j] != s[i];
      }
    }
  }

  lemma UniqueJoinIff<T>(a: seq<T>, b: seq<T>)
    ensures Unique(a + b) <==> Unique(a) && Unique(b) && forall x | x in a :: x !in b
  {
    if Unique(a + b) {
      UniqueParts(a, b);
    }
    if Unique(a) && Unique(b) && (forall x | x in a :: x !in b) {
      forall i, j | 0 <= i < j < |a + b|
        ensures (a + b)[i] != (a + b)[j]
      {
        if i < |a| <= j {
          assert (a + b)[i] in a && (a + b)[j] in b;
        }
      }
    }
  }
}
