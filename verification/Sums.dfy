/** Sums of a mapping over its keys, in the order the source iterates them. */
module Sums {
  import opened Sequences

  // Asset codes: any totally ordered set will do.
  type Asset = nat

  function Get(m: map<Asset, real>, a: Asset): real {
    if a in m then m[a] else 0.0
  }

  function Sum(keys: seq<Asset>, m: map<Asset, real>): real {
    if keys == [] then 0.0 else Get(m, keys[0]) + Sum(keys[1..], m)
  }

  function Abs(x: real): real {
    if x < 0.0 then -x else x
  }

  function Positive(x: real): real {
    if x > 0.0 then x else 0.0
  }

  function Plus(x: real, y: real): real {
    x + y
  }

  ghost predicate Additive(f: real -> real) {
    f(0.0) == 0.0 && forall x, y {:trigger Plus(x, y)} :: f(x) + f(y) == f(Plus(x, y))
  }

  /** Splitting every entry the same way splits the sum that way. */
  lemma {:induction false} SumMapped(keys: seq<Asset>, z: map<Asset, real>, f: real -> real, m: map<Asset, real>)
    requires Additive(f) && forall a :: a in keys ==> Get(z, a) == f(Get(m, a))
    ensures Sum(keys, z) == f(Sum(keys, m))
  {
    if keys != [] {
      assert keys[0] in keys && forall a :: a in keys[1..] ==> a in keys;
      SumMapped(keys[1..], z, f, m);
      assert Plus(Get(m, keys[0]), Sum(keys[1..], m)) == Sum(keys, m);
    }
  }

  lemma {:induction false} SumDifference(
      keys: seq<Asset>, z: map<Asset, real>, x: map<Asset, real>, y: map<Asset, real>)
    requires forall a :: a in keys ==> Get(z, a) == Get(x, a) - Get(y, a)
    ensures Sum(keys, z) == Sum(keys, x) - Sum(keys, y)
  {
    if keys != [] {
      assert keys[0] in keys && forall a :: a in keys[1..] ==> a in keys;
      SumDifference(keys[1..], z, x, y);
    }
  }

  lemma {:induction false} SumAtMost(keys: seq<Asset>, x: map<Asset, real>, y: map<Asset, real>)
    requires forall a :: a in keys ==> Get(x, a) <= Get(y, a)
    ensures Sum(keys, x) <= Sum(keys, y)
  {
    if keys != [] {
      assert keys[0] in keys && forall a :: a in keys[1..] ==> a in keys;
      SumAtMost(keys[1..], x, y);
    }
  }

  lemma {:induction false} SumIgnores(keys: seq<Asset>, m: map<Asset, real>, a: Asset, v: real)
    requires a !in keys
    ensures Sum(keys, m[a := v]) == Sum(keys, m)
  {
    if keys != [] {
      assert keys[0] in keys && a !in keys[1..];
      SumIgnores(keys[1..], m, a, v);
    }
  }

  lemma {:induction false} SumUpdate(keys: seq<Asset>, m: map<Asset, real>, a: Asset, v: real)
    requires NoRepeats(keys) && a in keys
    ensures Sum(keys, m[a := v]) == Sum(keys, m) - Get(m, a) + v
  {
    if keys[0] == a {
      assert a !in keys[1..];
      SumIgnores(keys[1..], m, a, v);
    } else {
      SumUpdate(keys[1..], m, a, v);
    }
  }

  lemma {:induction false} SumOfNone(keys: seq<Asset>)
    ensures Sum(keys, map[]) == 0.0
  {
    if keys != [] { SumOfNone(keys[1..]); }
  }
}
