/** SQL's three-valued comparisons and its aggregates; None is NULL. */
module SqlLogic {
  import opened Wrappers

  type Bool3 = Option<bool>

  function Or3(a: Bool3, b: Bool3): Bool3 {
    if a == Some(true) || b == Some(true) then Some(true)
    else if a.None? || b.None? then None else Some(false)
  }

  function And3(a: Bool3, b: Bool3): Bool3 {
    if a == Some(false) || b == Some(false) then Some(false)
    else if a.None? || b.None? then None else Some(true)
  }

  /** OR is true with one true side and false with two false ones, AND the other way round; all else is NULL. */
  lemma ThreeValued(a: Bool3, b: Bool3)
    ensures Or3(a, b) == Some(true) <==> a == Some(true) || b == Some(true)
    ensures Or3(a, b) == Some(false) <==> a == Some(false) && b == Some(false)
    ensures And3(a, b) == Some(true) <==> a == Some(true) && b == Some(true)
    ensures And3(a, b) == Some(false) <==> a == Some(false) || b == Some(false)
  {
    OneOfThree(a);
    OneOfThree(b);
  }

  lemma OneOfThree(a: Bool3)
    ensures a.None? || a == Some(true) || a == Some(false)
  {
    if a.Some? {
      var value := a.value;
      assert a == Some(value);
      assert value == true || value == false;
    }
  }

  function Is(a: Bool3, b: bool): Bool3 {
    if a.None? then None else Some(a.value == b)
  }

  function Differs(a: Bool3, b: Bool3): Bool3 {
    if a.None? || b.None? then None else Some(a.value != b.value)
  }

  function Above(x: Option<real>, y: real): Bool3 {
    if x.None? then None else Some(x.value > y)
  }

  function Equals(x: Option<real>, y: real): Bool3 {
    if x.None? then None else Some(x.value == y)
  }

  function IsNull<T>(x: Option<T>): Bool3 {
    Some(x.None?)
  }

  /** MAX: the greatest value that is not NULL. */
  function Max(xs: seq<Option<real>>): Option<real> {
    if xs == [] then None
    else
      var m := Max(xs[1..]);
      if xs[0].None? then m
      else if m.None? || m.value < xs[0].value then xs[0] else m
  }

  function Min(xs: seq<Option<real>>): Option<real> {
    if xs == [] then None
    else
      var m := Min(xs[1..]);
      if xs[0].None? then m
      else if m.None? || m.value > xs[0].value then xs[0] else m
  }

  function Count(xs: seq<Option<real>>): nat {
    if xs == [] then 0 else (if xs[0].Some? then 1 else 0) + Count(xs[1..])
  }

  function Sum(xs: seq<Option<real>>): real {
    if xs == [] then 0.0 else (if xs[0].Some? then xs[0].value else 0.0) + Sum(xs[1..])
  }

  /** AVG ignores NULLs; over none it is NULL. */
  function Avg(xs: seq<Option<real>>): Option<real> {
    if Count(xs) == 0 then None else Some(Sum(xs) / Count(xs) as real)
  }

  function Minus(a: Option<real>, b: Option<real>): Option<real> {
    if a.None? || b.None? then None else Some(a.value - b.value)
  }

  // ----- What the aggregates give -----

  lemma {:induction false} MaxIs(xs: seq<Option<real>>)
    ensures Max(xs).None? <==> forall x | x in xs :: x.None?
    ensures Max(xs).Some? ==> Max(xs) in xs && forall x | x in xs && x.Some? :: x.value <= Max(xs).value
  {
    if xs != [] {
      MaxIs(xs[1..]);
      assert forall x | x in xs :: x == xs[0] || x in xs[1..];
    }
  }

  lemma {:induction false} MinIs(xs: seq<Option<real>>)
    ensures Min(xs).None? <==> forall x | x in xs :: x.None?
    ensures Min(xs).Some? ==> Min(xs) in xs && forall x | x in xs && x.Some? :: Min(xs).value <= x.value
  {
    if xs != [] {
      MinIs(xs[1..]);
      assert forall x | x in xs :: x == xs[0] || x in xs[1..];
    }
  }

  /** How far the known values lie above a value, all together. */
  function Excess(xs: seq<Option<real>>, value: real): real {
    if xs == [] then 0.0
    else Excess(xs[..|xs| - 1], value) + (if xs[|xs| - 1].Some? then xs[|xs| - 1].value - value else 0.0)
  }

  lemma {:induction false} SumIs(xs: seq<Option<real>>, value: real)
    ensures Excess(xs, value) == Sum(xs) - value * Count(xs) as real
  {
    hide Sum, Count;
    if xs == [] {
      NoSum();
    } else {
      var front, last := xs[..|xs| - 1], xs[|xs| - 1];
      SumIs(front, value);
      SumSnoc(front, last);
      assert xs == front + [last];
      Distribute(value, Count(front), if last.Some? then 1 else 0);
    }
  }

  lemma NoSum()
    ensures Sum([]) == 0.0 && Count([]) == 0
  {
  }

  lemma {:induction false} CountIsZero(xs: seq<Option<real>>)
    ensures Count(xs) == 0 <==> forall x | x in xs :: x.None?
  {
    if xs != [] {
      CountIsZero(xs[1..]);
      assert xs[0] in xs && forall x | x in xs[1..] :: x in xs;
      assert forall x | x in xs :: x == xs[0] || x in xs[1..];
    }
  }

  lemma Distribute(value: real, m: int, n: int)
    ensures value * (m + n) as real == value * m as real + value * n as real
  {
  }

  lemma {:induction false} SumSnoc(xs: seq<Option<real>>, x: Option<real>)
    ensures Sum(xs + [x]) == Sum(xs) + if x.Some? then x.value else 0.0
    ensures Count(xs + [x]) == Count(xs) + if x.Some? then 1 else 0
  {
    if xs == [] {
      assert [] + [x] == [x] && [x][1..] == [];
    } else {
      assert (xs + [x])[1..] == xs[1..] + [x];
      SumSnoc(xs[1..], x);
    }
  }

  /** The average is the value above and below which the known values balance; NULLs count for nothing. */
  lemma AvgIs(xs: seq<Option<real>>)
    ensures Avg(xs).None? <==> forall x | x in xs :: x.None?
    ensures Avg(xs).Some? ==> Excess(xs, Avg(xs).value) == 0.0
  {
    CountIsZero(xs);
    if Count(xs) != 0 {
      SumIs(xs, Avg(xs).value);
    }
  }
}
