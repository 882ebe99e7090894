/**
 The gaps-and-islands numbering of the report queries: a running SUM of the rows whose flag changed from LAG's.
 Grouping the rows whose flag is true by that number gives exactly the maximal runs of true flags, in order,
 NULL flags included.
 */
module Islands {
  import opened Wrappers
  import opened SqlLogic

  // ----- As the queries compute it -----

  function Lag(flags: seq<Bool3>, i: nat): Bool3
    requires i < |flags|
  {
    if i == 0 then None else flags[i - 1]
  }

  /** CASE WHEN flag != LAG(flag) OR LAG(flag) IS NULL THEN 1 ELSE 0 END. */
  function IsChange(flags: seq<Bool3>, i: nat): nat
    requires i < |flags|
  {
    if Or3(Differs(flags[i], Lag(flags, i)), IsNull(Lag(flags, i))) == Some(true) then 1 else 0
  }

  /** SUM(is_change) OVER (ORDER BY device_time). */
  function IslandId(flags: seq<Bool3>, i: nat): nat
    requires i < |flags|
  {
    (if i == 0 then 0 else IslandId(flags, i - 1)) + IsChange(flags, i)
  }

  predicate On(flags: seq<Bool3>, i: nat)
    requires i < |flags|
  {
    flags[i] == Some(true)
  }

  /** WHERE flag = true GROUP BY island id: the rows of group g, from row i on. */
  function GroupFrom(flags: seq<Bool3>, g: nat, i: nat): seq<nat>
    requires i <= |flags|
    decreases |flags| - i
  {
    if i == |flags| then []
    else (if On(flags, i) && IslandId(flags, i) == g then [i] else []) + GroupFrom(flags, g, i + 1)
  }

  function Group(flags: seq<Bool3>, g: nat): seq<nat> {
    GroupFrom(flags, g, 0)
  }

  // ----- What it means -----

  /** Rows lo up to but not including hi. */
  datatype Run = Run(lo: nat, hi: nat)

  /** All flags in the run are true, and it cannot be extended. */
  predicate Maximal(flags: seq<Bool3>, r: Run) {
    && r.lo < r.hi <= |flags|
    && (forall k | r.lo <= k < r.hi :: On(flags, k))
    && (r.lo == 0 || !On(flags, r.lo - 1))
    && (r.hi == |flags| || !On(flags, r.hi))
  }

  lemma {:induction false} IdsGrow(flags: seq<Bool3>, i: nat, j: nat)
    requires i <= j < |flags|
    ensures IslandId(flags, i) <= IslandId(flags, j)
    decreases j
  {
    if i < j {
      IdsGrow(flags, i, j - 1);
    }
  }

  lemma {:induction false} RunSharesId(flags: seq<Bool3>, i: nat, j: nat)
    requires i <= j < |flags|
    requires forall k | i <= k <= j :: On(flags, k)
    ensures IslandId(flags, i) == IslandId(flags, j)
    decreases j
  {
    if i < j {
      assert On(flags, j - 1) && On(flags, j);
      RunSharesId(flags, i, j - 1);
    }
  }

  /** Two true rows have the same island id exactly when every row between them is true. */
  lemma {:induction false} SameIsland(flags: seq<Bool3>, i: nat, j: nat)
    requires i <= j < |flags| && On(flags, i) && On(flags, j)
    ensures IslandId(flags, i) == IslandId(flags, j) <==> forall k | i <= k <= j :: On(flags, k)
    decreases j
  {
    if forall k | i <= k <= j :: On(flags, k) {
      RunSharesId(flags, i, j);
    } else {
      if On(flags, j - 1) {
        SameIsland(flags, i, j - 1);
        assert exists k :: i <= k <= j - 1 && !On(flags, k);
      } else {
        IdsGrow(flags, i, j - 1);
        assert IsChange(flags, j) == 1;
      }
    }
  }

  /** The first row at or after i whose flag is not true. */
  function RunEnd(flags: seq<Bool3>, i: nat): (e: nat)
    requires i <= |flags|
    ensures i <= e <= |flags|
    ensures forall k | i <= k < e :: On(flags, k)
    ensures e == |flags| || !On(flags, e)
    decreases |flags| - i
  {
    if i == |flags| || !On(flags, i) then i else RunEnd(flags, i + 1)
  }

  /** The runs from row i on, in order. */
  function RunsFrom(flags: seq<Bool3>, i: nat): (runs: seq<Run>)
    requires i <= |flags|
    ensures forall r | r in runs :: i <= r.lo < r.hi <= |flags|
    decreases |flags| - i
  {
    if i == |flags| then []
    else if !On(flags, i) then RunsFrom(flags, i + 1)
    else [Run(i, RunEnd(flags, i))] + RunsFrom(flags, RunEnd(flags, i))
  }

  function Runs(flags: seq<Bool3>): (runs: seq<Run>)
    ensures forall r | r in runs :: r.lo < r.hi <= |flags|
  {
    RunsFrom(flags, 0)
  }

  predicate Ascending(runs: seq<Run>) {
    forall a, b | 0 <= a < b < |runs| :: runs[a].lo < runs[b].lo
  }

  lemma MaximalUnique(flags: seq<Bool3>, r: Run, s: Run)
    requires Maximal(flags, r) && Maximal(flags, s) && r.lo <= s.lo < r.hi
    ensures r == s
  {
  }

  /** RunsFrom lists every maximal run from a boundary on, nothing else, and from left to right. */
  lemma {:induction false} RunsAreMaximal(flags: seq<Bool3>, i: nat)
    requires i <= |flags| && (i == 0 || i == |flags| || !On(flags, i - 1) || !On(flags, i))
    ensures forall r :: r in RunsFrom(flags, i) <==> Maximal(flags, r) && i <= r.lo
    ensures Ascending(RunsFrom(flags, i))
    decreases |flags| - i
  {
    if i < |flags| {
      if !On(flags, i) {
        RunsAreMaximal(flags, i + 1);
        assert forall r | Maximal(flags, r) && i <= r.lo :: i + 1 <= r.lo;
      } else {
        var first := Run(i, RunEnd(flags, i));
        var rest := RunsFrom(flags, first.hi);
        RunsAreMaximal(flags, first.hi);
        assert Maximal(flags, first);
        forall r
          ensures r in RunsFrom(flags, i) <==> Maximal(flags, r) && i <= r.lo
        {
          if Maximal(flags, r) && i <= r.lo < first.hi {
            MaximalUnique(flags, first, r);
          }
        }
        assert forall b | 0 <= b < |rest| :: rest[b] in rest;
      }
    }
  }

  /** Maximal runs neither overlap nor touch. */
  lemma RunsAreDisjoint(flags: seq<Bool3>, r: Run, s: Run)
    requires Maximal(flags, r) && Maximal(flags, s) && r.lo < s.lo
    ensures r.hi < s.lo
  {
    if s.lo < r.hi {
      MaximalUnique(flags, r, s);
    }
  }

  // ----- Groups are runs -----

  function Range(lo: nat, hi: nat): seq<nat>
    decreases hi - lo
  {
    if lo >= hi then [] else [lo] + Range(lo + 1, hi)
  }

  /** Island ids single out a maximal run among the true rows. */
  lemma InGroup(flags: seq<Bool3>, r: Run, i: nat)
    requires Maximal(flags, r) && i < |flags|
    ensures On(flags, i) && IslandId(flags, i) == IslandId(flags, r.lo) <==> r.lo <= i < r.hi
  {
    if On(flags, i) {
      if i < r.lo {
        SameIsland(flags, i, r.lo);
      } else {
        SameIsland(flags, r.lo, i);
      }
    }
  }

  /** The group of a maximal run, scanned from any row, collects what is left of the run. */
  lemma {:induction false} GroupIsRun(flags: seq<Bool3>, r: Run, i: nat)
    requires Maximal(flags, r) && i <= |flags|
    ensures GroupFrom(flags, IslandId(flags, r.lo), i) == Range(if i <= r.lo then r.lo else i, r.hi)
    decreases |flags| - i
  {
    hide IslandId, On;
    if i < |flags| {
      InGroup(flags, r, i);
      GroupIsRun(flags, r, i + 1);
    }
  }

  /** A true row lies in a maximal run with its island id. */
  lemma RunAround(flags: seq<Bool3>, i: nat) returns (r: Run)
    requires i < |flags| && On(flags, i)
    ensures Maximal(flags, r) && r.lo <= i < r.hi && IslandId(flags, r.lo) == IslandId(flags, i)
  {
    var lo: nat := i;
    while lo > 0 && On(flags, lo - 1)
      invariant lo <= i && forall k | lo <= k < RunEnd(flags, i) :: On(flags, k)
    {
      lo := lo - 1;
    }
    SameIsland(flags, lo, i);
    r := Run(lo, RunEnd(flags, i));
  }

  /** The groups that are not empty, by ascending island id. */
  function GroupsTo(flags: seq<Bool3>, ids: nat): seq<seq<nat>> {
    if ids == 0 then []
    else GroupsTo(flags, ids - 1) + (if Group(flags, ids - 1) == [] then [] else [Group(flags, ids - 1)])
  }

  function Groups(flags: seq<Bool3>): seq<seq<nat>> {
    GroupsTo(flags, if flags == [] then 0 else IslandId(flags, |flags| - 1) + 1)
  }

  function Ranges(runs: seq<Run>): seq<seq<nat>> {
    if runs == [] then [] else Ranges(runs[..|runs| - 1]) + [Range(runs[|runs| - 1].lo, runs[|runs| - 1].hi)]
  }

  lemma {:induction false} GroupMembers(flags: seq<Bool3>, g: nat, i: nat)
    requires i <= |flags|
    ensures forall k | k in GroupFrom(flags, g, i) :: i <= k < |flags| && On(flags, k) && IslandId(flags, k) == g
    decreases |flags| - i
  {
    if i < |flags| {
      GroupMembers(flags, g, i + 1);
    }
  }

  ghost predicate Below(flags: seq<Bool3>, r: Run, ids: nat) {
    Maximal(flags, r) && IslandId(flags, r.lo) < ids
  }

  /** Group g is empty, or it is the one maximal run with id g. */
  lemma GroupIsOneRun(flags: seq<Bool3>, g: nat) returns (r: Run)
    ensures Group(flags, g) == [] ==> forall s :: Below(flags, s, g + 1) <==> Below(flags, s, g)
    ensures Group(flags, g) != [] ==>
      && Below(flags, r, g + 1) && Group(flags, g) == Range(r.lo, r.hi)
      && (forall s :: Below(flags, s, g + 1) <==> Below(flags, s, g) || s == r)
      && (forall s | Below(flags, s, g) :: s.lo < r.lo)
  {
    if Group(flags, g) == [] {
      forall s | Below(flags, s, g + 1)
        ensures Below(flags, s, g)
      {
        GroupIsRun(flags, s, 0);
      }
      r := Run(0, 0);
    } else {
      GroupMembers(flags, g, 0);
      assert Group(flags, g)[0] in Group(flags, g);
      r := RunAround(flags, Group(flags, g)[0]);
      GroupIsRun(flags, r, 0);
      forall s | Below(flags, s, g + 1)
        ensures s == r || (Below(flags, s, g) && s.lo < r.lo)
      {
        if IslandId(flags, s.lo) == g {
          InGroup(flags, r, s.lo);
          MaximalUnique(flags, r, s);
        } else if r.lo <= s.lo {
          IdsGrow(flags, r.lo, s.lo);
        }
      }
    }
  }

  lemma {:induction false} GroupsToRuns(flags: seq<Bool3>, ids: nat) returns (runs: seq<Run>)
    ensures forall r :: r in runs <==> Below(flags, r, ids)
    ensures Ascending(runs) && GroupsTo(flags, ids) == Ranges(runs)
  {
    hide Below, Group;
    if ids == 0 {
      runs := [];
      NoneBelow(flags);
    } else {
      var front := GroupsToRuns(flags, ids - 1);
      var r := GroupIsOneRun(flags, ids - 1);
      if Group(flags, ids - 1) == [] {
        runs := front;
      } else {
        runs := front + [r];
        assert runs[..|runs| - 1] == front;
        assert forall a | 0 <= a < |front| :: front[a] in front;
      }
    }
  }

  lemma NoneBelow(flags: seq<Bool3>)
    ensures forall r :: !Below(flags, r, 0)
  {
  }

  lemma {:induction false} AscendingUnique(a: seq<Run>, b: seq<Run>)
    requires Ascending(a) && Ascending(b)
    requires forall r :: r in a <==> r in b
    ensures a == b
  {
    if |a| > 0 || |b| > 0 {
      var some := if |a| > 0 then a[0] else b[0];
      assert some in a || some in b;
      assert some in a && some in b;
      assert a[0] in a && b[0] in b;
      assert a[0] in b && b[0] in a;
      assert a[0] == b[0];
      forall r
        ensures r in a[1..] <==> r in b[1..]
      {
        if r in a[1..] { assert r in a && r.lo > a[0].lo; }
        if r in b[1..] { assert r in b && r.lo > b[0].lo; }
      }
      AscendingUnique(a[1..], b[1..]);
    }
  }

  /** Grouping by island id, in ascending id, is listing the maximal runs from left to right. */
  lemma GroupsAreRuns(flags: seq<Bool3>)
    ensures Groups(flags) == Ranges(Runs(flags))
  {
    hide Maximal;
    var ids := if flags == [] then 0 else IslandId(flags, |flags| - 1) + 1;
    var runs := GroupsToRuns(flags, ids);
    RunsAreMaximal(flags, 0);
    forall r
      ensures r in runs <==> r in Runs(flags)
    {
      if r in Runs(flags) {
        IdsGrow(flags, r.lo, |flags| - 1);
      }
    }
    AscendingUnique(runs, Runs(flags));
  }
}
