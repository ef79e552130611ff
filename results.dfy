/**
 * The result tally `getResult`: internal/core/handler/room_socket/
 * room_socket_handler.go and internal/core/core.go skip empty estimates,
 * the earliest revision in main.go counts them under the key "".
 */
module Results {
  import opened Entity

  /** How many members hold estimate `v`, counted in member order. */
  function Count(members: seq<Member>, v: string): (c: nat)
    ensures c <= |members|
  {
    if members == [] then 0
    else Count(members[..|members| - 1], v) + (if members[|members| - 1].estimatedValue == v then 1 else 0)
  }

  /** The estimate values that occur among the members. */
  function Estimates(members: seq<Member>): set<string>
  {
    if members == [] then {}
    else Estimates(members[..|members| - 1]) + {members[|members| - 1].estimatedValue}
  }

  /** Reference definition of the later revisions' result: each non-empty estimate and how many members hold it. */
  function Tally(members: seq<Member>): map<string, int>
  {
    map v | v in Estimates(members) && v != "" :: Count(members, v)
  }

  /** Reference definition of the earliest revision's result: every estimate, "" included. */
  function TallyAll(members: seq<Member>): map<string, int>
  {
    map v | v in Estimates(members) :: Count(members, v)
  }

  /** The number of members that have submitted an estimate. */
  function Voters(members: seq<Member>): nat
  {
    |members| - Count(members, "")
  }

  /** The sum of the counts of a tally. */
  ghost function SumValues(m: map<string, int>): int
    decreases |m|
  {
    if m == map[] then 0
    else
      var k :| k in m;
      assert |m - {k}| < |m| by { assert (m - {k}).Keys == m.Keys - {k}; }
      m[k] + SumValues(m - {k})
  }

  // ---------------------------------------------------------------------------
  // getResult as the loops in the source compute it

  /** getResult of the later revisions (room_socket_handler.go, core.go). */
  method GetResult(members: seq<Member>) returns (result: map<string, int>)
    ensures result == Tally(members)
  {
    result := map[];
    for i := 0 to |members|
      invariant result == Tally(members[..i])
    {
      TallySnoc(members[..i], members[i]);
      assert members[..i + 1] == members[..i] + [members[i]];
      var v := members[i].estimatedValue;
      if v != "" {
        var c := if v in result then result[v] else 0;
        result := result[v := c + 1];
      }
    }
    assert members[..|members|] == members;
  }

  /** getResult of the earliest revision (main.go), which also counts empty estimates. */
  method GetResultCountingEmpty(members: seq<Member>) returns (result: map<string, int>)
    ensures result == TallyAll(members)
  {
    result := map[];
    for i := 0 to |members|
      invariant result == TallyAll(members[..i])
    {
      TallyAllSnoc(members[..i], members[i]);
      assert members[..i + 1] == members[..i] + [members[i]];
      var v := members[i].estimatedValue;
      var c := if v in result then result[v] else 0;
      result := result[v := c + 1];
    }
    assert members[..|members|] == members;
  }

  // ---------------------------------------------------------------------------
  // Properties of the tallies

  lemma {:induction false} CountZeroIffAbsent(members: seq<Member>, v: string)
    ensures Count(members, v) == 0 <==> v !in Estimates(members)
    decreases |members|
  {
    if members != [] {
      CountZeroIffAbsent(members[..|members| - 1], v);
    }
  }

  lemma CountSnoc(members: seq<Member>, m: Member, v: string)
    ensures Count(members + [m], v) == Count(members, v) + (if m.estimatedValue == v then 1 else 0)
  {
    assert (members + [m])[..|members|] == members;
  }

  lemma EstimatesSnoc(members: seq<Member>, m: Member)
    ensures Estimates(members + [m]) == Estimates(members) + {m.estimatedValue}
  {
    assert (members + [m])[..|members|] == members;
  }

  lemma {:induction false} EstimatesMeaning(members: seq<Member>, v: string)
    ensures v in Estimates(members) <==> exists i :: 0 <= i < |members| && members[i].estimatedValue == v
    decreases |members|
  {
    if members != [] {
      var init := members[..|members| - 1];
      EstimatesMeaning(init, v);
      if v in Estimates(init) {
        var i :| 0 <= i < |init| && init[i].estimatedValue == v;
        assert members[i] == init[i];
      }
      if exists i :: 0 <= i < |members| && members[i].estimatedValue == v {
        var i :| 0 <= i < |members| && members[i].estimatedValue == v;
        if i < |init| { assert init[i] == members[i]; }
      }
    }
  }

  /** Appending one member adds one to the count of its estimate, and changes nothing else. */
  lemma TallyAllSnoc(members: seq<Member>, m: Member)
    ensures TallyAll(members + [m]) == TallyAll(members)[m.estimatedValue := Count(members, m.estimatedValue) + 1]
    ensures m.estimatedValue in TallyAll(members) ==> TallyAll(members)[m.estimatedValue] == Count(members, m.estimatedValue)
    ensures m.estimatedValue !in TallyAll(members) ==> Count(members, m.estimatedValue) == 0
  {
    var e := m.estimatedValue;
    EstimatesSnoc(members, m);
    CountZeroIffAbsent(members, e);
    var all, all' := TallyAll(members), TallyAll(members + [m]);
    var want := all[e := Count(members, e) + 1];
    assert all'.Keys == want.Keys;
    forall v | v in all' ensures all'[v] == want[v] {
      CountSnoc(members, m, v);
    }
  }

  /** The same for the later revisions' tally, where an empty estimate adds nothing. */
  lemma TallySnoc(members: seq<Member>, m: Member)
    ensures Tally(members + [m]) ==
      if m.estimatedValue == "" then Tally(members)
      else Tally(members)[m.estimatedValue := Count(members, m.estimatedValue) + 1]
    ensures m.estimatedValue in Tally(members) ==> Tally(members)[m.estimatedValue] == Count(members, m.estimatedValue)
    ensures m.estimatedValue != "" && m.estimatedValue !in Tally(members) ==> Count(members, m.estimatedValue) == 0
  {
    var e := m.estimatedValue;
    EstimatesSnoc(members, m);
    CountZeroIffAbsent(members, e);
    var t, t' := Tally(members), Tally(members + [m]);
    var want := if e == "" then t else t[e := Count(members, e) + 1];
    assert t'.Keys == want.Keys;
    forall v | v in t' ensures t'[v] == want[v] {
      CountSnoc(members, m, v);
    }
  }

  /** getResult keys are exactly the non-empty estimates held, each mapped to its (positive) holder count. */
  lemma TallyMeaning(members: seq<Member>, v: string)
    ensures v in Tally(members) <==> v != "" && exists i :: 0 <= i < |members| && members[i].estimatedValue == v
    ensures v in Tally(members) ==> Tally(members)[v] == Count(members, v) >= 1
    ensures "" !in Tally(members)
  {
    CountZeroIffAbsent(members, v);
    EstimatesMeaning(members, v);
  }

  /** The later revisions' tally is the earliest revision's with the "" key removed. */
  lemma TallyIsTallyAllWithoutEmpty(members: seq<Member>)
    ensures Tally(members) == TallyAll(members) - {""}
  {
  }

  lemma {:induction false} CountDependsOnEstimatesOnly(a: seq<Member>, b: seq<Member>, v: string)
    requires EstimatesOf(a) == EstimatesOf(b)
    ensures Count(a, v) == Count(b, v)
    decreases |a|
  {
    assert |a| == |EstimatesOf(a)| == |b|;
    if a != [] {
      var n := |a| - 1;
      assert EstimatesOf(a[..n]) == EstimatesOf(b[..n]) by {
        forall i | 0 <= i < n ensures EstimatesOf(a[..n])[i] == EstimatesOf(b[..n])[i] {
          assert EstimatesOf(a)[i] == EstimatesOf(b)[i];
        }
      }
      CountDependsOnEstimatesOnly(a[..n], b[..n], v);
      assert EstimatesOf(a)[n] == EstimatesOf(b)[n];
    }
  }

  /** The tally depends on the estimates only, not on ids, names or activity times. */
  lemma TallyDependsOnEstimatesOnly(a: seq<Member>, b: seq<Member>)
    requires EstimatesOf(a) == EstimatesOf(b)
    ensures Tally(a) == Tally(b) && TallyAll(a) == TallyAll(b)
  {
    forall v ensures Count(a, v) == Count(b, v) && (v in Estimates(a) <==> v in Estimates(b)) {
      CountDependsOnEstimatesOnly(a, b, v);
      CountZeroIffAbsent(a, v);
      CountZeroIffAbsent(b, v);
    }
    assert Estimates(a) == Estimates(b);
  }

  /** Nobody holds an estimate: the later revisions' tally is empty. */
  lemma TallyOfUnvoted(members: seq<Member>)
    requires forall i :: 0 <= i < |members| ==> members[i].estimatedValue == ""
    ensures Tally(members) == map[]
  {
    forall v | v in Estimates(members) ensures v == "" {
      EstimatesMeaning(members, v);
    }
  }

  lemma {:induction false} SumValuesRemove(m: map<string, int>, k: string)
    requires k in m
    ensures SumValues(m) == m[k] + SumValues(m - {k})
    decreases |m|
  {
    var j :| j in m && SumValues(m) == m[j] + SumValues(m - {j});
    if j != k {
      assert (m - {j}).Keys == m.Keys - {j};
      assert (m - {k}).Keys == m.Keys - {k};
      SumValuesRemove(m - {j}, k);
      SumValuesRemove(m - {k}, j);
      assert m - {j} - {k} == m - {k} - {j};
    }
  }

  /** Incrementing one count of a tally (or adding it at 1) raises the sum by one. */
  lemma SumValuesIncrement(m: map<string, int>, k: string)
    ensures SumValues(m[k := (if k in m then m[k] else 0) + 1]) == SumValues(m) + 1
  {
    var m' := m[k := (if k in m then m[k] else 0) + 1];
    SumValuesRemove(m', k);
    if k in m {
      SumValuesRemove(m, k);
      assert m' - {k} == m - {k};
    } else {
      assert m' - {k} == m;
    }
  }

  /** The earliest revision counts every member once: its tally sums to the member count. */
  lemma {:induction false} SumOfTallyAll(members: seq<Member>)
    ensures SumValues(TallyAll(members)) == |members|
    decreases |members|
  {
    if members == [] {
      assert TallyAll(members) == map[];
    } else {
      var init := members[..|members| - 1];
      var m := members[|members| - 1];
      assert members == init + [m];
      SumOfTallyAll(init);
      TallyAllSnoc(init, m);
      SumValuesIncrement(TallyAll(init), m.estimatedValue);
    }
  }

  /**
   * The earliest revision reports a member who has not estimated as a vote
   * for the empty card: one such member gives the result {"": 1}, where the
   * later revisions give an empty result.
   */
  lemma LegacyTallyCountsUnvoted(m: Member)
    requires m.estimatedValue == ""
    ensures TallyAll([m]) == map["" := 1]
    ensures Tally([m]) == map[]
  {
    assert [m][..0] == [];
    assert Estimates([m]) == {""};
    assert Count([m], "") == 1;
  }

  /** The later revisions' tally sums to the number of members that have estimated. */
  lemma SumOfTally(members: seq<Member>)
    ensures SumValues(Tally(members)) == Voters(members)
  {
    SumOfTallyAll(members);
    TallyIsTallyAllWithoutEmpty(members);
    var all := TallyAll(members);
    if "" in all {
      SumValuesRemove(all, "");
    } else {
      CountZeroIffAbsent(members, "");
      assert all - {""} == all;
    }
  }
}
