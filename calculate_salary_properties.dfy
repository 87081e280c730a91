/**
 * What the salary engine promises, proved about its definitions: sums do not
 * depend on the order members are taken in, the SALES walk adds up every
 * transitive descendant exactly once, and the per-role bonus rules.
 */
module CalculateSalaryProperties {
  import opened Wrappers
  import opened Constants
  import opened Tenure
  import opened Staff
  import opened CalculateSalary

  // ---------------------------------------------------------------------------
  // Order independence of the sums
  // ---------------------------------------------------------------------------

  /**
   * Any member of `ids` may be taken first: the sum of salaries does not
   * depend on the order in which the fanned-out computations finish.
   */
  lemma {:induction false} SumSalariesPick(roster: Roster, rank: Rank, now: Date, ids: set<int>, i: int)
    requires Ranked(roster, rank) && ids <= roster.Keys && i in ids
    ensures SumSalaries(roster, rank, now, ids) == Salary(roster, rank, now, i) + SumSalaries(roster, rank, now, ids - {i})
    decreases |ids|
  {
    var m := LeastOf(ids);
    if i != m {
      SumSalariesPick(roster, rank, now, ids - {m}, i);
      SumSalariesPick(roster, rank, now, ids - {i}, m);
      assert ids - {m} - {i} == ids - {i} - {m};
    }
  }

  /** The same order independence for the sum the SALES walk takes at each level. */
  lemma {:induction false} SumTotalsPick(roster: Roster, rank: Rank, now: Date, ids: set<int>, i: int)
    requires Ranked(roster, rank) && ids <= roster.Keys && i in ids
    ensures SumTotals(roster, rank, now, ids)
         == Salary(roster, rank, now, i) + TotalSalaries(roster, rank, now, i) + SumTotals(roster, rank, now, ids - {i})
    decreases |ids|
  {
    var m := LeastOf(ids);
    if i != m {
      SumTotalsPick(roster, rank, now, ids - {m}, i);
      SumTotalsPick(roster, rank, now, ids - {i}, m);
      assert ids - {m} - {i} == ids - {i} - {m};
    }
  }

  /** The sum of salaries over two disjoint groups is the sum of the two sums. */
  lemma {:induction false} SumSalariesUnion(roster: Roster, rank: Rank, now: Date, a: set<int>, b: set<int>)
    requires Ranked(roster, rank) && a <= roster.Keys && b <= roster.Keys
    requires a * b == {}
    ensures SumSalaries(roster, rank, now, a + b) == SumSalaries(roster, rank, now, a) + SumSalaries(roster, rank, now, b)
    decreases |a|
  {
    if a == {} {
      assert a + b == b;
    } else {
      var m := LeastOf(a);
      SumSalariesPick(roster, rank, now, a + b, m);
      assert (a + b) - {m} == (a - {m}) + b;
      SumSalariesUnion(roster, rank, now, a - {m}, b);
    }
  }

  /** `n` copies of the amount `c` added up. */
  function Copies(c: real, n: nat): (total: real)
  {
    if n == 0 then 0.0 else c + Copies(c, n - 1)
  }

  /** `n` copies of `c` make `c` times `n`. */
  lemma {:induction false} CopiesIsProduct(c: real, n: nat)
    ensures Copies(c, n) == c * n as real
  {
    if n > 0 {
      CopiesIsProduct(c, n - 1);
      assert c * n as real == c + c * (n - 1) as real;
    }
  }

  /** Members that all earn `c` add up to `c` times their number. */
  lemma {:induction false} SumSalariesOfEqualSalaries(roster: Roster, rank: Rank, now: Date, ids: set<int>, c: real)
    requires Ranked(roster, rank) && ids <= roster.Keys
    requires forall i :: i in ids ==> Salary(roster, rank, now, i) == c
    ensures SumSalaries(roster, rank, now, ids) == Copies(c, |ids|)
    decreases |ids|
  {
    if ids != {} {
      var m := LeastOf(ids);
      var rest := ids - {m};
      SumSalariesOfEqualSalaries(roster, rank, now, rest, c);
      assert |ids| == |rest| + 1;
    }
  }

  // ---------------------------------------------------------------------------
  // getSumSalaryOfStaff
  // ---------------------------------------------------------------------------

  /**
   * The staff total counts every member once with its own full salary, even a
   * member whose salary already feeds a supervisor's bonus: taking any member
   * out of the roster's sum leaves exactly that member's salary.
   */
  lemma SumOfStaffCountsEveryMember(roster: Roster, rank: Rank, now: Date, id: int)
    requires Ranked(roster, rank) && id in roster
    ensures GetSumSalaryOfStaff(roster, rank, now)
         == Salary(roster, rank, now, id) + SumSalaries(roster, rank, now, roster.Keys - {id})
  {
    SumSalariesPick(roster, rank, now, roster.Keys, id);
  }

  /** A roster of `n` members who each earn `c` totals `n * c` (three at 2500 give 7500). */
  lemma SumOfStaffWithEqualSalaries(roster: Roster, rank: Rank, now: Date, c: real)
    requires Ranked(roster, rank)
    requires forall i :: i in roster ==> Salary(roster, rank, now, i) == c
    ensures GetSumSalaryOfStaff(roster, rank, now) == c * |roster| as real
  {
    SumSalariesOfEqualSalaries(roster, rank, now, roster.Keys, c);
    assert |roster.Keys| == |roster|;
    CopiesIsProduct(c, |roster|);
  }

  // ---------------------------------------------------------------------------
  // Transitive descendants
  // ---------------------------------------------------------------------------

  /** Every member reachable downward from `id` through supervisor links. */
  ghost function Descendants(roster: Roster, rank: Rank, id: int): (d: set<int>)
    requires Ranked(roster, rank) && id in roster
    ensures d <= roster.Keys
    ensures forall x :: x in d ==> rank[x] < rank[id]
    decreases rank[id], 3
  {
    var subs := Subordinates(roster, id);
    RankBoundAtMost(rank, subs, rank[id]);
    Cover(roster, rank, subs)
  }

  /** The members of `ids` together with all their descendants. */
  ghost function Cover(roster: Roster, rank: Rank, ids: set<int>): (c: set<int>)
    requires Ranked(roster, rank) && ids <= roster.Keys
    ensures c <= roster.Keys
    ensures forall x :: x in c ==> rank[x] < RankBound(rank, ids)
    decreases RankBound(rank, ids), 2
  {
    set x | x in roster && CoveredBy(roster, rank, ids, x)
  }

  /** `x` is one of `ids` or a descendant of one of them. */
  ghost predicate CoveredBy(roster: Roster, rank: Rank, ids: set<int>, x: int): (b: bool)
    requires Ranked(roster, rank) && ids <= roster.Keys
    ensures b ==> x in roster && rank[x] < RankBound(rank, ids)
    decreases RankBound(rank, ids), 1
  {
    exists s :: s in ids && InTree(roster, rank, s, x)
  }

  /** `x` is `s` or one of its descendants. */
  ghost predicate InTree(roster: Roster, rank: Rank, s: int, x: int)
    requires Ranked(roster, rank) && s in roster
    decreases rank[s], 4
  {
    x == s || x in Descendants(roster, rank, s)
  }

  /**
   * Descendants seen upward: `x` is a descendant of `a` exactly when its
   * supervisor is `a` or is itself a descendant of `a`.
   */
  lemma {:induction false} DescendantsByParent(roster: Roster, rank: Rank, a: int, x: int)
    requires Ranked(roster, rank) && a in roster
    ensures x in Descendants(roster, rank, a)
        <==> x in roster && roster[x].supervisorId.Some?
             && (roster[x].supervisorId.value == a || roster[x].supervisorId.value in Descendants(roster, rank, a))
    decreases rank[a]
  {
    var subs := Subordinates(roster, a);
    assert Descendants(roster, rank, a) == Cover(roster, rank, subs);
    if x in Descendants(roster, rank, a) {
      assert CoveredBy(roster, rank, subs, x);
      var s :| s in subs && InTree(roster, rank, s, x);
      if x != s {
        DescendantsByParent(roster, rank, s, x);
        var p := roster[x].supervisorId.value;
        assert InTree(roster, rank, s, p);
        assert CoveredBy(roster, rank, subs, p);
      }
    }
    if x in roster && roster[x].supervisorId.Some? {
      var p := roster[x].supervisorId.value;
      if p == a {
        assert x in subs && InTree(roster, rank, x, x);
        assert CoveredBy(roster, rank, subs, x);
      } else if p in Descendants(roster, rank, a) {
        assert CoveredBy(roster, rank, subs, p);
        var s :| s in subs && InTree(roster, rank, s, p);
        DescendantsByParent(roster, rank, s, x);
        assert InTree(roster, rank, s, x);
        assert CoveredBy(roster, rank, subs, x);
      }
    }
  }

  /**
   * Two subtrees that share a member are nested: each member has one
   * supervisor, so the chains above a shared member meet.
   */
  lemma {:induction false} TreesSharingAMemberNest(roster: Roster, rank: Rank, s: int, t: int, x: int)
    requires Ranked(roster, rank) && s in roster && t in roster
    requires InTree(roster, rank, s, x) && InTree(roster, rank, t, x)
    ensures s == t || s in Descendants(roster, rank, t) || t in Descendants(roster, rank, s)
    decreases rank[s] - rank[x]
  {
    if x != s && x != t {
      DescendantsByParent(roster, rank, s, x);
      DescendantsByParent(roster, rank, t, x);
      var p := roster[x].supervisorId.value;
      assert p in roster && rank[x] < rank[p];
      assert InTree(roster, rank, s, p) && InTree(roster, rank, t, p);
      TreesSharingAMemberNest(roster, rank, s, t, p);
    }
  }

  /** The subtrees under two different direct subordinates of `a` share no member. */
  lemma SiblingTreesDisjoint(roster: Roster, rank: Rank, a: int, s1: int, s2: int, x: int)
    requires Ranked(roster, rank) && a in roster
    requires s1 in Subordinates(roster, a) && s2 in Subordinates(roster, a) && s1 != s2
    ensures !(InTree(roster, rank, s1, x) && InTree(roster, rank, s2, x))
  {
    if InTree(roster, rank, s1, x) && InTree(roster, rank, s2, x) {
      TreesSharingAMemberNest(roster, rank, s1, s2, x);
      if s1 in Descendants(roster, rank, s2) {
        DescendantsByParent(roster, rank, s2, s1);
      } else {
        DescendantsByParent(roster, rank, s1, s2);
      }
    }
  }

  /** A member covered by `ids` is in `m`'s subtree or covered by the others. */
  lemma CoverSplitOut(roster: Roster, rank: Rank, ids: set<int>, m: int, x: int)
    requires Ranked(roster, rank) && ids <= roster.Keys && m in ids
    ensures x in Cover(roster, rank, ids) ==> InTree(roster, rank, m, x) || x in Cover(roster, rank, ids - {m})
  {
    if x in Cover(roster, rank, ids) {
      assert CoveredBy(roster, rank, ids, x);
      var s :| s in ids && InTree(roster, rank, s, x);
      if s != m {
        assert s in ids - {m};
        assert CoveredBy(roster, rank, ids - {m}, x);
      }
    }
  }

  /** A member of `m`'s subtree or covered by the others is covered by `ids`. */
  lemma CoverSplitIn(roster: Roster, rank: Rank, ids: set<int>, m: int, x: int)
    requires Ranked(roster, rank) && ids <= roster.Keys && m in ids
    ensures InTree(roster, rank, m, x) || x in Cover(roster, rank, ids - {m}) ==> x in Cover(roster, rank, ids)
  {
    if x in Cover(roster, rank, ids - {m}) {
      assert CoveredBy(roster, rank, ids - {m}, x);
      var s :| s in ids - {m} && InTree(roster, rank, s, x);
      assert CoveredBy(roster, rank, ids, x);
    } else if InTree(roster, rank, m, x) {
      assert CoveredBy(roster, rank, ids, x);
    }
  }

  /** A cover of several members is the first one's subtree joined with the cover of the rest. */
  lemma CoverSplit(roster: Roster, rank: Rank, ids: set<int>, m: int)
    requires Ranked(roster, rank) && ids <= roster.Keys && m in ids
    ensures Cover(roster, rank, ids) == ({m} + Descendants(roster, rank, m)) + Cover(roster, rank, ids - {m})
  {
    CoverSplitSubset(roster, rank, ids, m);
    CoverSplitSuperset(roster, rank, ids, m);
  }

  lemma CoverSplitSubset(roster: Roster, rank: Rank, ids: set<int>, m: int)
    requires Ranked(roster, rank) && ids <= roster.Keys && m in ids
    ensures Cover(roster, rank, ids) <= ({m} + Descendants(roster, rank, m)) + Cover(roster, rank, ids - {m})
  {
    forall x | x in Cover(roster, rank, ids)
      ensures x in ({m} + Descendants(roster, rank, m)) + Cover(roster, rank, ids - {m})
    {
      CoverSplitOut(roster, rank, ids, m, x);
    }
  }

  lemma CoverSplitSuperset(roster: Roster, rank: Rank, ids: set<int>, m: int)
    requires Ranked(roster, rank) && ids <= roster.Keys && m in ids
    ensures ({m} + Descendants(roster, rank, m)) + Cover(roster, rank, ids - {m}) <= Cover(roster, rank, ids)
  {
    forall x | x in ({m} + Descendants(roster, rank, m)) + Cover(roster, rank, ids - {m})
      ensures x in Cover(roster, rank, ids)
    {
      CoverSplitIn(roster, rank, ids, m, x);
    }
  }

  /** For siblings, the first one's subtree and the cover of the others share no member. */
  lemma SiblingCoverDisjoint(roster: Roster, rank: Rank, a: int, ids: set<int>, m: int)
    requires Ranked(roster, rank) && a in roster
    requires ids <= Subordinates(roster, a) && m in ids
    ensures ({m} + Descendants(roster, rank, m)) * Cover(roster, rank, ids - {m}) == {}
  {
    var rest := ids - {m};
    forall x | InTree(roster, rank, m, x)
      ensures x !in Cover(roster, rank, rest)
    {
      if x in Cover(roster, rank, rest) {
        assert CoveredBy(roster, rank, rest, x);
        var s :| s in rest && InTree(roster, rank, s, x);
        SiblingTreesDisjoint(roster, rank, a, m, s, x);
      }
    }
  }

  // ---------------------------------------------------------------------------
  // The SALES walk
  // ---------------------------------------------------------------------------

  /**
   * calculateTotalSalaries over a group of direct subordinates of `a` adds up
   * the salary of every member of their subtrees, each exactly once.
   */
  lemma {:induction false} SumTotalsIsCoverSum(roster: Roster, rank: Rank, now: Date, a: int, ids: set<int>)
    requires Ranked(roster, rank) && a in roster && ids <= Subordinates(roster, a)
    ensures SumTotals(roster, rank, now, ids) == SumSalaries(roster, rank, now, Cover(roster, rank, ids))
    decreases rank[a], 0, |ids|
  {
    if ids == {} {
      assert Cover(roster, rank, ids) == {};
    } else {
      var m := LeastOf(ids);
      var tree := {m} + Descendants(roster, rank, m);
      TotalSalariesIsDescendantSum(roster, rank, now, m);
      SumTotalsIsCoverSum(roster, rank, now, a, ids - {m});
      CoverSplit(roster, rank, ids, m);
      SiblingCoverDisjoint(roster, rank, a, ids, m);
      SumSalariesUnion(roster, rank, now, tree, Cover(roster, rank, ids - {m}));
      SumSalariesPick(roster, rank, now, tree, m);
      assert tree - {m} == Descendants(roster, rank, m);
    }
  }

  /** calculateTotalSalaries(id) is the sum of the salaries of all of `id`'s descendants. */
  lemma {:induction false} TotalSalariesIsDescendantSum(roster: Roster, rank: Rank, now: Date, id: int)
    requires Ranked(roster, rank) && id in roster
    ensures TotalSalaries(roster, rank, now, id) == SumSalaries(roster, rank, now, Descendants(roster, rank, id))
    decreases rank[id], 1
  {
    SumTotalsIsCoverSum(roster, rank, now, id, Subordinates(roster, id));
  }

  // ---------------------------------------------------------------------------
  // The bonus rules per role
  // ---------------------------------------------------------------------------

  /** An EMPLOYEE earns no subordinate bonus, whatever the roster holds. */
  lemma EmployeeBonusIsZero(roster: Roster, rank: Rank, now: Date, id: int)
    requires Ranked(roster, rank) && id in roster && roster[id].role == EMPLOYEE
    ensures SubordinateBonus(roster, rank, now, id) == 0.0
  {
  }

  /**
   * A MANAGER's bonus is half a percent of the direct subordinates' salaries;
   * members further down count only through those salaries.
   */
  lemma ManagerBonusIsDirectShare(roster: Roster, rank: Rank, now: Date, id: int)
    requires Ranked(roster, rank) && id in roster && roster[id].role == MANAGER
    ensures SubordinateBonus(roster, rank, now, id) == 0.005 * SumSalaries(roster, rank, now, Subordinates(roster, id))
    ensures Subordinates(roster, id) == {} ==> SubordinateBonus(roster, rank, now, id) == 0.0
  {
  }

  /**
   * A SALES member's bonus is three tenths of a percent of the salaries of all
   * transitive descendants, each counted once; with no subordinates it is 0.
   */
  lemma SalesBonusIsDescendantShare(roster: Roster, rank: Rank, now: Date, id: int)
    requires Ranked(roster, rank) && id in roster && roster[id].role == SALES
    ensures SubordinateBonus(roster, rank, now, id)
         == 0.003 * SumSalaries(roster, rank, now, Descendants(roster, rank, id))
    ensures Subordinates(roster, id) == {} ==> SubordinateBonus(roster, rank, now, id) == 0.0
  {
    TotalSalariesIsDescendantSum(roster, rank, now, id);
    if Subordinates(roster, id) == {} {
      assert Descendants(roster, rank, id) == {};
    }
  }

  // ---------------------------------------------------------------------------
  // The bonus cases of the source's tests, on concrete rosters
  // ---------------------------------------------------------------------------

  /** An EMPLOYEE, whose bonus is 0 whoever reports to them, who joined on `now` earns exactly a whole-cents base. */
  lemma NewcomerEarnsBase(roster: Roster, rank: Rank, now: Date, id: int)
    requires Ranked(roster, rank) && id in roster
    requires roster[id].joinedDate == now && IsCents(roster[id].baseSalary)
    requires roster[id].role == EMPLOYEE
    ensures Salary(roster, rank, now, id) == roster[id].baseSalary
  {
    Round2OfCents(roster[id].baseSalary);
  }

  /** A MANAGER over two direct reports earning 3000 and 3500 gets 32.5. */
  lemma ManagerBonusExample(now: Date)
    ensures var roster := map[1 := Member(MANAGER, 5000.0, Date(2020, 1, 1), None),
                              2 := Member(EMPLOYEE, 3000.0, now, Some(1)),
                              3 := Member(EMPLOYEE, 3500.0, now, Some(1))];
            var rank := map[1 := 1, 2 := 0, 3 := 0];
            Ranked(roster, rank) && SubordinateBonus(roster, rank, now, 1) == 32.5
  {
    var roster := map[1 := Member(MANAGER, 5000.0, Date(2020, 1, 1), None),
                      2 := Member(EMPLOYEE, 3000.0, now, Some(1)),
                      3 := Member(EMPLOYEE, 3500.0, now, Some(1))];
    var rank: Rank := map[1 := 1, 2 := 0, 3 := 0];
    assert Ranked(roster, rank);
    assert Subordinates(roster, 1) == {2, 3};
    NewcomerEarnsBase(roster, rank, now, 2);
    NewcomerEarnsBase(roster, rank, now, 3);
    SumSalariesPick(roster, rank, now, {2, 3}, 2);
    assert {2, 3} - {2} == {3};
    SumSalariesPick(roster, rank, now, {3}, 3);
  }

  /** A SALES member over two direct reports earning 2500 and 2000 gets 13.5. */
  lemma SalesBonusExample(now: Date)
    ensures var roster := map[1 := Member(SALES, 4000.0, Date(2019, 1, 1), None),
                              2 := Member(EMPLOYEE, 2500.0, now, Some(1)),
                              3 := Member(EMPLOYEE, 2000.0, now, Some(1))];
            var rank := map[1 := 1, 2 := 0, 3 := 0];
            Ranked(roster, rank) && SubordinateBonus(roster, rank, now, 1) == 13.5
  {
    var roster := map[1 := Member(SALES, 4000.0, Date(2019, 1, 1), None),
                      2 := Member(EMPLOYEE, 2500.0, now, Some(1)),
                      3 := Member(EMPLOYEE, 2000.0, now, Some(1))];
    var rank: Rank := map[1 := 1, 2 := 0, 3 := 0];
    assert Ranked(roster, rank);
    assert Subordinates(roster, 1) == {2, 3};
    assert Subordinates(roster, 2) == {} && Subordinates(roster, 3) == {};
    NewcomerEarnsBase(roster, rank, now, 2);
    NewcomerEarnsBase(roster, rank, now, 3);
    SumTotalsPick(roster, rank, now, {2, 3}, 2);
    assert {2, 3} - {2} == {3};
    SumTotalsPick(roster, rank, now, {3}, 3);
  }

  /**
   * A roster three levels deep: a SALES member (1) over an EMPLOYEE (2, base
   * 2500) and a MANAGER (3, base 2000), who supervises an EMPLOYEE (4, base
   * 1000). Everyone but the SALES member joined on `now`.
   */
  function ThreeLevelRoster(now: Date): Roster
  {
    map[1 := Member(SALES, 4000.0, Date(2019, 1, 1), None),
        2 := Member(EMPLOYEE, 2500.0, now, Some(1)),
        3 := Member(MANAGER, 2000.0, now, Some(1)),
        4 := Member(EMPLOYEE, 1000.0, now, Some(3))]
  }

  function ThreeLevelRank(): Rank
  {
    map[1 := 2, 2 := 0, 3 := 1, 4 := 0]
  }

  /** In the three-level roster the middle MANAGER earns 2005, and the SALES walk below it totals 1000. */
  lemma ThreeLevelManager(now: Date)
    ensures Ranked(ThreeLevelRoster(now), ThreeLevelRank())
    ensures Salary(ThreeLevelRoster(now), ThreeLevelRank(), now, 3) == 2005.0
    ensures TotalSalaries(ThreeLevelRoster(now), ThreeLevelRank(), now, 3) == 1000.0
  {
    var roster, rank := ThreeLevelRoster(now), ThreeLevelRank();
    assert Ranked(roster, rank);
    assert Subordinates(roster, 4) == {};
    assert Subordinates(roster, 3) == {4};
    NewcomerEarnsBase(roster, rank, now, 4);
    SumSalariesPick(roster, rank, now, {4}, 4);
    assert SubordinateBonus(roster, rank, now, 3) == 5.0;
    Round2OfCents(2005.0);
    SumTotalsPick(roster, rank, now, {4}, 4);
  }

  /**
   * The SALES walk reaches every level: in the three-level roster the bonus of
   * the SALES member is 0.003 * (2500 + 2005 + 1000).
   */
  lemma SalesBonusCountsGrandchildren(now: Date)
    ensures Ranked(ThreeLevelRoster(now), ThreeLevelRank())
    ensures SubordinateBonus(ThreeLevelRoster(now), ThreeLevelRank(), now, 1) == 16.515
  {
    var roster, rank := ThreeLevelRoster(now), ThreeLevelRank();
    ThreeLevelManager(now);
    assert Subordinates(roster, 1) == {2, 3};
    assert Subordinates(roster, 2) == {};
    NewcomerEarnsBase(roster, rank, now, 2);
    SumTotalsPick(roster, rank, now, {2, 3}, 2);
    assert {2, 3} - {2} == {3};
    SumTotalsPick(roster, rank, now, {3}, 3);
  }
}
