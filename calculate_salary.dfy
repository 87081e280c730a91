/**
 * The salary engine. A member's salary is the base salary raised by a capped
 * tenure bonus, plus a role-dependent share of subordinates' salaries, rounded
 * to cents. The repository snapshot the engine reads is a finite map from id to
 * member record; a member's direct subordinates are the records whose
 * supervisor is that id.
 *
 * The engine has no guard against supervisor cycles. Every recursive member
 * here takes a ghost ranking of the roster that strictly decreases from a
 * supervisor to each subordinate; it exists only to bound the recursion and
 * states the acyclicity that the source silently relies on.
 */
module CalculateSalary {
  import opened Wrappers
  import opened Constants
  import opened Tenure
  import opened Staff

  /** The ghost ranking used as the termination measure. */
  type Rank = map<int, nat>

  /** The supervisor relation is acyclic, witnessed by `rank`. */
  ghost predicate Ranked(roster: Roster, rank: Rank)
  {
    roster.Keys <= rank.Keys &&
    forall k, s :: k in roster && s in roster && roster[k].supervisorId == Some(s) ==> rank[k] < rank[s]
  }

  /** Every base salary in the roster is non-negative. */
  ghost predicate NonNegativeBases(roster: Roster)
  {
    forall k :: k in roster ==> roster[k].baseSalary >= 0.0
  }

  // ---------------------------------------------------------------------------
  // Rounding and the tenure bonus
  // ---------------------------------------------------------------------------

  /** `x` is a whole number of cents. */
  predicate IsCents(x: real)
  {
    (x * 100.0).Floor as real == x * 100.0
  }

  /**
   * Math.round(x * 100) / 100: the whole number of cents nearest to `x`,
   * a tie going to the larger value.
   */
  function Round2(x: real): (r: real)
    ensures IsCents(r)
    ensures r - 0.005 <= x < r + 0.005
    ensures x >= 0.0 ==> r >= 0.0
  {
    (x * 100.0 + 0.5).Floor as real / 100.0
  }

  /** A value that already is a whole number of cents is left unchanged. */
  lemma Round2OfCents(x: real)
    requires IsCents(x)
    ensures Round2(x) == x
  {
    var n := (x * 100.0).Floor;
    assert (x * 100.0 + 0.5).Floor == n;
  }

  /** Rounding never reverses the order of two amounts. */
  lemma Round2Monotone(x: real, y: real)
    requires x <= y
    ensures Round2(x) <= Round2(y)
  {
    assert (x * 100.0 + 0.5).Floor <= (y * 100.0 + 0.5).Floor;
  }

  /**
   * The tenure bonus fraction: `years` times the role's yearly bonus, but no
   * more than the role's cap.
   */
  function TenureFraction(role: Role, years: nat): (f: real)
    ensures 0.0 <= f <= CapFraction(role)
    ensures f <= years as real * YearBonus(role)
  {
    var accrued := years as real * YearBonus(role);
    if accrued < CapFraction(role) then accrued else CapFraction(role)
  }

  /**
   * The cap is reached exactly at CapYears (10, 8 and 35 years); below it every
   * year adds the full yearly bonus, from it on further tenure adds nothing.
   */
  lemma TenureCapReachedAt(role: Role, years: nat)
    ensures years < CapYears(role) ==> TenureFraction(role, years) == years as real * YearBonus(role)
    ensures years < CapYears(role) ==> TenureFraction(role, years) < CapFraction(role)
    ensures years >= CapYears(role) ==> TenureFraction(role, years) == CapFraction(role)
  {
    var y := years as real;
    match role
    case EMPLOYEE => assert (y < 10.0 <==> y * 0.03 < 0.3);
    case MANAGER => assert (y < 8.0 <==> y * 0.05 < 0.4);
    case SALES => assert (y < 35.0 <==> y * 0.01 < 0.35);
  }

  /** More tenure never lowers the tenure bonus. */
  lemma TenureFractionMonotone(role: Role, y1: nat, y2: nat)
    requires y1 <= y2
    ensures TenureFraction(role, y1) <= TenureFraction(role, y2)
  {
    assert y1 as real * YearBonus(role) <= y2 as real * YearBonus(role) by {
      match role
      case EMPLOYEE =>
      case MANAGER =>
      case SALES =>
    }
  }

  /** calculateSalary's final step: raise the base, add the bonus, round to cents. */
  function SalaryFormula(baseSalary: real, role: Role, years: nat, subordinateBonus: real): (s: real)
    ensures IsCents(s)
    ensures baseSalary >= 0.0 && subordinateBonus >= 0.0 ==> s >= 0.0
  {
    var fraction := TenureFraction(role, years);
    assert baseSalary >= 0.0 ==> baseSalary * (1.0 + fraction) >= 0.0;
    Round2(baseSalary * (1.0 + fraction) + subordinateBonus)
  }

  /**
   * The salary is within half a cent of the unrounded amount: the base raised
   * by the tenure fraction (never above the role's cap) plus the bonus.
   */
  lemma SalaryFormulaWithinHalfCent(baseSalary: real, role: Role, years: nat, subordinateBonus: real)
    ensures var exact := baseSalary * (1.0 + TenureFraction(role, years)) + subordinateBonus;
            exact - 0.005 < SalaryFormula(baseSalary, role, years, subordinateBonus) <= exact + 0.005
  {
  }

  /** The two cases of calculateSalary the source's tests pin down. */
  lemma SalaryFormulaExamples()
    ensures SalaryFormula(3500.0, EMPLOYEE, 5, 0.0) == 4025.0
    ensures SalaryFormula(2500.0, MANAGER, 5, 230.0) == 3355.0
  {
    Round2OfCents(4025.0);
    Round2OfCents(3355.0);
  }

  // ---------------------------------------------------------------------------
  // Subordinates and the termination measure
  // ---------------------------------------------------------------------------

  /** getSubordinates: the members whose supervisor is `id`. */
  function Subordinates(roster: Roster, id: int): (subs: set<int>)
    ensures subs <= roster.Keys
    ensures forall k :: k in subs ==> roster[k].supervisorId == Some(id)
    ensures forall k :: k in roster && roster[k].supervisorId == Some(id) ==> k in subs
  {
    set k | k in roster && roster[k].supervisorId == Some(id)
  }

  /** A member is a direct subordinate of at most one supervisor. */
  lemma SubordinatesOfDistinctSupervisorsDisjoint(roster: Roster, a: int, b: int)
    requires a != b
    ensures Subordinates(roster, a) * Subordinates(roster, b) == {}
  {
  }

  /** One more than the largest rank among `ids` (0 for no ids). */
  ghost function RankBound(rank: Rank, ids: set<int>): (b: nat)
    requires ids <= rank.Keys
    ensures forall i :: i in ids ==> rank[i] < b
    ensures b == 0 || exists i :: i in ids && b == rank[i] + 1
  {
    if ids == {} then 0
    else
      NonEmptyHasElement(ids);
      var i :| i in ids;
      var rest := RankBound(rank, ids - {i});
      if rank[i] + 1 > rest then rank[i] + 1 else rest
  }

  lemma RankBoundAtMost(rank: Rank, ids: set<int>, b: nat)
    requires ids <= rank.Keys
    requires forall i :: i in ids ==> rank[i] < b
    ensures RankBound(rank, ids) <= b
  {
  }

  /** A set that is not empty has an element. */
  lemma NonEmptyHasElement(s: set<int>)
    requires s != {}
    ensures exists x :: x in s
  {
    if forall x :: x !in s {
      assert false;
    }
  }

  predicate IsLeast(m: int, s: set<int>)
  {
    m in s && forall y :: y in s ==> m <= y
  }

  /** Every finite non-empty set of ids has a least element. */
  lemma Least(s: set<int>) returns (m: int)
    requires s != {}
    ensures IsLeast(m, s)
    decreases |s|
  {
    NonEmptyHasElement(s);
    var x :| x in s;
    var rest := s - {x};
    assert forall y :: y in s ==> y == x || y in rest;
    if rest == {} {
      m := x;
    } else {
      var k := Least(rest);
      m := if x < k then x else k;
    }
  }

  lemma HasLeast(s: set<int>)
    requires s != {}
    ensures exists m :: IsLeast(m, s)
  {
    var m := Least(s);
  }

  /** The least id of a non-empty set: the order in which the sums below are taken. */
  function LeastOf(s: set<int>): (m: int)
    requires s != {}
    ensures IsLeast(m, s)
  {
    HasLeast(s);
    var m :| IsLeast(m, s);
    m
  }

  // ---------------------------------------------------------------------------
  // The engine: calculateSalary, calculateSubordinateBonus, calculateTotalSalaries
  // ---------------------------------------------------------------------------

  /** calculateSalary for the member stored under `id`. */
  function Salary(roster: Roster, ghost rank: Rank, now: Date, id: int): (s: real)
    requires Ranked(roster, rank) && id in roster
    ensures IsCents(s)
    ensures NonNegativeBases(roster) ==> s >= 0.0
    decreases rank[id], 3
  {
    var m := roster[id];
    SalaryFormula(m.baseSalary, m.role, YearsWorked(m.joinedDate, now), SubordinateBonus(roster, rank, now, id))
  }

  /**
   * calculateSubordinateBonus: nothing for an EMPLOYEE, half a percent of the
   * direct subordinates' salaries for a MANAGER, and three tenths of a percent
   * of calculateTotalSalaries for a SALES member.
   */
  function SubordinateBonus(roster: Roster, ghost rank: Rank, now: Date, id: int): (b: real)
    requires Ranked(roster, rank) && id in roster
    ensures NonNegativeBases(roster) ==> b >= 0.0
    decreases rank[id], 2
  {
    match roster[id].role
    case EMPLOYEE => 0.0
    case MANAGER =>
      var subs := Subordinates(roster, id);
      RankBoundAtMost(rank, subs, rank[id]);
      0.005 * SumSalaries(roster, rank, now, subs)
    case SALES => 0.003 * TotalSalaries(roster, rank, now, id)
  }

  /**
   * calculateTotalSalaries, the SALES walk: for each direct subordinate, its
   * salary plus the same walk below it.
   */
  function TotalSalaries(roster: Roster, ghost rank: Rank, now: Date, id: int): (t: real)
    requires Ranked(roster, rank) && id in roster
    ensures NonNegativeBases(roster) ==> t >= 0.0
    decreases rank[id], 1
  {
    var subs := Subordinates(roster, id);
    RankBoundAtMost(rank, subs, rank[id]);
    SumTotals(roster, rank, now, subs)
  }

  /** The sum of Salary over `ids` (the Promise.all/reduce of the source). */
  function SumSalaries(roster: Roster, ghost rank: Rank, now: Date, ids: set<int>): (total: real)
    requires Ranked(roster, rank) && ids <= roster.Keys
    ensures NonNegativeBases(roster) ==> total >= 0.0
    decreases RankBound(rank, ids), 0, |ids|
  {
    if ids == {} then 0.0
    else
      var i := LeastOf(ids);
      RankBoundAtMost(rank, ids - {i}, RankBound(rank, ids));
      Salary(roster, rank, now, i) + SumSalaries(roster, rank, now, ids - {i})
  }

  /** The sum over `ids` of each member's salary plus its own TotalSalaries. */
  function SumTotals(roster: Roster, ghost rank: Rank, now: Date, ids: set<int>): (total: real)
    requires Ranked(roster, rank) && ids <= roster.Keys
    ensures NonNegativeBases(roster) ==> total >= 0.0
    decreases RankBound(rank, ids), 0, |ids|
  {
    if ids == {} then 0.0
    else
      var i := LeastOf(ids);
      RankBoundAtMost(rank, ids - {i}, RankBound(rank, ids));
      Salary(roster, rank, now, i) + TotalSalaries(roster, rank, now, i) + SumTotals(roster, rank, now, ids - {i})
  }

  // ---------------------------------------------------------------------------
  // The two exposed operations
  // ---------------------------------------------------------------------------

  datatype SalaryRes = SalaryRes(status: string, salary: real)

  datatype Error = NotFound(message: string)

  const NotFoundMessage: string := "The person does not work in company."

  /** getMemberSalary: NotFound for an unknown id, otherwise "OK" and the salary. */
  function GetMemberSalary(roster: Roster, ghost rank: Rank, now: Date, staffId: int): (r: Result<SalaryRes, Error>)
    requires Ranked(roster, rank)
    ensures r.Failure? <==> staffId !in roster
    ensures r.Failure? ==> r.error == NotFound(NotFoundMessage)
    ensures r.Success? ==> r.value.status == "OK" && r.value.salary == Salary(roster, rank, now, staffId)
    ensures r.Success? ==> IsCents(r.value.salary)
  {
    if staffId !in roster then Failure(NotFound(NotFoundMessage))
    else Success(SalaryRes("OK", Salary(roster, rank, now, staffId)))
  }

  /** getSumSalaryOfStaff: every member's salary, each computed on its own, added up. */
  function GetSumSalaryOfStaff(roster: Roster, ghost rank: Rank, now: Date): (sumSalaries: real)
    requires Ranked(roster, rank)
    ensures roster == map[] ==> sumSalaries == 0.0
    ensures NonNegativeBases(roster) ==> sumSalaries >= 0.0
  {
    SumSalaries(roster, rank, now, roster.Keys)
  }
}
