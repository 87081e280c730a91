/**
 * The role enumeration and the three per-role tables of the application's
 * constants: the base salary a member is created with, the ceiling on the
 * tenure bonus in percentage points, and the tenure bonus earned per year.
 */
module Constants {

  /** The closed set of roles a staff member can hold. */
  datatype Role = EMPLOYEE | MANAGER | SALES

  /** Every role is one of the three variants. */
  lemma RoleIsClosed(r: Role)
    ensures r == EMPLOYEE || r == MANAGER || r == SALES
  {
  }

  /** STAFF_BASE_SALARY: the salary a newly created member of the role starts with. */
  function BaseSalary(r: Role): (s: nat)
    ensures s > 0
    ensures s == 40000 || s == 50000 || s == 60000
  {
    match r
    case EMPLOYEE => 40000
    case MANAGER => 60000
    case SALES => 50000
  }

  /** MAX_PERCENTAGE: the ceiling on the tenure bonus, in percentage points. */
  function MaxPercentage(r: Role): (p: nat)
    ensures 0 <= p <= 100
  {
    match r
    case EMPLOYEE => 30
    case MANAGER => 40
    case SALES => 35
  }

  /** YEAR_BONUS: the fraction of the base salary added per whole year of tenure. */
  function YearBonus(r: Role): (b: real)
    ensures 0.0 < b < 1.0
  {
    match r
    case EMPLOYEE => 0.03
    case MANAGER => 0.05
    case SALES => 0.01
  }

  /** The ceiling on the tenure bonus as a fraction of the base salary. */
  function CapFraction(r: Role): (c: real)
    ensures 0.0 <= c <= 1.0
  {
    MaxPercentage(r) as real / 100.0
  }

  /**
   * The number of whole years after which the tenure bonus stops growing:
   * the cap divided by the yearly bonus (10, 8 and 35 years).
   */
  function CapYears(r: Role): (y: nat)
    ensures y as real * YearBonus(r) == CapFraction(r)
  {
    match r
    case EMPLOYEE => 10
    case MANAGER => 8
    case SALES => 35
  }
}
