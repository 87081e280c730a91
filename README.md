# Staff salary engine — a verified model

This project models the decision logic of a staff-directory service. Staff
members form a supervisor forest. Each member has a role (EMPLOYEE, MANAGER or
SALES), a base salary, a join date and an optional supervisor.

- **Staff record** (`Staff`): the member record both the engine and the
  validator read, and the roster, a map from id to record.
- **Tenure** (`Tenure`, from `getYearsWorked`): whole years between the join
  date and "now". It counts calendar anniversaries and never goes below zero.
  The current date is a parameter.
- **Role tables** (`Constants`): base salary, tenure cap in percentage points
  and tenure bonus per year, each a total function on the closed `Role` type.
- **Salary engine** (`CalculateSalary`, from `CalculateSalaryService`):
  - a salary is the base raised by the capped tenure fraction, plus a role
    bonus, rounded to cents;
  - the MANAGER bonus is 0.5% of the direct subordinates' salaries;
  - the SALES bonus is 0.3% of the salaries of every transitive descendant,
    found by the recursive walk `calculateTotalSalaries`;
  - `getMemberSalary` fails with NotFound on an unknown id;
  - `getSumSalaryOfStaff` adds up every member's salary.

  The repository snapshot is a map from id to record. Amounts are exact
  `real`s. The recursion needs an acyclic supervisor relation, which the
  source never checks. Every engine function therefore takes a ghost ranking
  that strictly decreases from supervisor to subordinate.
- **Supervisor validator** (`SupervisorValidator`, from
  `IsNotEmployeeSupervisor`): a class with a mutable `supervisor` field.
  `Validate` looks the id up and stores the result. `DefaultMessage` picks
  its text from the stored record.

`CalculateSalaryProperties` holds the main results:
- sums do not depend on the order members are taken in;
- the SALES walk equals the sum over the descendant set, each member counted
  once (`TotalSalariesIsDescendantSum`);
- the per-role bonus rules hold, including worked examples from the
  repository's tests.

## Model

| member | source | states |
|---|---|---|
| `Constants.RoleIsClosed` | src/app.constants.ts:1-5 | every role is EMPLOYEE, MANAGER or SALES |
| `Constants.BaseSalary` | src/app.constants.ts:7-11 | the base-salary table is total and every entry is positive (40000, 60000, 50000) |
| `Constants.MaxPercentage` | src/app.constants.ts:13-17 | the cap table is total and every entry lies in 0..100 |
| `Constants.YearBonus` | src/app.constants.ts:19-23 | the yearly bonus table is total and every entry lies strictly between 0 and 1 |
| `Constants.CapFraction` | src/staff/calculate-salary.service.ts:50-55 | the cap as a fraction, MAX_PERCENTAGE/100, lies in [0, 1] |
| `Constants.CapYears` | src/app.constants.ts:13-23 | the years at which the cap is reached (10, 8, 35) times the yearly bonus equal the cap fraction |
| `Tenure.YearsWorked` | src/utils/get-years-worked.helper.ts:1-16 | the result is a nat no larger than the year difference (0 when the join year is later); the anniversary it counts up to is on or before now, and the next one is not |
| `Tenure.FutureJoinGivesZero` | src/utils/get-years-worked.helper.ts:15 | a join date after now, even earlier in the same year, gives 0 |
| `Tenure.YearsWorkedIsUnique` | src/utils/get-years-worked.helper.ts:5-15 | any count whose anniversary is reached and whose next one is not equals YearsWorked, so the contract determines the result |
| `Tenure.YearsWorkedMonotone` | src/utils/get-years-worked.helper.ts:5-15 | tenure never decreases as now moves forward |
| `Tenure.YearsWorkedExamples` | src/utils/get-years-worked.spec.ts:15-46 | the tested cases with now 2025-06-15: same day 0, later this year 0, 2024-07-01 0, 2024-06-15 1, 2024-06-16 0, 2000-06-12 25 |
| `Tenure.YearsWorkedOnAnniversary` | src/utils/get-years-worked.spec.ts:15-33 | joining on now's month and day n years earlier gives exactly n (0 for today) |
| `CalculateSalary.Round2` | src/staff/calculate-salary.service.ts:59 | Math.round(x*100)/100 is a whole number of cents within half a cent of x, ties rounding up; non-negative for non-negative x |
| `CalculateSalary.Round2OfCents` | src/staff/calculate-salary.service.ts:59 | rounding leaves a whole-cents amount unchanged |
| `CalculateSalary.Round2Monotone` | src/staff/calculate-salary.service.ts:59 | rounding preserves order |
| `CalculateSalary.TenureFraction` | src/staff/calculate-salary.service.ts:49-55 | the tenure fraction lies between 0 and the role's cap and never exceeds years times the yearly bonus |
| `CalculateSalary.TenureCapReachedAt` | src/staff/calculate-salary.service.ts:52-55 | below CapYears the fraction is exactly years times the yearly bonus and under the cap; from CapYears on it is the cap |
| `CalculateSalary.TenureFractionMonotone` | src/staff/calculate-salary.service.ts:52-55 | more tenure never lowers the fraction |
| `CalculateSalary.SalaryFormula` | src/staff/calculate-salary.service.ts:58-59 | the salary is whole cents, and non-negative when the base and the bonus are |
| `CalculateSalary.SalaryFormulaWithinHalfCent` | src/staff/calculate-salary.service.ts:58-59 | the salary is within half a cent of base times (1 + fraction) plus the bonus |
| `CalculateSalary.SalaryFormulaExamples` | src/staff/tests/calculate-salary.service.spec.ts:118-153 | EMPLOYEE, base 3500, 5 years, no bonus gives 4025; MANAGER, base 2500, 5 years, bonus 230 gives 3355 |
| `CalculateSalary.Subordinates` | src/staff/calculate-salary.service.ts:97-101 | getSubordinates is exactly the direct reports: it holds only roster members whose supervisorId is the id, and every such member |
| `CalculateSalary.SubordinatesOfDistinctSupervisorsDisjoint` | src/staff/calculate-salary.service.ts:97-101 | two different supervisors never share a direct subordinate |
| `CalculateSalary.Salary` | src/staff/calculate-salary.service.ts:46-60 | calculateSalary terminates on an acyclic roster, returns whole cents, and is non-negative when every base salary is |
| `CalculateSalary.SubordinateBonus` | src/staff/calculate-salary.service.ts:62-95 | calculateSubordinateBonus terminates and is non-negative when every base salary is |
| `CalculateSalary.TotalSalaries` | src/staff/calculate-salary.service.ts:76-89 | the SALES walk terminates and is non-negative when every base salary is |
| `CalculateSalary.SumSalaries` | src/staff/calculate-salary.service.ts:69-74 | the sum of the fanned-out salaries is non-negative when every base salary is |
| `CalculateSalary.SumTotals` | src/staff/calculate-salary.service.ts:79-88 | one level of the SALES walk is non-negative when every base salary is |
| `CalculateSalary.GetMemberSalary` | src/staff/calculate-salary.service.ts:16-31 | fails with NotFound exactly when the id is absent; otherwise status "OK" and the member's salary, in whole cents |
| `CalculateSalary.GetSumSalaryOfStaff` | src/staff/calculate-salary.service.ts:33-44 | 0 for an empty roster; non-negative when every base salary is |
| `CalculateSalaryProperties.SumSalariesPick` | src/staff/calculate-salary.service.ts:36-41 | any member may be summed first: the sum does not depend on completion order |
| `CalculateSalaryProperties.SumTotalsPick` | src/staff/calculate-salary.service.ts:79-88 | the same order independence for each level of the SALES walk |
| `CalculateSalaryProperties.SumSalariesUnion` | src/staff/calculate-salary.service.ts:41 | the sum over two disjoint groups is the sum of their sums |
| `CalculateSalaryProperties.SumSalariesOfEqualSalaries` | src/staff/calculate-salary.service.ts:41 | n members each earning c sum to n copies of c (which `CopiesIsProduct` shows is c times n) |
| `CalculateSalaryProperties.SumOfStaffCountsEveryMember` | src/staff/calculate-salary.service.ts:33-44 | the staff total holds every member's own full salary once, subordinates included |
| `CalculateSalaryProperties.SumOfStaffWithEqualSalaries` | src/staff/tests/calculate-salary.service.spec.ts:69-107 | a roster of n members each earning c totals n times c (three at 2500 give 7500) |
| `CalculateSalaryProperties.Descendants` | src/staff/calculate-salary.service.ts:76-89 | the descendant set lies in the roster and below the member in the ranking |
| `CalculateSalaryProperties.DescendantsByParent` | src/staff/calculate-salary.service.ts:76-89 | x is a descendant of a exactly when x's supervisor is a or a descendant of a |
| `CalculateSalaryProperties.TreesSharingAMemberNest` | src/staff/calculate-salary.service.ts:97-101 | with one supervisor per member, two subtrees that share a member are nested |
| `CalculateSalaryProperties.SiblingTreesDisjoint` | src/staff/calculate-salary.service.ts:80-86 | the subtrees under two different direct subordinates share no member, so the walk counts nobody twice |
| `CalculateSalaryProperties.CoverSplit` | src/staff/calculate-salary.service.ts:79-88 | the members reached from a group of siblings are the first sibling's subtree plus those reached from the rest |
| `CalculateSalaryProperties.SiblingCoverDisjoint` | src/staff/calculate-salary.service.ts:79-88 | a sibling's subtree and the members reached from the other siblings are disjoint |
| `CalculateSalaryProperties.SumTotalsIsCoverSum` | src/staff/calculate-salary.service.ts:79-88 | one level of the walk over a group of siblings equals the salary sum over their subtrees |
| `CalculateSalaryProperties.TotalSalariesIsDescendantSum` | src/staff/calculate-salary.service.ts:76-89 | calculateTotalSalaries(id) is the sum of the salaries of all of id's transitive descendants, each once |
| `CalculateSalaryProperties.EmployeeBonusIsZero` | src/staff/calculate-salary.service.ts:62-94 | an EMPLOYEE's bonus is 0 whatever the roster holds |
| `CalculateSalaryProperties.ManagerBonusIsDirectShare` | src/staff/calculate-salary.service.ts:67-74 | a MANAGER's bonus is 0.005 times the direct subordinates' salaries, and 0 with none |
| `CalculateSalaryProperties.SalesBonusIsDescendantShare` | src/staff/calculate-salary.service.ts:75-91 | a SALES member's bonus is 0.003 times the salaries of all transitive descendants, and 0 with no subordinates |
| `CalculateSalaryProperties.NewcomerEarnsBase` | src/staff/calculate-salary.service.ts:46-59 | an EMPLOYEE who joined today with a whole-cents base earns exactly that base |
| `CalculateSalaryProperties.ManagerBonusExample` | src/staff/tests/calculate-salary.service.spec.ts:157-182 | a MANAGER over reports earning 3000 and 3500 gets 32.5 |
| `CalculateSalaryProperties.SalesBonusExample` | src/staff/tests/calculate-salary.service.spec.ts:184-210 | a SALES member over reports earning 2500 and 2000 gets 13.5 |
| `CalculateSalaryProperties.ThreeLevelManager` | src/staff/calculate-salary.service.ts:46-91 | in a three-level roster the middle MANAGER earns 2000 plus 0.5% of its report's 1000, that is 2005, and the SALES walk below it totals 1000 |
| `CalculateSalaryProperties.SalesBonusCountsGrandchildren` | src/staff/calculate-salary.service.ts:75-91 | in the same roster a grandchild's salary reaches the SALES bonus: 0.003 times (2500 + 2005 + 1000) = 16.515 |
| `SupervisorValidator.Lookup` | src/staff/validators/is-not-employee-supervisor.validator.ts:20-22 | findUnique returns the stored record exactly when the id is present |
| `SupervisorValidator.IsNotEmployeeSupervisor.constructor` | src/staff/validators/is-not-employee-supervisor.validator.ts:13-15 | a new validator holds no supervisor record |
| `SupervisorValidator.IsNotEmployeeSupervisor.Validate` | src/staff/validators/is-not-employee-supervisor.validator.ts:17-29 | a falsy id (null, undefined, 0) passes and keeps the stored record. Otherwise the lookup result is stored, and the id passes exactly when it names a non-EMPLOYEE member |
| `SupervisorValidator.IsNotEmployeeSupervisor.DefaultMessage` | src/staff/validators/is-not-employee-supervisor.validator.ts:31-37 | "This supervisor does not work in company" exactly when no record is stored, "Supervisor cannot have role EMPLOYEE" exactly when one is |
| `SupervisorValidator.CheckSupervisorId` | src/staff/dto/staff.dto.ts:73-76 | validating a supervisorId and reporting defaultMessage on failure names the real cause: unknown id or EMPLOYEE supervisor |
| `SupervisorValidator.MessageBeforeAnyLookup` | src/staff/validators/is-not-employee-supervisor.validator.spec.ts:73-78 | before any lookup the message is "This supervisor does not work in company" |

## Left out

- The clock and time zones: `getYearsWorked` reads `new Date()` and the local-time `getFullYear`/`getMonth`/`getDate`. Here `now` is a parameter and dates are (year, month, day) triples. How a stored ISO timestamp maps to a local calendar day is not modelled.
- Floating point: salaries are exact reals. IEEE-754 rounding and the effect of summation order on the last bit are not modelled.
- Concurrency: the `Promise.all` fan-outs become order-independent set sums (`SumSalariesPick`, `SumTotalsPick`).
- Repository failures: a failing Prisma read would abort the whole computation. The model has no failing reads.
- Supervisor cycles: the source has no cycle guard. A cycle that the MANAGER recursion or a SALES walk enters recurses without end. The model requires a ranking, which means an acyclic roster, instead of adding detection. The ranking also excludes cycles the source survives, such as one made only of EMPLOYEEs, whose bonus is 0 without any lookup of subordinates. No engine member accepts such a roster, `GetSumSalaryOfStaff` included.
- `CalculateSalary.Salary`: its non-negativity holds only when every base salary is non-negative. The API sets a base salary only on create, from the role table, and the update DTO has no base-salary field. The model still treats the stored base salary as an arbitrary real, because nothing constrains the stored data itself.
- `SupervisorValidator.IsNotEmployeeSupervisor.Validate`: the validator is shared by every request, so concurrent validations can interleave their writes to `supervisor`. The model runs one call at a time.
- HTTP routing, bootstrap, dependency injection, DTO decorators and the CRUD service are not part of this model. The one piece of logic there, setting the base salary from the role table on create, is the `BaseSalary` table.
- Fields the engine never reads (name, last name, email) are not part of the member record. The id is the record's key in the roster map.
