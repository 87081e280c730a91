/**
 * The staff record shared by the salary engine and the supervisor validator,
 * and the repository snapshot both of them read.
 */
module Staff {
  import opened Wrappers
  import opened Constants
  import opened Tenure

  /** A staff record as the engine and the validator read it; its id is its key in the roster. */
  datatype Member = Member(role: Role, baseSalary: real, joinedDate: Date, supervisorId: Option<int>)

  /** The staff table: every stored record under its id. */
  type Roster = map<int, Member>
}
