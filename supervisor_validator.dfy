/**
 * The IsNotEmployeeSupervisor constraint: a supervisor id is acceptable when it
 * is absent, or names a member who is not an EMPLOYEE. The validator remembers
 * the record it last looked up and picks its error message from it.
 */
module SupervisorValidator {
  import opened Wrappers
  import opened Constants
  import opened Staff

  const NotInCompanyMessage: string := "This supervisor does not work in company"
  const EmployeeSupervisorMessage: string := "Supervisor cannot have role EMPLOYEE"

  /** A supervisor id that JavaScript treats as false: null, undefined or 0. */
  predicate IsFalsy(supervisorId: Option<int>)
  {
    supervisorId == None || supervisorId == Some(0)
  }

  /** findUnique by id: the record stored under `id`, or nothing. */
  function Lookup(roster: Roster, id: int): (found: Option<Member>)
    ensures found.Some? <==> id in roster
    ensures found.Some? ==> found.value == roster[id]
  {
    if id in roster then Some(roster[id]) else None
  }

  class IsNotEmployeeSupervisor {
    /** The repository snapshot the lookups read. */
    const roster: Roster

    /** The record found by the last lookup; none before any lookup. */
    var supervisor: Option<Member>

    constructor(roster: Roster)
      ensures this.roster == roster
      ensures supervisor == None
    {
      this.roster := roster;
      supervisor := None;
    }

    /**
     * validate: a falsy id passes without a lookup and leaves the stored record
     * alone; otherwise the lookup's result is stored, and the id passes exactly
     * when it names a member whose role is not EMPLOYEE.
     */
    method Validate(supervisorId: Option<int>) returns (ok: bool)
      modifies this
      ensures IsFalsy(supervisorId) ==> ok && supervisor == old(supervisor)
      ensures !IsFalsy(supervisorId) ==> supervisor == Lookup(roster, supervisorId.value)
      ensures !IsFalsy(supervisorId) ==> (ok <==> supervisorId.value in roster && roster[supervisorId.value].role != EMPLOYEE)
    {
      if IsFalsy(supervisorId) {
        return true;
      }
      supervisor := Lookup(roster, supervisorId.value);
      if supervisor.Some? {
        return supervisor.value.role != EMPLOYEE;
      }
      return false;
    }

    /**
     * defaultMessage: "not in company" while no record is stored (including
     * before any lookup), the EMPLOYEE message once one is.
     */
    method DefaultMessage() returns (message: string)
      ensures message == NotInCompanyMessage <==> supervisor.None?
      ensures message == EmployeeSupervisorMessage <==> supervisor.Some?
    {
      if supervisor.None? {
        return NotInCompanyMessage;
      }
      return EmployeeSupervisorMessage;
    }
  }

  /**
   * How the constraint is applied to a DTO's supervisorId: validate, and on
   * failure report defaultMessage. The message always names the actual cause.
   */
  method CheckSupervisorId(v: IsNotEmployeeSupervisor, supervisorId: Option<int>) returns (error: Option<string>)
    modifies v
    ensures error == None
        <==> IsFalsy(supervisorId) || (supervisorId.value in v.roster && v.roster[supervisorId.value].role != EMPLOYEE)
    ensures error == Some(NotInCompanyMessage)
        <==> !IsFalsy(supervisorId) && supervisorId.value !in v.roster
    ensures error == Some(EmployeeSupervisorMessage)
        <==> !IsFalsy(supervisorId) && supervisorId.value in v.roster && v.roster[supervisorId.value].role == EMPLOYEE
  {
    var ok := v.Validate(supervisorId);
    if ok {
      return None;
    }
    var message := v.DefaultMessage();
    return Some(message);
  }

  /** A fresh validator, before any lookup, reports the "not in company" message. */
  method MessageBeforeAnyLookup(roster: Roster) returns (message: string)
    ensures message == NotInCompanyMessage
  {
    var v := new IsNotEmployeeSupervisor(roster);
    message := v.DefaultMessage();
  }
}
