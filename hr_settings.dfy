/** The settings page's two lists, departments and positions, and the deletes
    that remove an entry from one of them once the database delete succeeds. */
module HrSettings {
  import opened Wrappers
  import Lists

  datatype Department = Department(id: string, name: string, description: string, createdAt: string)

  datatype Position = Position(id: string, title: string, department: string, description: string, createdAt: string)

  function DepartmentId(d: Department): string { d.id }

  function PositionId(p: Position): string { p.id }

  /** Line 62: `departments.filter(d => d.id !== id)`. */
  function DepartmentsWithout(departments: seq<Department>, id: string): seq<Department>
  {
    Lists.WithoutKey(departments, DepartmentId, id)
  }

  /** Line 72: `positions.filter(p => p.id !== id)`. */
  function PositionsWithout(positions: seq<Position>, id: string): seq<Position>
  {
    Lists.WithoutKey(positions, PositionId, id)
  }

  /** The department list after a delete holds exactly the other departments,
      in their order; deleting an id nobody has changes nothing. */
  lemma DepartmentDeleted(departments: seq<Department>, id: string, d: Department)
    ensures d in DepartmentsWithout(departments, id) <==> d in departments && d.id != id
    ensures Lists.IsSubsequence(DepartmentsWithout(departments, id), departments)
    ensures (forall i :: 0 <= i < |departments| ==> departments[i].id != id) ==>
      DepartmentsWithout(departments, id) == departments
  {
    Lists.WithoutKeyExactly(departments, DepartmentId, id, d);
  }

  /** The same for positions. */
  lemma PositionDeleted(positions: seq<Position>, id: string, p: Position)
    ensures p in PositionsWithout(positions, id) <==> p in positions && p.id != id
    ensures Lists.IsSubsequence(PositionsWithout(positions, id), positions)
    ensures (forall i :: 0 <= i < |positions| ==> positions[i].id != id) ==>
      PositionsWithout(positions, id) == positions
  {
    Lists.WithoutKeyExactly(positions, PositionId, id, p);
  }

  /** Deleting the same department twice is deleting it once, and two deletes
      give the same list in either order. */
  lemma DepartmentDeletesCommute(departments: seq<Department>, a: string, b: string)
    ensures DepartmentsWithout(DepartmentsWithout(departments, a), a) == DepartmentsWithout(departments, a)
    ensures DepartmentsWithout(DepartmentsWithout(departments, a), b) == DepartmentsWithout(DepartmentsWithout(departments, b), a)
  {
    Lists.WithoutKeyIdempotentCommutes(departments, DepartmentId, a, b);
  }

  /** The page's state. */
  class Settings {
    var departments: seq<Department>
    var positions: seq<Position>
    var loading: bool

    constructor ()
      ensures departments == [] && positions == [] && loading
    {
      departments, positions, loading := [], [], true;
    }

    /** `fetchData` up to its `await`. */
    method BeginFetch()
      modifies this
      ensures loading && departments == old(departments) && positions == old(positions)
    {
      loading := true;
    }

    /** `fetchData` after both queries: each list becomes its query's rows, or
        empty when the query returned none. */
    method EndFetch(departmentRows: Option<seq<Department>>, positionRows: Option<seq<Position>>)
      modifies this
      ensures departments == (if departmentRows.Some? then departmentRows.value else [])
      ensures positions == (if positionRows.Some? then positionRows.value else [])
      ensures !loading
    {
      departments := if departmentRows.Some? then departmentRows.value else [];
      positions := if positionRows.Some? then positionRows.value else [];
      loading := false;
    }

    /** `handleDeleteDepartment`: `remote` is how the database delete turns
        out; only a success changes the list, and positions are never touched. */
    method DeleteDepartment(id: string, remote: Outcome)
      modifies this
      ensures departments == (if remote.Success? then DepartmentsWithout(old(departments), id) else old(departments))
      ensures positions == old(positions) && loading == old(loading)
    {
      if remote.Failure? {
        return;
      }
      departments := DepartmentsWithout(departments, id);
    }

    /** `handleDeletePosition`, the same on positions. */
    method DeletePosition(id: string, remote: Outcome)
      modifies this
      ensures positions == (if remote.Success? then PositionsWithout(old(positions), id) else old(positions))
      ensures departments == old(departments) && loading == old(loading)
    {
      if remote.Failure? {
        return;
      }
      positions := PositionsWithout(positions, id);
    }
  }
}
