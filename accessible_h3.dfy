/** The grid-cell authorization gate of accessible_h3.py. The lookup of the
    cells that lie in a set of municipalities at one resolution, and the
    conversion of a cell to its text form, are parameters: neither the spatial
    reference query nor the H3 library is part of this model. */
module AccessibleH3 {
  import opened Wrappers
  import opened AclTypes
  import opened AclDb
  import GetAcl

  /** An H3 cell in its integer encoding. */
  type H3Cell = int

  /** The cells of the given municipalities at the given resolution, as rows. */
  type CellLookup = (set<string>, int) -> seq<H3Cell>

  /** `get_accessible_h3_cells`: one text-form cell per looked-up row, in row order. */
  function GetAccessibleH3Cells(municipalities: set<string>, h3Level: int, cellsOf: CellLookup, toText: H3Cell -> string)
    : (r: seq<string>)
    ensures |r| == |cellsOf(municipalities, h3Level)|
    ensures forall i :: 0 <= i < |r| ==> r[i] == toText(cellsOf(municipalities, h3Level)[i])
  {
    var rows := cellsOf(municipalities, h3Level);
    seq(|rows|, i requires 0 <= i < |rows| => toText(rows[i]))
  }

  /** The cells a user may request at `h3Level`: those of the municipalities
      reachable in one hop, looked up at exactly that resolution. */
  function AccessibleCells(t: Tables, userId: string, h3Level: int, cellsOf: CellLookup): set<H3Cell>
  {
    AsSet(cellsOf(AccessibleMunicipalities(t, userId), h3Level))
  }

  function AsSet(s: seq<H3Cell>): (r: set<H3Cell>)
    ensures forall x :: x in r <==> x in s
  {
    set x | x in s
  }

  /** `check_if_user_has_access_to_h3_cells`: an admin is allowed without any
      lookup; anyone else is allowed exactly when every requested cell is one
      of the accessible cells. A failed municipality query raises. */
  function CheckIfUserHasAccessToH3Cells(acl: Acl, requested: seq<H3Cell>, h3Level: int, conn: Connection, cellsOf: CellLookup)
    : (r: Result<bool, GetAcl.AccessError>)
    ensures acl.isAdmin ==> r == Success(true)
    ensures !acl.isAdmin && conn.Down? ==> r == Failure(GetAcl.StoreUnavailable)
    ensures !acl.isAdmin && conn.Up? ==>
      r == Success(forall c :: c in requested ==> c in AccessibleCells(conn.tables, acl.userId, h3Level, cellsOf))
  {
    if acl.isAdmin then Success(true)
    else
      var municipalities :- GetAcl.GetAccessibleMunicipalities(acl, conn);
      var accessible := AsSet(cellsOf(municipalities, h3Level));
      var requestedSet := AsSet(requested);
      assert requestedSet <= accessible <==> forall c :: c in requested ==> c in accessible by {
        if forall c :: c in requested ==> c in accessible {
          forall c | c in requestedSet ensures c in accessible {
            assert c in requested;
          }
        }
      }
      Success(requestedSet <= accessible)
  }

  /** Admins are allowed whatever they request, whatever the store holds. */
  lemma AdminAlwaysAllowed(acl: Acl, requested: seq<H3Cell>, h3Level: int, conn: Connection, cellsOf: CellLookup)
    requires acl.isAdmin
    ensures CheckIfUserHasAccessToH3Cells(acl, requested, h3Level, conn, cellsOf) == Success(true)
  {
  }

  /** An empty request is allowed for every ACL while the store answers. */
  lemma EmptyRequestAllowed(acl: Acl, h3Level: int, t: Tables, cellsOf: CellLookup)
    ensures CheckIfUserHasAccessToH3Cells(acl, [], h3Level, Up(t), cellsOf) == Success(true)
  {
  }

  /** Only the set of requested cells matters, not their order or repetition. */
  lemma OrderAndDuplicatesIrrelevant(acl: Acl, a: seq<H3Cell>, b: seq<H3Cell>, h3Level: int, conn: Connection, cellsOf: CellLookup)
    requires forall c :: c in a <==> c in b
    ensures CheckIfUserHasAccessToH3Cells(acl, a, h3Level, conn, cellsOf) ==
            CheckIfUserHasAccessToH3Cells(acl, b, h3Level, conn, cellsOf)
  {
  }

  /** Dropping cells from an allowed request keeps it allowed. */
  lemma AllowedIsMonotone(acl: Acl, a: seq<H3Cell>, b: seq<H3Cell>, h3Level: int, conn: Connection, cellsOf: CellLookup)
    requires forall c :: c in b ==> c in a
    requires CheckIfUserHasAccessToH3Cells(acl, a, h3Level, conn, cellsOf) == Success(true)
    ensures CheckIfUserHasAccessToH3Cells(acl, b, h3Level, conn, cellsOf) == Success(true)
  {
  }

  /** One inaccessible cell makes a non-admin's request denied, wherever it is. */
  lemma InaccessibleCellDenied(acl: Acl, requested: seq<H3Cell>, c: H3Cell, h3Level: int, t: Tables, cellsOf: CellLookup)
    requires !acl.isAdmin && c in requested
    requires c !in AccessibleCells(t, acl.userId, h3Level, cellsOf)
    ensures CheckIfUserHasAccessToH3Cells(acl, requested, h3Level, Up(t), cellsOf) == Success(false)
  {
  }

  /** A cell lookup for the example below: municipality "0518" holds cell
      518, "0599" holds 599 and "0363" holds 363, at every resolution. */
  function ExampleCells(municipalities: set<string>, h3Level: int): seq<H3Cell>
  {
    (if "0518" in municipalities then [518] else []) +
    (if "0599" in municipalities then [599] else []) +
    (if "0363" in municipalities then [363] else [])
  }

  /** The scenario of a user whose own organisation owns "0518" and who was
      granted "0599" (as in `AclDb.UserGrantExample`): cells in those two
      municipalities are allowed, a cell in the unrelated "0363" is not. */
  lemma ExampleScenario(t: Tables, acl: Acl)
    requires !acl.isAdmin && AccessibleMunicipalities(t, acl.userId) == {"0518", "0599"}
    ensures CheckIfUserHasAccessToH3Cells(acl, [518, 599], 8, Up(t), ExampleCells) == Success(true)
    ensures CheckIfUserHasAccessToH3Cells(acl, [518, 363], 8, Up(t), ExampleCells) == Success(false)
  {
    assert AccessibleCells(t, acl.userId, 8, ExampleCells) == {518, 599} by {
      assert ExampleCells({"0518", "0599"}, 8) == [518, 599];
    }
    assert 363 in [518, 363];
  }

  /** The scenario on the concrete tables of `AclDb.UserGrantExample`, where
      the accessible set is derived rather than assumed. */
  lemma UserGrantExampleScenario(t: Tables, acl: Acl)
    requires t == UserGrantExample() && acl.userId == "u" && !acl.isAdmin
    ensures CheckIfUserHasAccessToH3Cells(acl, [518, 599], 8, Up(t), ExampleCells) == Success(true)
    ensures CheckIfUserHasAccessToH3Cells(acl, [518, 363], 8, Up(t), ExampleCells) == Success(false)
  {
    UserGrantExampleMunicipalities();
    ExampleScenario(t, acl);
  }
}
