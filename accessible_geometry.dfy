/** The geometry authorization gate of accessible_geometry.py. The spatial
    reference queries and the GeoJSON parser are parameters: neither is part
    of this model. */
module AccessibleGeometry {
  import opened Wrappers
  import opened AclTypes
  import opened AclDb
  import GetAcl

  /** A row of a geometry query: a statistical-area polygon of one municipality. */
  datatype GeometryRow = GeometryRow(zoneId: int, area: string, municipality: string, statsRef: string)

  /** The response entry for one geometry; `J` is whatever the GeoJSON parser yields. */
  datatype SerializedGeometry<J> = SerializedGeometry(zoneId: int, geojson: J, municipalityCode: string, statsRef: string)

  /** The geometries of the given municipalities, as rows. */
  type GeometryLookup = set<string> -> seq<GeometryRow>

  /** `serialize_geometry`: zone and statistical reference are copied, the
      municipality is renamed to `municipality_code`, the area text is parsed. */
  function SerializeGeometry<J>(row: GeometryRow, parse: string -> J): (g: SerializedGeometry<J>)
    ensures g.zoneId == row.zoneId && g.statsRef == row.statsRef && g.municipalityCode == row.municipality
    ensures g.geojson == parse(row.area)
  {
    SerializedGeometry(row.zoneId, parse(row.area), row.municipality, row.statsRef)
  }

  /** `get_accessible_geometries`: one serialized entry per looked-up row, in row order. */
  function GetAccessibleGeometries<J>(municipalities: seq<string>, withGeojsonOf: seq<string> -> seq<GeometryRow>, parse: string -> J)
    : (r: seq<SerializedGeometry<J>>)
    ensures |r| == |withGeojsonOf(municipalities)|
    ensures forall i :: 0 <= i < |r| ==> r[i] == SerializeGeometry(withGeojsonOf(municipalities)[i], parse)
  {
    var rows := withGeojsonOf(municipalities);
    seq(|rows|, i requires 0 <= i < |rows| => SerializeGeometry(rows[i], parse))
  }

  /** The statistical references a user may request: those of the geometries
      of the municipalities reachable in one hop. */
  function AccessibleStatsRefs(t: Tables, userId: string, geometriesOf: GeometryLookup): set<string>
  {
    var rows := geometriesOf(AccessibleMunicipalities(t, userId));
    set row | row in rows :: row.statsRef
  }

  /** `check_if_user_has_access_to_geometries`: an admin is allowed without any
      lookup; anyone else is allowed exactly when every requested reference is
      an accessible one. A failed municipality query raises. */
  function CheckIfUserHasAccessToGeometries(acl: Acl, requested: seq<string>, conn: Connection, geometriesOf: GeometryLookup)
    : (r: Result<bool, GetAcl.AccessError>)
    ensures acl.isAdmin ==> r == Success(true)
    ensures !acl.isAdmin && conn.Down? ==> r == Failure(GetAcl.StoreUnavailable)
    ensures !acl.isAdmin && conn.Up? ==>
      r == Success(forall g :: g in requested ==> g in AccessibleStatsRefs(conn.tables, acl.userId, geometriesOf))
  {
    if acl.isAdmin then Success(true)
    else
      var municipalities :- GetAcl.GetAccessibleMunicipalities(acl, conn);
      var result := geometriesOf(municipalities);
      var accessibleStatsRefs := set row | row in result :: row.statsRef;
      var requestedSet := set g | g in requested;
      assert requestedSet <= accessibleStatsRefs <==> forall g :: g in requested ==> g in accessibleStatsRefs by {
        if forall g :: g in requested ==> g in accessibleStatsRefs {
          forall g | g in requestedSet ensures g in accessibleStatsRefs {
            assert g in requested;
          }
        }
      }
      Success(requestedSet <= accessibleStatsRefs)
  }

  /** Admins are allowed whatever they request, whatever the store holds. */
  lemma AdminAlwaysAllowed(acl: Acl, requested: seq<string>, conn: Connection, geometriesOf: GeometryLookup)
    requires acl.isAdmin
    ensures CheckIfUserHasAccessToGeometries(acl, requested, conn, geometriesOf) == Success(true)
  {
  }

  /** An empty request is allowed for every ACL while the store answers. */
  lemma EmptyRequestAllowed(acl: Acl, t: Tables, geometriesOf: GeometryLookup)
    ensures CheckIfUserHasAccessToGeometries(acl, [], Up(t), geometriesOf) == Success(true)
  {
  }

  /** Only the set of requested references matters, not their order or repetition. */
  lemma OrderAndDuplicatesIrrelevant(acl: Acl, a: seq<string>, b: seq<string>, conn: Connection, geometriesOf: GeometryLookup)
    requires forall g :: g in a <==> g in b
    ensures CheckIfUserHasAccessToGeometries(acl, a, conn, geometriesOf) ==
            CheckIfUserHasAccessToGeometries(acl, b, conn, geometriesOf)
  {
  }

  /** Dropping references from an allowed request keeps it allowed. */
  lemma AllowedIsMonotone(acl: Acl, a: seq<string>, b: seq<string>, conn: Connection, geometriesOf: GeometryLookup)
    requires forall g :: g in b ==> g in a
    requires CheckIfUserHasAccessToGeometries(acl, a, conn, geometriesOf) == Success(true)
    ensures CheckIfUserHasAccessToGeometries(acl, b, conn, geometriesOf) == Success(true)
  {
  }

  /** One inaccessible reference makes a non-admin's request denied. */
  lemma InaccessibleStatsRefDenied(acl: Acl, requested: seq<string>, g: string, t: Tables, geometriesOf: GeometryLookup)
    requires !acl.isAdmin && g in requested
    requires g !in AccessibleStatsRefs(t, acl.userId, geometriesOf)
    ensures CheckIfUserHasAccessToGeometries(acl, requested, Up(t), geometriesOf) == Success(false)
  {
  }
}
