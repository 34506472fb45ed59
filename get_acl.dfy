/** Identity extraction and ACL construction of acl/get_acl.py. The token is
    decoded without verifying its signature; the decoder is a parameter, since
    the JWT library is not part of this model. */
module GetAcl {
  import opened Wrappers
  import opened Text
  import opened AclTypes
  import opened AclDb

  /** What makes the source raise instead of returning an ACL or `None`. */
  datatype AccessError =
    | MissingTokenField          // `split(" ")[1]` on a header without a space
    | UndecodableToken           // the claims decoder raises
    | MissingEmailClaim          // `result["email"]` raises `KeyError`
    | UnknownPrivilege(value: string)  // a stored privilege that is no tag
    | StoreUnavailable           // the municipality query raised, and its `None` is iterated

  /** Decoded token claims. */
  type Claims = map<string, string>

  /** The second space-separated field of the Authorization header. The scheme
      word before it is not checked. */
  function TokenOf(header: string): (r: Result<string, AccessError>)
    ensures r.Failure? <==> ' ' !in header
    ensures r.Failure? ==> r.error == MissingTokenField
    ensures r.Success? ==> ' ' !in r.value
    ensures r.Success? ==> r.value == FieldAfterFirst(header, ' ')
  {
    var fields := Split(header, ' ');
    SplitHasSecondField(header, ' ');
    if |fields| < 2 then Failure(MissingTokenField)
    else
      SecondFieldAfterFirstSeparator(header, ' ');
      Success(fields[1])
  }

  /** `get_access`: no Authorization header, or an empty one, gives `None`
      before any decoding or lookup; otherwise the token's `email` claim is the
      identity looked up. */
  function GetAccess(headers: map<string, string>, decode: string -> Option<Claims>, conn: Connection)
    : (r: Result<Option<Acl>, AccessError>)
    ensures ("Authorization" !in headers || headers["Authorization"] == "") ==> r == Success(None)
    ensures "Authorization" in headers && headers["Authorization"] != "" && ' ' !in headers["Authorization"] ==>
      r == Failure(MissingTokenField)
  {
    if "Authorization" !in headers || headers["Authorization"] == "" then Success(None)
    else
      var token :- TokenOf(headers["Authorization"]);
      var claims := decode(token);
      if claims.None? then Failure(UndecodableToken)
      else if "email" !in claims.value then Failure(MissingEmailClaim)
      else GetAclForUserId(claims.value["email"], conn)
  }

  /** The identity looked up is exactly the token's `email` claim. */
  lemma GetAccessLooksUpEmail(headers: map<string, string>, decode: string -> Option<Claims>, conn: Connection, token: string)
    requires "Authorization" in headers && TokenOf(headers["Authorization"]) == Success(token)
    requires decode(token).Some? && "email" in decode(token).value
    ensures GetAccess(headers, decode, conn) == GetAclForUserId(decode(token).value["email"], conn)
  {
  }

  /** A token that does not decode, or lacks the `email` claim, is an error
      naming which of the two went wrong. */
  lemma GetAccessNeedsEmail(headers: map<string, string>, decode: string -> Option<Claims>, conn: Connection, token: string)
    requires "Authorization" in headers && TokenOf(headers["Authorization"]) == Success(token)
    requires decode(token).None? || "email" !in decode(token).value
    ensures GetAccess(headers, decode, conn) ==
      if decode(token).None? then Failure(UndecodableToken) else Failure(MissingEmailClaim)
  {
  }

  /** `get_acl_for_user_id`: `None` exactly when the account lookup gives
      `None` (no account, or the query raised: the lookup fails closed),
      otherwise the ACL built from the row. */
  function GetAclForUserId(userId: string, conn: Connection): (r: Result<Option<Acl>, AccessError>)
    ensures r == Success(None) <==> GetOrganisationAndPrivileges(conn, userId).None?
    ensures conn.Down? ==> r == Success(None)
    ensures r.Success? && r.value.Some? ==>
      r.value.value.userId == userId && CreateAcl(GetOrganisationAndPrivileges(conn, userId).value) == Success(r.value.value)
    ensures GetOrganisationAndPrivileges(conn, userId).Some? ==>
      var built := CreateAcl(GetOrganisationAndPrivileges(conn, userId).value);
      && (built.Success? ==> r == Success(Some(built.value)))
      && (built.Failure? ==> r == Failure(built.error))
  {
    match GetOrganisationAndPrivileges(conn, userId)
    case None => Success(None)
    case Some(row) =>
      var acl :- CreateAcl(row);
      Success(Some(acl))
  }

  /** Converts every stored privilege to its tag, in order; the first string
      that is no tag is an error. This is the element-wise conversion the
      source intends: as written, its lazy `map` calls `PrivilegesEnum`, a
      name that module does not import, so `create_acl` itself never raises
      and iterating the privileges raises `NameError` even for valid tags. */
  function ConvertPrivileges(values: seq<string>): (r: Result<seq<Privilege>, AccessError>)
    ensures r.Success? <==> forall i :: 0 <= i < |values| ==> FromValue(values[i]).Some?
    ensures r.Success? ==> |r.value| == |values| && forall i :: 0 <= i < |values| ==> Value(r.value[i]) == values[i]
    ensures r.Failure? ==> r.error.UnknownPrivilege? && r.error.value in values && FromValue(r.error.value).None?
  {
    if values == [] then Success([])
    else
      match FromValue(values[0])
      case None => Failure(UnknownPrivilege(values[0]))
      case Some(p) =>
        var rest :- ConvertPrivileges(values[1..]);
        Success([p] + rest)
  }

  /** `create_acl`: the user and organisation are copied, privileges are
      converted (none when the column is null or empty), and the ACL is an
      admin's exactly when the organisation type is `"ADMIN"`. */
  function CreateAcl(row: AccountRow): (r: Result<Acl, AccessError>)
    ensures r.Success? ==>
      && r.value.userId == row.userId
      && r.value.partOfOrganisation == row.organisationId
      && r.value.isAdmin == (row.typeOfOrganisation == "ADMIN")
    ensures (row.privileges.None? || row.privileges.value == []) ==> r.Success? && r.value.privileges == []
    ensures row.privileges.Some? ==>
      (r.Success? <==> forall i :: 0 <= i < |row.privileges.value| ==> FromValue(row.privileges.value[i]).Some?)
    ensures r.Success? && row.privileges.Some? ==>
      |r.value.privileges| == |row.privileges.value| &&
      forall i :: 0 <= i < |row.privileges.value| ==> Value(r.value.privileges[i]) == row.privileges.value[i]
    ensures r.Failure? ==>
      && row.privileges.Some? && r.error.UnknownPrivilege?
      && r.error.value in row.privileges.value && FromValue(r.error.value).None?
  {
    var privileges :-
      if row.privileges.None? || row.privileges.value == [] then Success([])
      else ConvertPrivileges(row.privileges.value);
    Success(Acl(row.userId, row.organisationId, privileges, row.typeOfOrganisation == "ADMIN"))
  }

  /** `get_accessible_municipalities`: the set of codes of the rows the query
      returns, i.e. exactly the municipalities reachable in one hop; when the
      query raised, iterating its `None` raises too. */
  function GetAccessibleMunicipalities(acl: Acl, conn: Connection): (r: Result<set<string>, AccessError>)
    ensures conn.Down? ==> r == Failure(StoreUnavailable)
    ensures conn.Up? ==> r == Success(AccessibleMunicipalities(conn.tables, acl.userId))
  {
    match AclDb.GetAccessibleMunicipalities(conn, acl.userId)
    case None => Failure(StoreUnavailable)
    case Some(rows) =>
      var codes := set row | row in rows :: row.municipalityCode;
      assert codes == AccessibleMunicipalities(conn.tables, acl.userId) by {
        forall m ensures m in codes <==> MunicipalityRow(m) in rows {
          if m in codes {
            var row :| row in rows && row.municipalityCode == m;
            assert row == MunicipalityRow(m);
          }
        }
      }
      Success(codes)
  }
}
