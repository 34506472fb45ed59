/** The two account queries of acl/db.py, as pure functions over in-memory
    copies of the tables they read. A connection that is down stands for a
    query that raises: the source rolls back, logs and returns `None`. */
module AclDb {
  import opened Wrappers

  /** A row of `user_account`; `privileges` is a nullable text array. */
  datatype UserAccount = UserAccount(userId: string, organisationId: int, privileges: Option<seq<string>>)

  /** A row of `organisation`. */
  datatype Organisation = Organisation(organisationId: int, dataOwnerOfMunicipalities: seq<string>, typeOfOrganisation: string)

  /** A row of `view_data_access`: the owner grants its data either to an
      organisation or to a single user (both columns nullable). */
  datatype DataAccessGrant = DataAccessGrant(ownerOrganisationId: int, grantedOrganisationId: Option<int>, grantedUser: Option<string>)

  datatype Tables = Tables(userAccounts: seq<UserAccount>, organisations: seq<Organisation>, viewDataAccess: seq<DataAccessGrant>)

  datatype Connection = Up(tables: Tables) | Down

  /** A row of `user_account JOIN organisation USING (organisation_id)`. */
  datatype AccountRow = AccountRow(userId: string, organisationId: int, privileges: Option<seq<string>>, typeOfOrganisation: string)

  /** A row of the accessible-municipality query. */
  datatype MunicipalityRow = MunicipalityRow(municipalityCode: string)

  function JoinRow(a: UserAccount, o: Organisation): AccountRow
  {
    AccountRow(a.userId, a.organisationId, a.privileges, o.typeOfOrganisation)
  }

  /** The rows of the join that the account `a` takes part in, in table order. */
  function JoinAccount(a: UserAccount, orgs: seq<Organisation>): (rows: seq<AccountRow>)
    ensures forall r :: r in rows <==> exists o :: o in orgs && o.organisationId == a.organisationId && r == JoinRow(a, o)
  {
    if orgs == [] then []
    else
      (if orgs[0].organisationId == a.organisationId then [JoinRow(a, orgs[0])] else [])
      + JoinAccount(a, orgs[1..])
  }

  /** The rows of the join whose `user_id` is `userId`, in table order. */
  function JoinRows(accounts: seq<UserAccount>, orgs: seq<Organisation>, userId: string): (rows: seq<AccountRow>)
    ensures forall r :: r in rows <==>
      exists a, o :: a in accounts && o in orgs && a.userId == userId && o.organisationId == a.organisationId && r == JoinRow(a, o)
  {
    if accounts == [] then []
    else
      (if accounts[0].userId == userId then JoinAccount(accounts[0], orgs) else [])
      + JoinRows(accounts[1..], orgs, userId)
  }

  /** `get_organisation_and_privileges`: `fetchone` of the join filtered on the
      user, i.e. the first matching row, or `None` when there is none or the
      query raises. */
  function GetOrganisationAndPrivileges(conn: Connection, userId: string): (r: Option<AccountRow>)
    ensures conn.Down? ==> r == None
    ensures conn.Up? ==>
      (r.Some? <==> exists a, o :: a in conn.tables.userAccounts && o in conn.tables.organisations &&
                                  a.userId == userId && o.organisationId == a.organisationId)
    ensures r.Some? ==>
      r.value.userId == userId &&
      exists a, o :: a in conn.tables.userAccounts && o in conn.tables.organisations &&
                     o.organisationId == a.organisationId && r.value == JoinRow(a, o)
  {
    match conn
    case Down => None
    case Up(t) =>
      var rows := JoinRows(t.userAccounts, t.organisations, userId);
      assert forall a, o ::
        a in t.userAccounts && o in t.organisations && a.userId == userId && o.organisationId == a.organisationId
        ==> JoinRow(a, o) in rows;
      if rows == [] then None
      else
        assert rows[0] in rows;
        Some(rows[0])
  }

  // The accessible-municipality query, read as sets.

  /** The organisation of the user (third branch of the query). */
  function OwnOrganisations(t: Tables, userId: string): set<int>
  {
    set a, o | a in t.userAccounts && o in t.organisations && a.userId == userId && o.organisationId == a.organisationId
      :: o.organisationId
  }

  /** Owners that granted access to the user's organisation (first branch). */
  function OrganisationGrantors(t: Tables, userId: string): set<int>
  {
    set a, o, g | a in t.userAccounts && o in t.organisations && g in t.viewDataAccess &&
                  a.userId == userId && o.organisationId == a.organisationId &&
                  g.grantedOrganisationId == Some(o.organisationId)
      :: g.ownerOrganisationId
  }

  /** Owners that granted access to the user individually (second branch). */
  function UserGrantors(t: Tables, userId: string): set<int>
  {
    set a, o, g | a in t.userAccounts && o in t.organisations && g in t.viewDataAccess &&
                  a.userId == userId && o.organisationId == a.organisationId &&
                  g.grantedUser == Some(a.userId)
      :: g.ownerOrganisationId
  }

  /** The organisations whose municipalities the user may see: one hop over the grants. */
  function ReachableOrganisations(t: Tables, userId: string): set<int>
  {
    OrganisationGrantors(t, userId) + UserGrantors(t, userId) + OwnOrganisations(t, userId)
  }

  /** The user's own organisations are organisation rows, and there are none
      exactly when no account row of the user joins an organisation row. */
  lemma OwnOrganisationsShape(t: Tables, userId: string)
    ensures forall id :: id in OwnOrganisations(t, userId) ==> exists o :: o in t.organisations && o.organisationId == id
    ensures OwnOrganisations(t, userId) == {} <==>
      forall a, o :: a in t.userAccounts && o in t.organisations && a.userId == userId ==> o.organisationId != a.organisationId
  {
    var ids := OwnOrganisations(t, userId);
    forall a, o | a in t.userAccounts && o in t.organisations && a.userId == userId && o.organisationId == a.organisationId
      ensures o.organisationId in ids
    {
    }
  }

  /** The first branch: exactly the owners of grants whose grantee
      organisation is the user's own. */
  lemma OrganisationGrantorsGrantToOwn(t: Tables, userId: string)
    ensures forall id :: id in OrganisationGrantors(t, userId) <==>
      exists g :: g in t.viewDataAccess && g.ownerOrganisationId == id &&
                  g.grantedOrganisationId.Some? && g.grantedOrganisationId.value in OwnOrganisations(t, userId)
  {
    var own := OwnOrganisations(t, userId);
    forall g | g in t.viewDataAccess && g.grantedOrganisationId.Some? && g.grantedOrganisationId.value in own
      ensures g.ownerOrganisationId in OrganisationGrantors(t, userId)
    {
      var a, o :| a in t.userAccounts && o in t.organisations && a.userId == userId &&
                  o.organisationId == a.organisationId && g.grantedOrganisationId.value == o.organisationId;
    }
  }

  /** The second branch: the owners of grants naming the user, provided the
      user's account joins an organisation. */
  lemma UserGrantorsNameUser(t: Tables, userId: string)
    ensures forall id :: id in UserGrantors(t, userId) <==>
      OwnOrganisations(t, userId) != {} &&
      exists g :: g in t.viewDataAccess && g.ownerOrganisationId == id && g.grantedUser == Some(userId)
  {
    var ids := UserGrantors(t, userId);
    forall id | id in ids
      ensures OwnOrganisations(t, userId) != {}
    {
      var a, o, g :| a in t.userAccounts && o in t.organisations && g in t.viewDataAccess &&
                     a.userId == userId && o.organisationId == a.organisationId &&
                     g.grantedUser == Some(a.userId) && id == g.ownerOrganisationId;
      assert o.organisationId in OwnOrganisations(t, userId);
    }
    if OwnOrganisations(t, userId) != {} {
      var a, o :| a in t.userAccounts && o in t.organisations && a.userId == userId && o.organisationId == a.organisationId;
      forall g | g in t.viewDataAccess && g.grantedUser == Some(userId) ensures g.ownerOrganisationId in ids {
        assert g.grantedUser == Some(a.userId);
      }
    }
  }

  /** The reachable organisations include the user's own, and there are none
      exactly when the user has no account row joined to an organisation. */
  lemma ReachableIncludesOwn(t: Tables, userId: string)
    ensures OwnOrganisations(t, userId) <= ReachableOrganisations(t, userId)
    ensures ReachableOrganisations(t, userId) == {} <==> OwnOrganisations(t, userId) == {}
  {
    if OwnOrganisations(t, userId) == {} {
      OrganisationGrantorsGrantToOwn(t, userId);
      UserGrantorsNameUser(t, userId);
    }
  }

  /** The meaning of the query: every municipality owned by a reachable organisation. */
  function AccessibleMunicipalities(t: Tables, userId: string): set<string>
  {
    var ids := ReachableOrganisations(t, userId);
    set o, m | o in t.organisations && o.organisationId in ids && m in o.dataOwnerOfMunicipalities :: m
  }

  /** `UNNEST(data_owner_of_municipalities)` over the organisations whose id is in `ids`. */
  function OwnedCodes(orgs: seq<Organisation>, ids: set<int>): (codes: seq<string>)
    ensures forall m :: m in codes <==>
      exists o :: o in orgs && o.organisationId in ids && m in o.dataOwnerOfMunicipalities
  {
    if orgs == [] then []
    else
      (if orgs[0].organisationId in ids then orgs[0].dataOwnerOfMunicipalities else [])
      + OwnedCodes(orgs[1..], ids)
  }

  predicate Distinct<T(==)>(s: seq<T>)
  {
    forall i, j :: 0 <= i < j < |s| ==> s[i] != s[j]
  }

  /** `DISTINCT`: the first occurrence of every value, in order. */
  function Dedup(s: seq<string>): (d: seq<string>)
    ensures Distinct(d)
    ensures forall x :: x in d <==> x in s
    ensures |d| <= |s|
  {
    if s == [] then []
    else
      var front := Dedup(s[..|s| - 1]);
      assert forall x :: x in s <==> x in s[..|s| - 1] || x == s[|s| - 1] by {
        assert s == s[..|s| - 1] + [s[|s| - 1]];
      }
      if s[|s| - 1] in front then front else front + [s[|s| - 1]]
  }

  /** The distinct unnested codes of the reachable organisations are exactly
      the accessible municipalities. */
  lemma DistinctCodesAreAccessible(t: Tables, userId: string)
    ensures forall m :: m in Dedup(OwnedCodes(t.organisations, ReachableOrganisations(t, userId))) <==>
                        m in AccessibleMunicipalities(t, userId)
  {
    var ids := ReachableOrganisations(t, userId);
    var codes := Dedup(OwnedCodes(t.organisations, ids));
    forall m ensures m in codes <==> m in AccessibleMunicipalities(t, userId) {
      if m in codes {
        assert m in OwnedCodes(t.organisations, ids);
        var o :| o in t.organisations && o.organisationId in ids && m in o.dataOwnerOfMunicipalities;
      }
      if m in AccessibleMunicipalities(t, userId) {
        var o, m' :| o in t.organisations && o.organisationId in ids && m' in o.dataOwnerOfMunicipalities && m' == m;
        assert m in OwnedCodes(t.organisations, ids);
      }
    }
  }

  /** One row per code, in order. */
  function AsRows(codes: seq<string>): (rows: seq<MunicipalityRow>)
    ensures Distinct(codes) ==> Distinct(rows)
    ensures forall m :: MunicipalityRow(m) in rows <==> m in codes
  {
    var rows := seq(|codes|, i requires 0 <= i < |codes| => MunicipalityRow(codes[i]));
    assert forall m :: m in codes ==> MunicipalityRow(m) in rows by {
      forall m | m in codes ensures MunicipalityRow(m) in rows {
        var i :| 0 <= i < |codes| && codes[i] == m;
        assert rows[i] == MunicipalityRow(m);
      }
    }
    rows
  }

  /** `get_accessible_municipalities`: `None` exactly when the query raises;
      otherwise one row per accessible municipality, each once. The order of
      the rows is the database's; the model takes table order. */
  function GetAccessibleMunicipalities(conn: Connection, userId: string): (r: Option<seq<MunicipalityRow>>)
    ensures conn.Down? <==> r == None
    ensures conn.Up? ==>
      && Distinct(r.value)
      && forall m :: MunicipalityRow(m) in r.value <==> m in AccessibleMunicipalities(conn.tables, userId)
  {
    match conn
    case Down => None
    case Up(t) =>
      DistinctCodesAreAccessible(t, userId);
      Some(AsRows(Dedup(OwnedCodes(t.organisations, ReachableOrganisations(t, userId)))))
  }

  /** Every municipality owned by the user's own organisation is accessible. */
  lemma OwnMunicipalitiesAccessible(t: Tables, a: UserAccount, o: Organisation, m: string)
    requires a in t.userAccounts && o in t.organisations && o.organisationId == a.organisationId
    requires m in o.dataOwnerOfMunicipalities
    ensures m in AccessibleMunicipalities(t, a.userId)
  {
    assert o.organisationId in OwnOrganisations(t, a.userId);
  }

  /** Every municipality owned by an organisation that granted access to the
      user's organisation is accessible. */
  lemma OrganisationGrantAccessible(t: Tables, a: UserAccount, o: Organisation, g: DataAccessGrant, owner: Organisation, m: string)
    requires a in t.userAccounts && o in t.organisations && o.organisationId == a.organisationId
    requires g in t.viewDataAccess && g.grantedOrganisationId == Some(o.organisationId)
    requires owner in t.organisations && owner.organisationId == g.ownerOrganisationId
    requires m in owner.dataOwnerOfMunicipalities
    ensures m in AccessibleMunicipalities(t, a.userId)
  {
    assert owner.organisationId in OrganisationGrantors(t, a.userId);
  }

  /** Every municipality owned by an organisation that granted access to the
      user individually is accessible. */
  lemma UserGrantAccessible(t: Tables, a: UserAccount, o: Organisation, g: DataAccessGrant, owner: Organisation, m: string)
    requires a in t.userAccounts && o in t.organisations && o.organisationId == a.organisationId
    requires g in t.viewDataAccess && g.grantedUser == Some(a.userId)
    requires owner in t.organisations && owner.organisationId == g.ownerOrganisationId
    requires m in owner.dataOwnerOfMunicipalities
    ensures m in AccessibleMunicipalities(t, a.userId)
  {
    assert owner.organisationId in UserGrantors(t, a.userId);
  }

  /** Nothing else is accessible: every accessible code is owned by the user's
      organisation or by an organisation that granted access directly to it or
      to the user. */
  lemma AccessibleOnlyByOneHop(t: Tables, userId: string, m: string)
    requires m in AccessibleMunicipalities(t, userId)
    ensures exists a, o, owner ::
      a in t.userAccounts && o in t.organisations && owner in t.organisations &&
      a.userId == userId && o.organisationId == a.organisationId && m in owner.dataOwnerOfMunicipalities &&
      (|| owner.organisationId == o.organisationId
       || (exists g :: g in t.viewDataAccess && g.ownerOrganisationId == owner.organisationId &&
                       (g.grantedOrganisationId == Some(o.organisationId) || g.grantedUser == Some(userId))))
  {
    var ids := ReachableOrganisations(t, userId);
    var owner :| owner in t.organisations && owner.organisationId in ids && m in owner.dataOwnerOfMunicipalities;
    if owner.organisationId in OwnOrganisations(t, userId) {
      var a, o :| a in t.userAccounts && o in t.organisations && a.userId == userId &&
                  o.organisationId == a.organisationId && owner.organisationId == o.organisationId;
    } else if owner.organisationId in OrganisationGrantors(t, userId) {
      var a, o, g :| a in t.userAccounts && o in t.organisations && g in t.viewDataAccess &&
                     a.userId == userId && o.organisationId == a.organisationId &&
                     g.grantedOrganisationId == Some(o.organisationId) && owner.organisationId == g.ownerOrganisationId;
    } else {
      var a, o, g :| a in t.userAccounts && o in t.organisations && g in t.viewDataAccess &&
                     a.userId == userId && o.organisationId == a.organisationId &&
                     g.grantedUser == Some(a.userId) && owner.organisationId == g.ownerOrganisationId;
    }
  }

  /** A user without an account row sees no municipality. */
  lemma NoAccountNoMunicipalities(t: Tables, userId: string)
    requires forall a :: a in t.userAccounts ==> a.userId != userId
    ensures AccessibleMunicipalities(t, userId) == {}
    ensures GetOrganisationAndPrivileges(Up(t), userId) == None
  {
    assert ReachableOrganisations(t, userId) == {};
  }

  /** Grants are not followed further: organisation 1 of user "u" was granted
      access by organisation 2, which was itself granted access by
      organisation 3, yet organisation 3's municipality "0363" stays hidden. */
  lemma GrantsAreNotTransitive()
    ensures var t := Tables(
      [UserAccount("u", 1, None)],
      [Organisation(1, ["0518"], "MUNICIPALITY"), Organisation(2, ["0599"], "MUNICIPALITY"), Organisation(3, ["0363"], "MUNICIPALITY")],
      [DataAccessGrant(2, Some(1), None), DataAccessGrant(3, Some(2), None)]);
      AccessibleMunicipalities(t, "u") == {"0518", "0599"}
  {
    var t := Tables(
      [UserAccount("u", 1, None)],
      [Organisation(1, ["0518"], "MUNICIPALITY"), Organisation(2, ["0599"], "MUNICIPALITY"), Organisation(3, ["0363"], "MUNICIPALITY")],
      [DataAccessGrant(2, Some(1), None), DataAccessGrant(3, Some(2), None)]);
    assert OwnOrganisations(t, "u") == {1} by {
      assert t.organisations[0] in t.organisations;
    }
    assert OrganisationGrantors(t, "u") == {2} by {
      assert t.organisations[0] in t.organisations;
      assert t.viewDataAccess[0] in t.viewDataAccess;
    }
    assert UserGrantors(t, "u") == {};
    assert ReachableOrganisations(t, "u") == {1, 2};
    var org1, org2 := t.organisations[0], t.organisations[1];
    assert "0518" in org1.dataOwnerOfMunicipalities;
    assert "0599" in org2.dataOwnerOfMunicipalities;
  }

  /** User "u" of organisation 1 (owning "0518") is granted access
      individually by organisation 2 (owning "0599"); organisation 3 owns
      "0363" and grants nothing. */
  function UserGrantExample(): Tables
  {
    Tables(
      [UserAccount("u", 1, None)],
      [Organisation(1, ["0518"], "MUNICIPALITY"), Organisation(2, ["0599"], "MUNICIPALITY"), Organisation(3, ["0363"], "MUNICIPALITY")],
      [DataAccessGrant(2, None, Some("u"))])
  }

  /** In that example the user sees the own and the granted municipality only. */
  lemma UserGrantExampleMunicipalities()
    ensures AccessibleMunicipalities(UserGrantExample(), "u") == {"0518", "0599"}
  {
    var t := UserGrantExample();
    assert OwnOrganisations(t, "u") == {1} by {
      assert t.organisations[0] in t.organisations;
    }
    assert UserGrantors(t, "u") == {2} by {
      assert t.userAccounts[0] in t.userAccounts;
      assert t.organisations[0] in t.organisations;
      assert t.viewDataAccess[0] in t.viewDataAccess;
    }
    assert OrganisationGrantors(t, "u") == {};
    assert ReachableOrganisations(t, "u") == {1, 2};
    var org1, org2 := t.organisations[0], t.organisations[1];
    assert "0518" in org1.dataOwnerOfMunicipalities;
    assert "0599" in org2.dataOwnerOfMunicipalities;
  }
}
