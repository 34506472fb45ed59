# Access control and query-parameter decoding of the OD API, in Dafny

This project models the access-control layer of an origin-destination mobility
API, together with the decoder of its query parameters.

- **Identity.** The user's identity is taken from the `Authorization` header. The
  bearer token is decoded without verifying its signature, and its `email` claim
  is used as the identity.
- **ACL.** An ACL (access-control record) holds the user, their organisation, their
  privilege tags and an admin flag. It is built from one row of
  `user_account JOIN organisation`.
- **Accessible municipalities.** The set of municipalities a user may query is a
  one-hop reachability query over the tables `user_account`, `organisation` and
  `view_data_access`. It covers the user's own organisation, every organisation
  that granted access to that organisation, and every organisation that granted
  access to the user directly.
- **Gates.** A request for H3 grid cells or statistical-area geometries is allowed
  for an admin. For anyone else it is allowed exactly when every requested entity
  is accessible.
- **Query parameters.** The decoder checks the date order. It turns comma lists of
  weekday labels into ISO 8601 day numbers (Monday = 1 … Sunday = 7) and
  time-period labels into start hours. It splits modalities on commas, puts in
  sentinel values with their `dont_filter_on_*` flags, and checks the resolution of
  H3 cells.

Modules follow the source files:

- `AclTypes`: acl/acl.py.
- `AclDb`: acl/db.py, with the SQL read as sets over in-memory tables.
- `GetAcl`: acl/get_acl.py.
- `AccessibleH3`: accessible_h3.py.
- `AccessibleGeometry`: accessible_geometry.py.
- `QueryOdParameters`: query_od_parameters.py.
- `Text`: Python's `str.split` with a one-character separator, which both header
  parsing and list decoding use. `Wrappers`: `Option` and `Result`.

A Python `raise` is modelled as the `Failure` side of a `Result`. A query that
raises inside acl/db.py is modelled by the connection `Down`: that code rolls
back, logs and returns `None`.

The external code enters the model as parameters:

- the JWT decoder (`jwt.decode`);
- the H3 conversions (`h3.string_to_h3`, `h3.h3_get_resolution`, `h3.h3_to_string`);
- the GeoJSON parser (`json.loads`);
- the spatial lookups of the top-level `db` module (`get_accessible_h3_cells`,
  `get_accessible_geometries`, `get_accessible_geometries_with_geojson`).
  That module's file does not contain them; they are not part of this model.

Where the code's behaviour may surprise a reader, the model follows the code:

- A non-empty `Authorization` header without a space raises (`IndexError` in the
  source), modelled as `MissingTokenField`. It does not yield "no identity". The
  scheme word before the space is not checked, so the header only loosely follows
  the bearer format of section 2.1 of RFC 6750.
- Privileges are an ordered list with repetitions, not a set.
- Failure of the account query makes `get_acl_for_user_id` return `None`, so the
  ACL lookup fails closed. Failure of the municipality query makes
  `get_accessible_municipalities` iterate `None` and raise. The model gives that
  case `Failure(StoreUnavailable)`, and the gates pass the failure on. They never
  turn it into an allow.

## Model

| member | source | states |
|---|---|---|
| `AclTypes.FromValue` | acl/acl.py:4-8 | a string converts to a tag only when it is that tag's stored value |
| `AclTypes.ValuesDistinct` | acl/acl.py:4-8 | the four tags have pairwise distinct string values |
| `AclTypes.FromValueOfValue` | acl/acl.py:4-8 | converting a tag to its value and back gives the same tag |
| `AclTypes.FromValueExactly` | acl/acl.py:4-8 | exactly ORGANISATION_ADMIN, MICROHUB_EDIT, DOWNLOAD_RAW_DATA and CORE_GROUP convert; every other string gives none |
| `Text.Split` | acl/get_acl.py:9 | `str.split(sep)` gives at least one field, and no field contains the separator |
| `Text.JoinSplit` | query_od_parameters.py:57 | joining the fields of a split with the separator gives back the original text |
| `Text.SplitJoin` | query_od_parameters.py:57 | splitting a join of separator-free fields gives back the fields |
| `Text.SplitHasSecondField` | acl/get_acl.py:9 | a split has a second field exactly when the separator occurs |
| `Text.SecondFieldAfterFirstSeparator` | acl/get_acl.py:9 | field `[1]` is the text from just after the first separator up to the next one, or to the end |
| `GetAcl.TokenOf` | acl/get_acl.py:8-9 | the token is the text between the first and second space; a header with no space is an error |
| `GetAcl.GetAccess` | acl/get_acl.py:5-15 | an absent or empty header gives `None` before any decode or lookup; a non-empty header with no space is an error |
| `GetAcl.GetAccessLooksUpEmail` | acl/get_acl.py:12-15 | the identity looked up is exactly the decoded claims' `email` value |
| `GetAcl.GetAccessNeedsEmail` | acl/get_acl.py:12-15 | an undecodable token gives `UndecodableToken`, and claims without `email` give `MissingEmailClaim` |
| `GetAcl.GetAclForUserId` | acl/get_acl.py:17-21 | gives `None` exactly when the account lookup gives none, including when the store is down; for an existing row, gives `Some` of the ACL `create_acl` builds, or `create_acl`'s failure |
| `GetAcl.ConvertPrivileges` | acl/get_acl.py:28-30 | succeeds exactly when every stored string is a tag; then gives one tag per entry, in order; otherwise reports an unknown value from the list |
| `GetAcl.CreateAcl` | acl/get_acl.py:27-36 | copies user and organisation; `is_admin` holds iff the type is exactly "ADMIN"; a null or empty privilege list gives no privileges; otherwise each stored value converts to its tag, and a failure names a stored value that is no tag |
| `GetAcl.GetAccessibleMunicipalities` | acl/get_acl.py:23-25 | the set of the rows' codes equals the one-hop accessible set; a down store raises |
| `AclDb.JoinRows` | acl/db.py:4-9 | the join rows for a user are exactly the pairs of a matching account and its organisation |
| `AclDb.GetOrganisationAndPrivileges` | acl/db.py:3-17 | at most one row, and a row exactly when a matching account and organisation exist; none when the query raises |
| `AclDb.OwnedCodes` | acl/db.py:21 | the unnested codes are exactly those owned by the selected organisations |
| `AclDb.Dedup` | acl/db.py:21 | `DISTINCT` keeps exactly the same values, each once |
| `AclDb.OwnOrganisationsShape` | acl/db.py:43-50 | the third branch yields organisation rows, and is empty exactly when no account row of the user joins an organisation |
| `AclDb.OrganisationGrantorsGrantToOwn` | acl/db.py:26-32 | the first branch is exactly the owners of grants whose grantee organisation is the user's own |
| `AclDb.UserGrantorsNameUser` | acl/db.py:34-40 | the second branch is exactly the owners of grants naming the user, provided the user's account joins an organisation |
| `AclDb.ReachableIncludesOwn` | acl/db.py:24-50 | the selected organisations include the user's own, and are empty exactly when the user has no account joined to an organisation |
| `AclDb.DistinctCodesAreAccessible` | acl/db.py:21-50 | the distinct unnested codes of the selected organisations are exactly the accessible municipalities |
| `AclDb.GetAccessibleMunicipalities` | acl/db.py:19-58 | `None` exactly when the query raises; otherwise one row per accessible municipality, without duplicates |
| `AclDb.OwnMunicipalitiesAccessible` | acl/db.py:42-50 | every municipality owned by the user's own organisation is accessible |
| `AclDb.OrganisationGrantAccessible` | acl/db.py:26-32 | every municipality of an organisation that granted access to the user's organisation is accessible |
| `AclDb.UserGrantAccessible` | acl/db.py:34-40 | every municipality of an organisation that granted access to the user directly is accessible |
| `AclDb.AccessibleOnlyByOneHop` | acl/db.py:21-50 | every accessible code is owned by the user's organisation or by a direct grantor of it or of the user |
| `AclDb.NoAccountNoMunicipalities` | acl/db.py:24-49 | a user without an account row gets no municipality and no account row |
| `AclDb.GrantsAreNotTransitive` | acl/db.py:24-41 | a grant received by a granting organisation is not followed: the second hop's municipality stays hidden |
| `AclDb.UserGrantExampleMunicipalities` | acl/db.py:34-50 | own "0518" plus a direct user grant of "0599" gives exactly {"0518", "0599"} |
| `AccessibleH3.GetAccessibleH3Cells` | accessible_h3.py:6-9 | one text-form cell per looked-up row, in row order |
| `AccessibleH3.CheckIfUserHasAccessToH3Cells` | accessible_h3.py:11-20 | an admin is allowed; a non-admin is allowed iff every requested cell is among those looked up for exactly `h3_level` and the accessible municipalities |
| `AccessibleH3.AdminAlwaysAllowed` | accessible_h3.py:12-13 | an admin is allowed for any request and any store state |
| `AccessibleH3.EmptyRequestAllowed` | accessible_h3.py:17-18 | an empty request is allowed for every ACL while the municipality query answers |
| `AccessibleH3.OrderAndDuplicatesIrrelevant` | accessible_h3.py:17 | requests with the same cells, in any order or repetition, get the same answer |
| `AccessibleH3.AllowedIsMonotone` | accessible_h3.py:18-20 | every sub-request of an allowed request is allowed |
| `AccessibleH3.InaccessibleCellDenied` | accessible_h3.py:18-20 | one inaccessible cell denies a non-admin's request |
| `AccessibleH3.ExampleScenario` | accessible_h3.py:11-20 | with {"0518", "0599"} accessible, cells there are allowed and a cell of "0363" is denied |
| `AccessibleH3.UserGrantExampleScenario` | accessible_h3.py:11-20 | on the example tables (own "0518", "0599" granted to the user), the same requests are allowed and denied |
| `AccessibleGeometry.SerializeGeometry` | accessible_geometry.py:7-13 | copies `zone_id` and `stats_ref`, renames `municipality` to `municipality_code`, parses the area |
| `AccessibleGeometry.GetAccessibleGeometries` | accessible_geometry.py:15-18 | one entry per row, in row order, each `serialize_geometry` of its row |
| `AccessibleGeometry.CheckIfUserHasAccessToGeometries` | accessible_geometry.py:20-31 | an admin is allowed; a non-admin is allowed iff every requested reference is a `stats_ref` of the accessible rows |
| `AccessibleGeometry.AdminAlwaysAllowed` | accessible_geometry.py:21-22 | an admin is allowed for any request and any store state |
| `AccessibleGeometry.EmptyRequestAllowed` | accessible_geometry.py:26-30 | an empty request is allowed for every ACL while the municipality query answers |
| `AccessibleGeometry.OrderAndDuplicatesIrrelevant` | accessible_geometry.py:26 | requests with the same references get the same answer |
| `AccessibleGeometry.AllowedIsMonotone` | accessible_geometry.py:29-31 | every sub-request of an allowed request is allowed |
| `AccessibleGeometry.InaccessibleStatsRefDenied` | accessible_geometry.py:29-31 | one inaccessible reference denies a non-admin's request |
| `QueryOdParameters.DayTableIsBijection` | query_od_parameters.py:58-66 | the weekday table maps the seven labels one-to-one onto 1 … 7 |
| `QueryOdParameters.PeriodTableIsBijection` | query_od_parameters.py:71-78 | the period table maps the six labels one-to-one onto start hours 2, 6, 10, 14, 18 and 22 |
| `QueryOdParameters.LookUpAll` | query_od_parameters.py:67 | succeeds iff every token is in the table, giving each token's value in order; otherwise a `KeyError` for a missing token |
| `QueryOdParameters.LookUpAllKnown` | query_od_parameters.py:79 | tokens whose table values are known decode to exactly those values |
| `QueryOdParameters.ConvertDaysOfWeek` | query_od_parameters.py:56-67 | one day number in 1 … 7 per token, in order and with the token as its label; any other token is an error |
| `QueryOdParameters.ConvertTimePeriods` | query_od_parameters.py:69-79 | one start hour per token, in order and with the token as its label; any other token is an error |
| `QueryOdParameters.DaysOfWeekRoundTrip` | query_od_parameters.py:56-67 | encoding day numbers as a comma list and decoding it gives them back |
| `QueryOdParameters.TimePeriodsRoundTrip` | query_od_parameters.py:69-79 | encoding start hours as a comma list and decoding it gives them back |
| `QueryOdParameters.TrailingCommaRejected` | query_od_parameters.py:57-67 | "mo," is refused, because of the empty token after the comma |
| `QueryOdParameters.PrepareQuery` | query_od_parameters.py:17-54 | 422 exactly when start is after end; dates pass through; each flag is set iff its filter is absent or empty; sentinels `[-1]` and `["undefined"]` are used when a flag is set, and decoded lists otherwise; a failed decode gives that converter's `KeyError`, weekdays before periods |
| `QueryOdParameters.NoFiltersGiveSentinels` | query_od_parameters.py:27-43 | with ordered dates and no filters, all three flags are set and all three sentinels are used |
| `QueryOdParameters.ConvertH3Cells` | query_od_parameters.py:81-92 | `None` gives `[]`; succeeds iff every cell has the requested resolution, giving one converted cell per input in order; otherwise a 422 error |

## Left out

- The HTTP routing of main.py is left out. Only its admin-only guard
  (main.py:87-88, main.py:116-117) touches authorization.
- main.py calls `prepare_query` with arguments it does not accept
  (`h3_resolution`, `destination_cells`, `origin_cells`). `PrepareQuery` models
  `prepare_query` as written.
- The trip-flow aggregation queries of db.py are left out: SQL run by the
  database, with its thresholds, ordering and session time zone.
- Signature verification, JWT parsing, H3 encoding, GeoJSON parsing and the
  spatial reference lookups are parameters, not models. The model only shows that
  the cell lookup is called with exactly the requested resolution. It cannot show
  that the lookup returns only cells of that resolution.
- `h3.string_to_h3` and `h3.h3_get_resolution` (query_od_parameters.py:88-89) and
  `json.loads` (accessible_geometry.py:10) may raise on malformed text. The model
  treats them as total.
- Cursors, `rollback` and `print` logging are left out. A failing query is the
  connection `Down`.
- SQL gives no row order. The model takes table order for `fetchone` and for the
  `DISTINCT` result.
- Header lookup is by the exact key "Authorization". The web framework's
  case-insensitive header matching is left out.
- Dates are ordinal day numbers: the code only compares them with `>`.
- `AccessibleH3.GetAccessibleH3Cells` takes the municipalities as a set, while
  accessible_h3.py:6 declares a list (the gate at accessible_h3.py:14-15 passes a
  set). The lookup `db.get_accessible_h3_cells` is not part of this model; the
  model assumes it depends only on which municipalities are given.
- There is no concurrency or request lifecycle in the core to model.
- GetAcl.ConvertPrivileges: departs from acl/get_acl.py:30 as written. That line
  builds a lazy `map` calling `PrivilegesEnum`, a name the module does not import.
  So `create_acl` never raises there, and iterating the privileges raises
  `NameError` even for the four valid tags. The model converts eagerly, as the
  code evidently intends: a value that is not one of the four tags gives
  `Failure(UnknownPrivilege(value))`, and a valid one gives its tag.
