/** The privilege tags and the access-control record of acl/acl.py. */
module AclTypes {
  import opened Wrappers

  /** The four capability tags a user account can carry. */
  datatype Privilege = OrganisationAdmin | MicrohubEdit | DownloadRawData | CoreGroup

  /** The string value each tag is stored under. */
  function Value(p: Privilege): string
  {
    match p
    case OrganisationAdmin => "ORGANISATION_ADMIN"
    case MicrohubEdit => "MICROHUB_EDIT"
    case DownloadRawData => "DOWNLOAD_RAW_DATA"
    case CoreGroup => "CORE_GROUP"
  }

  /** `PrivilegesEnum(s)`: the tag whose value is `s`, or none (Python raises
      `ValueError`) for any other string. */
  function FromValue(s: string): (r: Option<Privilege>)
    ensures r.Some? ==> Value(r.value) == s
  {
    if s == "ORGANISATION_ADMIN" then Some(OrganisationAdmin)
    else if s == "MICROHUB_EDIT" then Some(MicrohubEdit)
    else if s == "DOWNLOAD_RAW_DATA" then Some(DownloadRawData)
    else if s == "CORE_GROUP" then Some(CoreGroup)
    else None
  }

  /** No two tags share a string value. */
  lemma ValuesDistinct(p: Privilege, q: Privilege)
    ensures Value(p) == Value(q) <==> p == q
  {
  }

  /** Converting a tag to its value and back gives the same tag. */
  lemma FromValueOfValue(p: Privilege)
    ensures FromValue(Value(p)) == Some(p)
  {
  }

  /** Exactly the four stored values convert to a tag. */
  lemma FromValueExactly(s: string)
    ensures FromValue(s).Some? <==>
      s == "ORGANISATION_ADMIN" || s == "MICROHUB_EDIT" || s == "DOWNLOAD_RAW_DATA" || s == "CORE_GROUP"
  {
  }

  /** The authorization record built once per request: the user, the
      organisation the user belongs to, the user's privileges in stored order,
      and whether the organisation is of the administrative type. */
  datatype Acl = Acl(userId: string, partOfOrganisation: int, privileges: seq<Privilege>, isAdmin: bool)
}
