/** The entity kinds, their columns, and the edges that connect them. */
module Schema {

  datatype Kind = Tenant | Organization | OrgMember | OrgInvitation | SAMLConnection | User | Role

  datatype Rel = O2M | M2O

  datatype Edge =
    | OrgTenant | OrgMembers | OrgInvitations | OrgSamlConnections
    | MemberOrganization | MemberUser | MemberRole
  {
    function Source(): Kind {
      match this
      case OrgTenant | OrgMembers | OrgInvitations | OrgSamlConnections => Organization
      case MemberOrganization | MemberUser | MemberRole => OrgMember
    }

    function Target(): Kind {
      match this
      case OrgTenant => Tenant
      case OrgMembers => OrgMember
      case OrgInvitations => OrgInvitation
      case OrgSamlConnections => SAMLConnection
      case MemberOrganization => Organization
      case MemberUser => User
      case MemberRole => Role
    }

    function Cardinality(): Rel {
      match this
      case OrgMembers | OrgInvitations | OrgSamlConnections => O2M
      case OrgTenant | MemberOrganization | MemberUser | MemberRole => M2O
    }

    /** The column on the source table that takes part in the join. */
    function SourceColumn(): string {
      match this
      case OrgMembers | OrgInvitations | OrgSamlConnections => FIELD_ID
      case OrgTenant => FIELD_TENANT_ID
      case MemberOrganization => FIELD_ORGANIZATION_ID
      case MemberUser => FIELD_USER_ID
      case MemberRole => FIELD_ROLE_ID
    }

    /** The column on the target table that takes part in the join. */
    function TargetColumn(): string {
      match this
      case OrgMembers | OrgInvitations | OrgSamlConnections => FIELD_ORGANIZATION_ID
      case OrgTenant | MemberOrganization | MemberUser | MemberRole => FIELD_ID
    }

    /** The edge name used by the `NotLoaded` error. */
    function Name(): string {
      match this
      case OrgTenant => "tenant"
      case OrgMembers => "members"
      case OrgInvitations => "invitations"
      case OrgSamlConnections => "saml_connections"
      case MemberOrganization => "organization"
      case MemberUser => "user"
      case MemberRole => "role"
    }
  }

  const FIELD_ID := "id"
  const FIELD_TENANT_ID := "tenant_id"
  const FIELD_ORGANIZATION_ID := "organization_id"
  const FIELD_USER_ID := "user_id"
  const FIELD_ROLE_ID := "role_id"
  const FIELD_ASSIGNED_BY_USER_ID := "assigned_by_user_id"
  const FIELD_UPDATED_BY_USER_ID := "updated_by_user_id"
  const FIELD_CREATED_AT := "created_at"
  const FIELD_UPDATED_AT := "updated_at"

  const ORG_MEMBER_COLUMNS := [
    FIELD_ID, FIELD_ORGANIZATION_ID, FIELD_USER_ID, FIELD_ROLE_ID,
    FIELD_ASSIGNED_BY_USER_ID, FIELD_UPDATED_BY_USER_ID, FIELD_CREATED_AT, FIELD_UPDATED_AT]

  const ORGANIZATION_COLUMNS := [
    FIELD_ID, FIELD_TENANT_ID, "environment", "name", "slug", "logo_url", "metadata", FIELD_CREATED_AT]

  /** All SQL columns of an entity kind, in schema order. */
  function Columns(kind: Kind): seq<string> {
    match kind
    case Organization => ORGANIZATION_COLUMNS
    case OrgMember => ORG_MEMBER_COLUMNS
    case Tenant =>
      [FIELD_ID, "name", "slug", "custom_domain", "domain_verified", "domain_verification_token",
       "first_admin_claimed", FIELD_CREATED_AT, FIELD_UPDATED_AT]
    case OrgInvitation =>
      [FIELD_ID, FIELD_ORGANIZATION_ID, "email", FIELD_ROLE_ID, "invited_by_user_id", "invitation_token",
       "status", "expires_at", FIELD_CREATED_AT]
    case SAMLConnection =>
      [FIELD_ID, FIELD_ORGANIZATION_ID, "idp_entity_id", "idp_sso_url", "idp_certificate", "allowed_domains",
       "attribute_mapping", "enforce_sso", "environment", FIELD_CREATED_AT, FIELD_UPDATED_AT]
    case Role =>
      [FIELD_ID, FIELD_TENANT_ID, "name", "slug", "description", "is_system_role", "created_by_user_id",
       FIELD_UPDATED_BY_USER_ID, FIELD_CREATED_AT, FIELD_UPDATED_AT]
    case User =>
      [FIELD_ID, FIELD_TENANT_ID, "environment", "email", "username", "username_canonical", "password_hash",
       "email_verified", "email_verification_token", "email_verification_expires_at", "magic_link_token",
       "magic_link_expires_at", "phone_number", "phone_verified", "name", "avatar_url", "locale", "status",
       "deleted_at", "last_sign_in_at", "metadata", "recovery_failed_attempts", "recovery_lockout_until",
       "security_review_required", FIELD_CREATED_AT, FIELD_UPDATED_AT]
  }

  predicate ValidColumn(kind: Kind, column: string) {
    column in Columns(kind)
  }

  /** The `label` that not-found errors carry. */
  function Label(kind: Kind): string {
    match kind
    case Tenant => "tenant"
    case Organization => "organization"
    case OrgMember => "org_member"
    case OrgInvitation => "org_invitation"
    case SAMLConnection => "saml_connection"
    case User => "user"
    case Role => "role"
  }

  /** The edges a query of this kind can eager-load, in the order in which it loads them. */
  function EdgesOf(kind: Kind): (edges: seq<Edge>)
    ensures forall i :: 0 <= i < |edges| ==> edges[i].Source() == kind
  {
    match kind
    case Organization => [OrgTenant, OrgMembers, OrgInvitations, OrgSamlConnections]
    case OrgMember => [MemberOrganization, MemberUser, MemberRole]
    case Tenant | OrgInvitation | SAMLConnection | User | Role => []
  }

  /** The columns an edge joins on exist on both sides. */
  lemma EdgeColumnsExist(edge: Edge)
    ensures ValidColumn(edge.Source(), edge.SourceColumn()) && ValidColumn(edge.Target(), edge.TargetColumn())
  {
    assert Columns(OrgMember)[1] == FIELD_ORGANIZATION_ID && Columns(OrgMember)[2] == FIELD_USER_ID;
    assert Columns(OrgMember)[3] == FIELD_ROLE_ID && Columns(Organization)[1] == FIELD_TENANT_ID;
    assert Columns(OrgInvitation)[1] == FIELD_ORGANIZATION_ID && Columns(SAMLConnection)[1] == FIELD_ORGANIZATION_ID;
    assert Columns(edge.Source())[0] == FIELD_ID && Columns(edge.Target())[0] == FIELD_ID;
  }
}
