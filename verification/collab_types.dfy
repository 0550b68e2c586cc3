/**
 * The records exchanged between the collaboration service, the broker and the
 * collaboration panel (core/interfaces/collaboration.interfaces.ts).
 */
module CollabTypes {
  import opened Wrappers

  /** The four capability flags a participant holds. */
  datatype UserPermissions = UserPermissions(
    canEdit: bool,
    canInvite: bool,
    canChangePermissions: bool,
    canRemoveUsers: bool)

  /** The names of the four flags, used to index a `UserPermissions`. */
  datatype PermissionKey = CanEdit | CanInvite | CanChangePermissions | CanRemoveUsers

  function Flag(p: UserPermissions, k: PermissionKey): bool {
    match k
    case CanEdit => p.canEdit
    case CanInvite => p.canInvite
    case CanChangePermissions => p.canChangePermissions
    case CanRemoveUsers => p.canRemoveUsers
  }

  /** Two permission records are equal exactly when every flag agrees. */
  lemma FlagsDetermine(p: UserPermissions, q: UserPermissions)
    requires forall k :: Flag(p, k) == Flag(q, k)
    ensures p == q
  {
    assert Flag(p, CanEdit) == Flag(q, CanEdit);
    assert Flag(p, CanInvite) == Flag(q, CanInvite);
    assert Flag(p, CanChangePermissions) == Flag(q, CanChangePermissions);
    assert Flag(p, CanRemoveUsers) == Flag(q, CanRemoveUsers);
  }

  /** One entry of the roster the collaboration panel shows. */
  datatype CollaborationUser = CollaborationUser(
    email: string,
    displayName: Option<string>,
    isActive: bool,
    permissions: UserPermissions,
    lastActivity: int,
    isCreator: bool)

  datatype UpdateType = UserJoined | UserLeft | PermissionsChanged

  /** The payload of a presence or permission event; optional members are `Option`s. */
  datatype UpdateData = UpdateData(
    userEmail: string,
    permissions: Option<UserPermissions>,
    activeUsers: Option<seq<string>>,
    isCreator: Option<bool>)

  datatype CollaborationUpdate = CollaborationUpdate(
    kind: UpdateType,
    sessionId: string,
    data: UpdateData,
    timestamp: int)

  /**
   * One propagated diagram mutation. `Delta` and `Data` are opaque payloads;
   * a falsy `diagramData` is `None`.
   */
  datatype DiagramChange<Delta, Data> = DiagramChange(
    delta: Delta,
    diagramData: Option<Data>,
    userEmail: string,
    timestamp: int)
}
