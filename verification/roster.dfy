/**
 * The collaboration panel's roster
 * (features/diagrams/components/collaboration-panel/collaboration-panel.component.ts):
 * a reducer from presence and permission events to the list of participants,
 * and the single-flag permission toggle the panel sends to the service.
 */
module Roster {
  import opened Wrappers
  import opened CollabTypes
  import Session

  /** `getDefaultPermissions()`: editing only. */
  function DefaultPermissions(): (p: UserPermissions)
    ensures Flag(p, CanEdit)
    ensures forall k :: k != CanEdit ==> !Flag(p, k)
  {
    UserPermissions(canEdit := true, canInvite := false, canChangePermissions := false, canRemoveUsers := false)
  }

  function Emails(users: seq<CollaborationUser>): (r: seq<string>)
    ensures |r| == |users|
    ensures forall i :: 0 <= i < |users| ==> r[i] == users[i].email
  {
    seq(|users|, i requires 0 <= i < |users| => users[i].email)
  }

  /** The record built for one listed email when somebody joins. */
  function JoinedEntry(email: string, joiner: string, perms: Option<UserPermissions>,
                       creator: Option<string>, now: int): CollaborationUser
  {
    CollaborationUser(
      email := email,
      displayName := None,
      isActive := true,
      permissions := if email == joiner then perms.GetOr(DefaultPermissions()) else DefaultPermissions(),
      lastActivity := now,
      isCreator := creator == Some(email))
  }

  /**
   * `USER_JOINED` with an `activeUsers` list: the roster is rebuilt from the
   * list alone; prior records, and any custom permissions in them, are dropped.
   */
  function OnUserJoined(active: seq<string>, joiner: string, perms: Option<UserPermissions>,
                        creator: Option<string>, now: int): (r: seq<CollaborationUser>)
    ensures Emails(r) == active
    ensures forall i :: 0 <= i < |r| ==> r[i].isActive && r[i].lastActivity == now
    ensures forall i :: 0 <= i < |r| && active[i] == joiner ==>
      r[i].permissions == perms.GetOr(DefaultPermissions())
    ensures forall i :: 0 <= i < |r| && active[i] != joiner ==> r[i].permissions == DefaultPermissions()
    ensures forall i :: 0 <= i < |r| ==> (r[i].isCreator <==> creator == Some(active[i]))
  {
    seq(|active|, i requires 0 <= i < |active| => JoinedEntry(active[i], joiner, perms, creator, now))
  }

  /** `USER_LEFT`: matching records become inactive; nothing else changes, nothing is removed. */
  function OnUserLeft(users: seq<CollaborationUser>, email: string): (r: seq<CollaborationUser>)
    ensures |r| == |users|
    ensures forall i :: 0 <= i < |users| ==>
      r[i] == users[i].(isActive := users[i].isActive && users[i].email != email)
  {
    seq(|users|, i requires 0 <= i < |users| =>
      if users[i].email == email then users[i].(isActive := false) else users[i])
  }

  /** `PERMISSIONS_CHANGED`: matching records get the new (or default) permissions. */
  function OnPermissionsChanged(users: seq<CollaborationUser>, email: string, perms: Option<UserPermissions>)
    : (r: seq<CollaborationUser>)
    ensures |r| == |users|
    ensures forall i :: 0 <= i < |users| && users[i].email != email ==> r[i] == users[i]
    ensures forall i :: 0 <= i < |users| && users[i].email == email ==>
      r[i] == users[i].(permissions := perms.GetOr(DefaultPermissions()))
  {
    seq(|users|, i requires 0 <= i < |users| =>
      if users[i].email == email then users[i].(permissions := perms.GetOr(DefaultPermissions())) else users[i])
  }

  /**
   * `handleUserUpdate(update)`, with the service's creator email and the clock
   * passed in.
   */
  function HandleUserUpdate(users: seq<CollaborationUser>, update: CollaborationUpdate,
                            creator: Option<string>, now: int): (r: seq<CollaborationUser>)
    // a join without a list changes nothing
    ensures update.kind == UserJoined && update.data.activeUsers.None? ==> r == users
    // a join with a list: exactly those emails, in order, all active
    ensures update.kind == UserJoined && update.data.activeUsers.Some? ==>
      && Emails(r) == update.data.activeUsers.value
      && (forall i :: 0 <= i < |r| ==> r[i].isActive)
      && (forall i :: 0 <= i < |r| && r[i].email != update.data.userEmail ==>
            r[i].permissions == DefaultPermissions())
      && (forall i :: 0 <= i < |r| ==> (r[i].isCreator <==> creator == Some(r[i].email)))
    // leave and permission events keep every record in place with its identity
    ensures update.kind != UserJoined ==>
      && Emails(r) == Emails(users)
      && (forall i :: 0 <= i < |r| ==> r[i].isCreator == users[i].isCreator)
      && (forall i :: 0 <= i < |r| ==> r[i].lastActivity == users[i].lastActivity)
    ensures update.kind == UserLeft ==>
      forall i :: 0 <= i < |r| ==>
        && r[i].permissions == users[i].permissions
        && (r[i].isActive <==> users[i].isActive && users[i].email != update.data.userEmail)
    ensures update.kind == PermissionsChanged ==>
      forall i :: 0 <= i < |r| ==>
        && r[i].isActive == users[i].isActive
        && r[i].permissions == (if users[i].email == update.data.userEmail
                                then update.data.permissions.GetOr(DefaultPermissions())
                                else users[i].permissions)
  {
    match update.kind
    case UserJoined =>
      if update.data.activeUsers.Some? then
        OnUserJoined(update.data.activeUsers.value, update.data.userEmail, update.data.permissions, creator, now)
      else users
    case UserLeft => OnUserLeft(users, update.data.userEmail)
    case PermissionsChanged => OnPermissionsChanged(users, update.data.userEmail, update.data.permissions)
  }

  /** Leaving is idempotent. */
  lemma UserLeftIdempotent(users: seq<CollaborationUser>, email: string)
    ensures OnUserLeft(OnUserLeft(users, email), email) == OnUserLeft(users, email)
  {
  }

  /** A permission event for an email nobody in the roster has is a no-op. */
  lemma UnknownEmailIsNoOp(users: seq<CollaborationUser>, email: string, perms: Option<UserPermissions>)
    requires email !in Emails(users)
    ensures OnPermissionsChanged(users, email, perms) == users
  {
    var r := OnPermissionsChanged(users, email, perms);
    forall i | 0 <= i < |users|
      ensures r[i] == users[i]
    {
      assert Emails(users)[i] == users[i].email;
    }
  }

  /**
   * Nothing protects the creator: a permission event naming the creator
   * without permissions revokes its right to change permissions.
   */
  lemma CreatorPermissionsNotProtected(creator: CollaborationUser, sid: string, t: int, now: int)
    requires creator.isCreator && creator.permissions.canChangePermissions
    ensures var u := CollaborationUpdate(PermissionsChanged, sid, UpdateData(creator.email, None, None, None), t);
      var r := HandleUserUpdate([creator], u, Some(creator.email), now);
      r[0].isCreator && !r[0].permissions.canChangePermissions
  {
  }

  /**
   * A client that joined without being the creator never learns the creator's
   * email, so a roster rebuilt on that client marks nobody as creator.
   */
  lemma JoinedClientMarksNoCreator<Delta, Data>(user: string, sid: string, data: Option<Data>,
                                                active: seq<string>, joiner: string, now: int)
    ensures var s := Session.JoinSession(Session.Initial<Delta, Data>(), Some(user), sid,
                                         Session.Accepted(Session.JoinResponse(data, false))).state;
      var r := OnUserJoined(active, joiner, None, Session.GetCreatorEmail(s), now);
      forall i :: 0 <= i < |r| ==> !r[i].isCreator
  {
  }

  /** `{...p, [k]: !p[k]}`: the request differs from `p` in exactly the flag `k`. */
  function TogglePermission(p: UserPermissions, k: PermissionKey): (r: UserPermissions)
    ensures Flag(r, k) == !Flag(p, k)
    ensures forall k' :: k' != k ==> Flag(r, k') == Flag(p, k')
  {
    match k
    case CanEdit => p.(canEdit := !p.canEdit)
    case CanInvite => p.(canInvite := !p.canInvite)
    case CanChangePermissions => p.(canChangePermissions := !p.canChangePermissions)
    case CanRemoveUsers => p.(canRemoveUsers := !p.canRemoveUsers)
  }

  /** Toggling the same flag twice restores the permissions. */
  lemma {:induction false} ToggleTwiceRestores(p: UserPermissions, k: PermissionKey)
    ensures TogglePermission(TogglePermission(p, k), k) == p
  {
    var r := TogglePermission(TogglePermission(p, k), k);
    forall k' ensures Flag(r, k') == Flag(p, k') {
      if k' != k {
        assert Flag(TogglePermission(p, k), k') == Flag(p, k');
      }
    }
    FlagsDetermine(r, p);
  }

  /**
   * `onPermissionChange(key, users[i])` as written: the toggled permissions are
   * sent, and when the call throws the handler flips the local flag, although
   * the local record was never changed, so the roster ends up showing the
   * rejected value.
   */
  function PermissionChangeAsWritten<Delta, Data>(
    users: seq<CollaborationUser>, i: int, key: PermissionKey,
    s: Session.State<Delta, Data>, user: Option<string>, reply: Session.Reply<()>)
    : (r: (seq<CollaborationUser>, Session.State<Delta, Data>))
    requires 0 <= i < |users|
    ensures Session.HasSession(s) && user.Some? && reply.Accepted? ==> r.0 == users
    ensures !(Session.HasSession(s) && user.Some? && reply.Accepted?) ==>
      r.0 == users[i := users[i].(permissions := TogglePermission(users[i].permissions, key))]
    ensures r.1.sent == s.sent || (user.Some? && r.1.sent == s.sent + [Session.UpdatePermissionsMsg(
      s.sessionId, users[i].email, TogglePermission(users[i].permissions, key), user.value)])
  {
    var request := TogglePermission(users[i].permissions, key);
    var step := Session.UpdateUserPermissions(s, user, users[i].email, request, reply);
    if step.result.Success? then (users, step.state)
    else (users[i := users[i].(permissions := request)], step.state)
  }

  /** The discrepancy: after a refused change the roster holds the refused value. */
  lemma RefusedChangeIsShown<Delta, Data>(
    users: seq<CollaborationUser>, i: int, key: PermissionKey,
    s: Session.State<Delta, Data>, user: string, message: string)
    requires 0 <= i < |users|
    ensures var r := PermissionChangeAsWritten(users, i, key, s, Some(user), Session.Rejected(message));
      r.0[i].permissions == TogglePermission(users[i].permissions, key)
      && Flag(r.0[i].permissions, key) != Flag(users[i].permissions, key)
  {
  }

  /**
   * `onPermissionChange` as evidently intended: the toggled permissions are
   * requested, and the roster is left for the broker's `PERMISSIONS_CHANGED`
   * event to update, whether or not the request succeeds.
   */
  function PermissionChange<Delta, Data>(
    users: seq<CollaborationUser>, i: int, key: PermissionKey,
    s: Session.State<Delta, Data>, user: Option<string>, reply: Session.Reply<()>)
    : (r: (seq<CollaborationUser>, Session.State<Delta, Data>))
    requires 0 <= i < |users|
    ensures r.0 == users
    ensures Session.HasSession(s) && user.Some? && !reply.NoConnection? ==>
      r.1.sent == s.sent + [Session.UpdatePermissionsMsg(
        s.sessionId, users[i].email, TogglePermission(users[i].permissions, key), user.value)]
    ensures !Session.HasSession(s) || user.None? || reply.NoConnection? ==> r.1 == s
  {
    var request := TogglePermission(users[i].permissions, key);
    (users, Session.UpdateUserPermissions(s, user, users[i].email, request, reply).state)
  }
}
