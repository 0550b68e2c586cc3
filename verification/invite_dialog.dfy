/**
 * The invitation dialog: a list of at most five e-mail entries, the set of
 * addresses the user service confirmed, the submit that starts a collaborative
 * session through the collaboration service, and the link it shows.
 */
module InviteDialog {
  import opened Wrappers
  import opened Text
  import Session
  import opened FormArrays

  datatype InvitationPermissions = InvitationPermissions(allowEditing: bool, allowInviting: bool, allowDeleting: bool)

  const DefaultPermissions := InvitationPermissions(true, false, false)

  /** `invitationForm.value`: the entries' e-mails and the three permission switches. */
  datatype FormValue = FormValue(invitations: seq<string>, permissions: InvitationPermissions)

  /**
   * The dialog's state: the e-mail value of each entry in order, the permission
   * switches, the confirmed addresses, whether the form is disabled, and the link section.
   */
  datatype Dialog = Dialog(
    invitations: seq<string>,
    permissions: InvitationPermissions,
    verified: set<string>,
    disabled: bool,
    isProcessing: bool,
    showUrlSection: bool,
    collaborationUrl: string)

  const MaxInvitations := 5

  /** `addInvitation`: one more empty entry, unless there are five already. */
  function AddInvitation(d: Dialog): (r: Dialog)
    ensures |d.invitations| >= MaxInvitations ==> r == d
    ensures |d.invitations| < MaxInvitations ==>
      r.invitations == d.invitations + [""] && r.(invitations := d.invitations) == d
  {
    if |d.invitations| >= MaxInvitations then d else d.(invitations := d.invitations + [""])
  }

  /** The dialog before `ngOnInit`. */
  function Fresh(): Dialog {
    Dialog([], DefaultPermissions, {}, false, false, false, "")
  }

  /** `initializeForm`: no entries and the default switches, then one entry added. */
  function InitializeForm(): (r: Dialog)
    ensures r.invitations == [""]
    ensures r.permissions == InvitationPermissions(true, false, false)
    ensures r.verified == {} && !r.disabled && !r.isProcessing && !r.showUrlSection
  {
    AddInvitation(Fresh())
  }

  /**
   * `removeInvitation(index)`: the entry `at(index)` names (counting from the end
   * for a negative index) leaves the list and its address leaves the confirmed
   * set. The index must name an entry: any other index makes the source read a
   * property of `undefined` and throw.
   */
  function RemoveInvitation(d: Dialog, index: int): (r: Dialog)
    requires NamesEntry(|d.invitations|, index)
    ensures var i := AdjustIndex(|d.invitations|, index);
      && |r.invitations| == |d.invitations| - 1
      && (forall k :: 0 <= k < i ==> r.invitations[k] == d.invitations[k])
      && (forall k :: i <= k < |r.invitations| ==> r.invitations[k] == d.invitations[k + 1])
      && r.verified == d.verified - {d.invitations[i]}
    ensures r.(invitations := d.invitations, verified := d.verified) == d
  {
    var i := AdjustIndex(|d.invitations|, index);
    d.(invitations := RemoveAt(d.invitations, index), verified := d.verified - {d.invitations[i]})
  }

  /** The user service confirmed `email` (the `next` branch of the e-mail check). */
  function RecordVerified(d: Dialog, email: string): (r: Dialog)
    ensures r.verified == d.verified + {email}
    ensures r.(verified := d.verified) == d
  {
    d.(verified := d.verified + {email})
  }

  /** Adding an entry and removing it again gives the list back; the empty address is no longer confirmed. */
  lemma AddThenRemoveRestores(d: Dialog)
    requires |d.invitations| < MaxInvitations
    ensures RemoveInvitation(AddInvitation(d), |d.invitations|) == d.(verified := d.verified - {""})
  {
    RemoveAtAfterAppend(d.invitations, "");
  }

  /**
   * Removing one of two entries holding the same address un-confirms the other
   * one too, so the dialog can no longer be submitted until it is confirmed again.
   */
  lemma RemovingDuplicateUnverifiesTwin(d: Dialog, i: int, j: int)
    requires 0 <= i < |d.invitations| && 0 <= j < |d.invitations| && i != j
    requires d.invitations[i] == d.invitations[j]
    ensures var r := RemoveInvitation(d, i);
      var j' := if j < i then j else j - 1;
      0 <= j' < |r.invitations| && r.invitations[j'] == d.invitations[j] && r.invitations[j'] !in r.verified
  {
  }

  /** The dialog operations a user can trigger between two submits. */
  datatype Edit = Add | Remove(index: int) | Verified(email: string)

  function ApplyEdit(d: Dialog, e: Edit): Dialog {
    match e
    case Add => AddInvitation(d)
    case Remove(i) => if NamesEntry(|d.invitations|, i) then RemoveInvitation(d, i) else d
    case Verified(email) => RecordVerified(d, email)
  }

  function ApplyEdits(d: Dialog, es: seq<Edit>): Dialog
    decreases |es|
  {
    if es == [] then d else ApplyEdits(ApplyEdit(d, es[0]), es[1..])
  }

  /** However the list is edited, it never holds more than five entries. */
  lemma {:induction false} NeverMoreThanFive(d: Dialog, es: seq<Edit>)
    requires |d.invitations| <= MaxInvitations
    ensures |ApplyEdits(d, es).invitations| <= MaxInvitations
    decreases |es|
  {
    if es != [] {
      NeverMoreThanFive(ApplyEdit(d, es[0]), es[1..]);
    }
  }

  /** `invitations.map(email).filter(Boolean)`: the non-empty addresses, in entry order. */
  function InvitedEmails(entries: seq<string>): (r: seq<string>)
    ensures |r| <= |entries|
    ensures forall x :: x in r <==> x in entries && x != ""
    ensures (forall k :: 0 <= k < |entries| ==> entries[k] != "") ==> r == entries
  {
    if entries == [] then []
    else (if entries[0] == "" then [] else [entries[0]]) + InvitedEmails(entries[1..])
  }

  /**
   * The filter works entry by entry, so it keeps the order and multiplicity of
   * the non-empty addresses; with the single-entry cases of `InvitedEmails`'s
   * contract this fixes the result.
   */
  lemma {:induction false} InvitedEmailsConcat(a: seq<string>, b: seq<string>)
    ensures InvitedEmails(a + b) == InvitedEmails(a) + InvitedEmails(b)
    decreases |a|
  {
    if a == [] {
      assert a + b == b;
    } else {
      assert (a + b)[1..] == a[1..] + b;
      InvitedEmailsConcat(a[1..], b);
    }
  }

  /** `generateCollaborationUrl`: the page address up to its first `?`, then the session id parameter. */
  function GenerateCollaborationUrl(href: string, sessionId: string): string {
    BeforeFirst(href, '?') + "?sessionId=" + sessionId
  }

  lemma {:induction false} BeforeFirstOfJoin(base: string, rest: string)
    requires '?' !in base
    ensures BeforeFirst(base + ['?'] + rest, '?') == base
    decreases |base|
  {
    if base == [] {
      assert (base + ['?'] + rest)[0] == '?';
    } else {
      assert (base + ['?'] + rest)[1..] == base[1..] + ['?'] + rest;
      assert base[0] != '?';
      BeforeFirstOfJoin(base[1..], rest);
    }
  }

  /**
   * The link keeps the page address and carries the session id after the first
   * `?`; building a link from a link replaces the old session id.
   */
  lemma CollaborationUrlRoundTrip(href: string, sessionId: string, other: string)
    ensures var url := GenerateCollaborationUrl(href, sessionId);
      var base := BeforeFirst(href, '?');
      && BeforeFirst(url, '?') == base
      && url[|base| + 1..] == "sessionId=" + sessionId
      && GenerateCollaborationUrl(url, other) == GenerateCollaborationUrl(href, other)
  {
    var base := BeforeFirst(href, '?');
    var url := GenerateCollaborationUrl(href, sessionId);
    assert url == base + ['?'] + ("sessionId=" + sessionId);
    BeforeFirstOfJoin(base, "sessionId=" + sessionId);
  }

  /** Every entry's address has been confirmed. */
  predicate AllVerified(d: Dialog) {
    forall k :: 0 <= k < |d.invitations| ==> d.invitations[k] in d.verified
  }

  /**
   * `onSubmit`, with `formValid` the form's validity (the required and pattern
   * validators and the not-registered error the e-mail check sets): an invalid
   * form or an unconfirmed address stops it; otherwise the form is disabled and
   * the collaboration service starts a session seeded with the form value. On
   * success the link is shown and the form stays disabled; on failure the form is
   * enabled again. The processing flag is down afterwards either way.
   */
  function OnSubmit<Delta>(d: Dialog, formValid: bool, s: Session.State<Delta, FormValue>, user: Option<string>,
                           href: string, create: Session.Reply<string>, add: Session.Reply<()>)
    : (r: (Dialog, Session.State<Delta, FormValue>))
    ensures !formValid || !AllVerified(d) ==> r == (d, s)
    ensures formValid && AllVerified(d) ==>
      var step := Session.InitializeCollaborativeSession(s, user, InvitedEmails(d.invitations),
                                                         FormValue(d.invitations, d.permissions), create, add);
      && r.1 == step.state
      && !r.0.isProcessing
      && r.0.invitations == d.invitations && r.0.verified == d.verified && r.0.permissions == d.permissions
      && (step.result.Success? ==>
            r.0.showUrlSection && r.0.disabled
            && r.0.collaborationUrl == GenerateCollaborationUrl(href, step.result.value))
      && (step.result.Failure? ==>
            !r.0.disabled && r.0.showUrlSection == d.showUrlSection
            && r.0.collaborationUrl == d.collaborationUrl)
  {
    if !formValid || !AllVerified(d) then (d, s)
    else
      var busy := d.(isProcessing := true, disabled := true);
      var step := Session.InitializeCollaborativeSession(s, user, InvitedEmails(d.invitations),
                                                         FormValue(d.invitations, d.permissions), create, add);
      var done := match step.result
        case Success(sid) =>
          busy.(collaborationUrl := GenerateCollaborationUrl(href, sid), showUrlSection := true)
        case Failure(_) => busy.(disabled := false);
      (done.(isProcessing := false), step.state)
  }

  /** A session is created only from a dialog whose every address was confirmed. */
  lemma SessionOnlyWhenVerified<Delta>(d: Dialog, formValid: bool, s: Session.State<Delta, FormValue>,
                                       user: Option<string>, href: string,
                                       create: Session.Reply<string>, add: Session.Reply<()>)
    requires OnSubmit(d, formValid, s, user, href, create, add).1 != s
    ensures formValid && AllVerified(d) && user.Some?
  {
  }
}
