/**
 * The collaboration service (shared/services/collaboration.service.ts): the
 * client-side session record and the operations that change it.
 *
 * The broker is abstracted to one reply per request. A request whose socket
 * could not connect emits nothing (`NoConnection`); any other request is
 * emitted and recorded in the `sent` log, then answered with `Rejected` or
 * `Accepted` according to its acknowledgement's `status`.
 */
module Session {
  import opened Wrappers
  import opened CollabTypes

  /** The broker's answer to one request/acknowledge exchange. */
  datatype Reply<T> = NoConnection | Rejected(message: string) | Accepted(value: T)

  /** Every message this client emits on the socket. */
  datatype Outgoing<Delta, Data> =
    | CreateSessionMsg(creatorEmail: string, diagramData: Data)
    | AddAllowedUsersMsg(sessionId: string, creatorEmail: string, usersToAdd: seq<string>)
    | JoinSessionMsg(sessionId: string, userEmail: string)
    | UpdatePermissionsMsg(sessionId: string, targetUserEmail: string,
                           newPermissions: UserPermissions, requestedByEmail: string)
    | DiagramChangesMsg(sessionId: string, userEmail: string, delta: Delta, diagramData: Data)

  /** What a successful join acknowledgement carries. */
  datatype JoinResponse<Data> = JoinResponse(diagramData: Option<Data>, isCreator: bool)

  /**
   * The service's fields. `sessionId` is `""` for every falsy value (null,
   * undefined or empty), since the service only ever tests its truthiness;
   * `sent` is the log of emitted messages.
   */
  datatype State<Delta, Data> = State(
    sessionId: string,
    creatorEmail: Option<string>,
    isProcessingChanges: bool,
    currentDiagramData: Option<Data>,
    sent: seq<Outgoing<Delta, Data>>)

  /** A state together with what the call returned or threw. */
  datatype Step<Delta, Data, T> = Step(state: State<Delta, Data>, result: Result<T, string>)

  const NoUserError := "No user authenticated"
  const NoSessionIdError := "No session ID received"
  const ConnectError := "No se pudo conectar al servidor"
  const NoSessionOrUserError := "No active session or user"
  const PermissionsError := "Error al actualizar los permisos"

  function Initial<Delta, Data>(): State<Delta, Data> {
    State("", None, false, None, [])
  }

  predicate HasSession<Delta, Data>(s: State<Delta, Data>) {
    s.sessionId != ""
  }

  /** The message a failed request throws. */
  function ReplyError<T>(reply: Reply<T>): string
    requires !reply.Accepted?
  {
    if reply.NoConnection? then ConnectError else reply.message
  }

  /** The log after a request: the message is emitted unless the socket never connected. */
  function Emit<Delta, Data, T>(sent: seq<Outgoing<Delta, Data>>, m: Outgoing<Delta, Data>, reply: Reply<T>)
    : seq<Outgoing<Delta, Data>>
  {
    if reply.NoConnection? then sent else sent + [m]
  }

  /**
   * `initializeCollaborativeSession(invitedUsers, initialData)`: creates a
   * session seeded with `initialData` and, when someone is invited, adds them
   * to the allowed users. There is no guard against an existing session.
   */
  function InitializeCollaborativeSession<Delta, Data>(
    s: State<Delta, Data>, user: Option<string>, invited: seq<string>, initialData: Data,
    create: Reply<string>, add: Reply<()>): (r: Step<Delta, Data, string>)
    // no authenticated user: throws before touching anything
    ensures user.None? ==> r == Step(s, Failure(NoUserError))
    ensures user.Some? ==> r.state.currentDiagramData == Some(initialData)
    ensures r.state.isProcessingChanges == s.isProcessingChanges
    // creation not acknowledged: only the diagram data was recorded
    ensures user.Some? && !create.Accepted? ==>
      && r.state == s.(currentDiagramData := Some(initialData),
                       sent := Emit(s.sent, CreateSessionMsg(user.value, initialData), create))
      && r.result == Failure(ReplyError(create))
    // creation acknowledged: the session id and the creator are recorded even if the id is empty
    ensures user.Some? && create.Accepted? ==>
      && r.state.sessionId == create.value
      && r.state.creatorEmail == Some(user.value)
      && |r.state.sent| >= |s.sent| + 1
      && r.state.sent[..|s.sent| + 1] == s.sent + [CreateSessionMsg(user.value, initialData)]
    ensures user.Some? && create.Accepted? && create.value == "" ==>
      r.result == Failure(NoSessionIdError) && |r.state.sent| == |s.sent| + 1
    // nobody to invite: addAllowedUsers is skipped
    ensures user.Some? && create.Accepted? && create.value != "" && invited == [] ==>
      r.result == Success(create.value) && |r.state.sent| == |s.sent| + 1
    ensures user.Some? && create.Accepted? && create.value != "" && invited != [] ==>
      && r.state.sent == Emit(s.sent + [CreateSessionMsg(user.value, initialData)],
                              AddAllowedUsersMsg(create.value, user.value, invited), add)
      && (r.result.Success? <==> add.Accepted?)
    ensures r.result.Success? ==>
      r.result.value == r.state.sessionId && HasSession(r.state) && r.state.creatorEmail == user
  {
    match user
    case None => Step(s, Failure(NoUserError))
    case Some(email) =>
      var s1 := s.(currentDiagramData := Some(initialData));
      var sent1 := Emit(s.sent, CreateSessionMsg(email, initialData), create);
      match create
      case NoConnection => Step(s1.(sent := sent1), Failure(ConnectError))
      case Rejected(m) => Step(s1.(sent := sent1), Failure(m))
      case Accepted(sid) =>
        var s2 := s1.(sessionId := sid, creatorEmail := Some(email), sent := sent1);
        if sid == "" then Step(s2, Failure(NoSessionIdError))
        else if invited == [] then Step(s2, Success(sid))
        else
          var s3 := s2.(sent := Emit(sent1, AddAllowedUsersMsg(sid, email, invited), add));
          if add.Accepted? then Step(s3, Success(sid)) else Step(s3, Failure(ReplyError(add)))
  }

  /**
   * `joinSession(sessionId)`: on an accepted join the session id is recorded,
   * the diagram data only if the reply carries some, the creator only if the
   * reply says the caller is the creator.
   */
  function JoinSession<Delta, Data>(
    s: State<Delta, Data>, user: Option<string>, sessionId: string,
    reply: Reply<JoinResponse<Data>>): (r: Step<Delta, Data, ()>)
    ensures user.None? ==> r == Step(s, Failure(NoUserError))
    ensures r.result.Failure? ==>
      && r.state.sessionId == s.sessionId
      && r.state.creatorEmail == s.creatorEmail
      && r.state.currentDiagramData == s.currentDiagramData
    ensures user.Some? ==>
      r.state.sent == Emit(s.sent, JoinSessionMsg(sessionId, user.value), reply)
    ensures user.Some? && reply.Accepted? ==>
      && r.result.Success?
      && r.state.sessionId == sessionId
      && r.state.currentDiagramData ==
           (if reply.value.diagramData.Some? then reply.value.diagramData else s.currentDiagramData)
      && r.state.creatorEmail == (if reply.value.isCreator then user else s.creatorEmail)
    ensures r.state.isProcessingChanges == s.isProcessingChanges
    ensures user.Some? && !reply.Accepted? ==> r.result == Failure(ReplyError(reply))
  {
    match user
    case None => Step(s, Failure(NoUserError))
    case Some(email) =>
      var sent := Emit(s.sent, JoinSessionMsg(sessionId, email), reply);
      match reply
      case NoConnection => Step(s.(sent := sent), Failure(ConnectError))
      case Rejected(m) => Step(s.(sent := sent), Failure(m))
      case Accepted(resp) =>
        var s1 := s.(sessionId := sessionId, sent := sent);
        var s2 := if resp.diagramData.Some? then s1.(currentDiagramData := resp.diagramData) else s1;
        var s3 := if resp.isCreator then s2.(creatorEmail := Some(email)) else s2;
        Step(s3, Success(()))
  }

  /**
   * The map step of `getChanges()`: an incoming change overwrites the stored
   * diagram data when it carries some and is passed on unchanged. The
   * processing flag is not consulted or changed.
   */
  function ReceiveChange<Delta, Data>(s: State<Delta, Data>, change: DiagramChange<Delta, Data>)
    : (r: (State<Delta, Data>, DiagramChange<Delta, Data>))
    ensures r.1 == change
    ensures r.0.currentDiagramData ==
      (if change.diagramData.Some? then change.diagramData else s.currentDiagramData)
    ensures r.0.(currentDiagramData := s.currentDiagramData) == s
  {
    var s' := if change.diagramData.Some? then s.(currentDiagramData := change.diagramData) else s;
    (s', DiagramChange(change.delta, change.diagramData, change.userEmail, change.timestamp))
  }

  /**
   * `sendChanges({delta, diagramData})`: without a session, while the flag is
   * set, or without a user nothing happens; otherwise the flag is raised, the
   * data recorded, the change emitted, and the flag lowered again.
   */
  function SendChanges<Delta, Data>(s: State<Delta, Data>, user: Option<string>, delta: Delta, diagramData: Data)
    : (r: State<Delta, Data>)
    ensures !HasSession(s) || s.isProcessingChanges || user.None? ==> r == s
    ensures HasSession(s) && !s.isProcessingChanges && user.Some? ==>
      && r.currentDiagramData == Some(diagramData)
      && r.sent == s.sent + [DiagramChangesMsg(s.sessionId, user.value, delta, diagramData)]
      && r.(currentDiagramData := s.currentDiagramData, sent := s.sent) == s
    ensures r.isProcessingChanges == s.isProcessingChanges
  {
    if !HasSession(s) || s.isProcessingChanges then s
    else if user.None? then s
    else
      var busy := s.(isProcessingChanges := true, currentDiagramData := Some(diagramData));
      var emitted := busy.(sent := busy.sent + [DiagramChangesMsg(s.sessionId, user.value, delta, diagramData)]);
      emitted.(isProcessingChanges := false)
  }

  /**
   * `updateUserPermissions(target, newPermissions)`: refuses without a session
   * or a user; otherwise asks the broker and turns any failure into one
   * message. No state other than the log changes.
   */
  function UpdateUserPermissions<Delta, Data>(
    s: State<Delta, Data>, user: Option<string>, target: string, perms: UserPermissions,
    reply: Reply<()>): (r: Step<Delta, Data, ()>)
    ensures !HasSession(s) || user.None? ==> r == Step(s, Failure(NoSessionOrUserError))
    ensures HasSession(s) && user.Some? ==>
      && r.state == s.(sent := Emit(s.sent, UpdatePermissionsMsg(s.sessionId, target, perms, user.value), reply))
      && (r.result.Success? <==> reply.Accepted?)
      && (r.result.Failure? ==> r.result.error == PermissionsError)
  {
    if !HasSession(s) || user.None? then Step(s, Failure(NoSessionOrUserError))
    else
      var s' := s.(sent := Emit(s.sent, UpdatePermissionsMsg(s.sessionId, target, perms, user.value), reply));
      if reply.Accepted? then Step(s', Success(())) else Step(s', Failure(PermissionsError))
  }

  /** `disconnect()`: forgets the session and its data, keeps the creator. */
  function Disconnect<Delta, Data>(s: State<Delta, Data>): (r: State<Delta, Data>)
    ensures !HasSession(r) && r.currentDiagramData.None?
    ensures r.creatorEmail == s.creatorEmail && r.sent == s.sent
    ensures r.isProcessingChanges == s.isProcessingChanges
  {
    s.(sessionId := "", currentDiagramData := None)
  }

  /** `getCreatorEmail()`. */
  function GetCreatorEmail<Delta, Data>(s: State<Delta, Data>): Option<string> {
    s.creatorEmail
  }

  /** Any one call into the service, with the answers its collaborators give. */
  datatype Op<Delta, Data> =
    | InitOp(user: Option<string>, invited: seq<string>, initialData: Data, create: Reply<string>, add: Reply<()>)
    | JoinOp(user: Option<string>, sessionId: string, joinReply: Reply<JoinResponse<Data>>)
    | ReceiveOp(change: DiagramChange<Delta, Data>)
    | SendOp(user: Option<string>, delta: Delta, diagramData: Data)
    | UpdatePermissionsOp(user: Option<string>, target: string, perms: UserPermissions, permReply: Reply<()>)
    | DisconnectOp

  function Apply<Delta, Data>(s: State<Delta, Data>, op: Op<Delta, Data>): State<Delta, Data> {
    match op
    case InitOp(u, inv, d, c, a) => InitializeCollaborativeSession(s, u, inv, d, c, a).state
    case JoinOp(u, sid, rep) => JoinSession(s, u, sid, rep).state
    case ReceiveOp(ch) => ReceiveChange(s, ch).0
    case SendOp(u, delta, d) => SendChanges(s, u, delta, d)
    case UpdatePermissionsOp(u, t, p, rep) => UpdateUserPermissions(s, u, t, p, rep).state
    case DisconnectOp => Disconnect(s)
  }

  /** The state after running `ops` in order from `s`. */
  function Run<Delta, Data>(s: State<Delta, Data>, ops: seq<Op<Delta, Data>>): State<Delta, Data>
    decreases |ops|
  {
    if ops == [] then s else Run(Apply(s, ops[0]), ops[1..])
  }

  /** Every operation leaves the processing flag as it found it. */
  lemma ApplyKeepsFlag<Delta, Data>(s: State<Delta, Data>, op: Op<Delta, Data>)
    ensures Apply(s, op).isProcessingChanges == s.isProcessingChanges
  {
  }

  /**
   * The processing flag is never observed set: from the initial state, after
   * any sequence of calls, it is clear, so the `isProcessingChanges` guard of
   * `sendChanges` never fires and suppresses nothing.
   */
  lemma {:induction false} FlagNeverObservable<Delta, Data>(ops: seq<Op<Delta, Data>>)
    ensures !Run(Initial<Delta, Data>(), ops).isProcessingChanges
  {
    RunKeepsFlag(Initial<Delta, Data>(), ops);
  }

  lemma {:induction false} RunKeepsFlag<Delta, Data>(s: State<Delta, Data>, ops: seq<Op<Delta, Data>>)
    ensures Run(s, ops).isProcessingChanges == s.isProcessingChanges
    decreases |ops|
  {
    if ops != [] {
      ApplyKeepsFlag(s, ops[0]);
      RunKeepsFlag(Apply(s, ops[0]), ops[1..]);
    }
  }

  /**
   * No echo suppression: in any reachable state with a session, a change that
   * was just received and applied is emitted again if the caller hands it to
   * `sendChanges`.
   */
  lemma ReceivedChangeIsResent<Delta, Data>(
    ops: seq<Op<Delta, Data>>, change: DiagramChange<Delta, Data>, user: string, delta: Delta, data: Data)
    requires HasSession(Run(Initial<Delta, Data>(), ops))
    ensures var s := ReceiveChange(Run(Initial<Delta, Data>(), ops), change).0;
      SendChanges(s, Some(user), delta, data).sent == s.sent + [DiagramChangesMsg(s.sessionId, user, delta, data)]
  {
    FlagNeverObservable(ops);
  }

  /**
   * No idempotence guard: creating a session while one exists emits a second
   * creation request and replaces the session id.
   */
  lemma SecondCreationReplacesSession<Delta, Data>(
    s: State<Delta, Data>, user: string, invited: seq<string>, data: Data, sid: string, add: Reply<()>)
    requires HasSession(s) && sid != s.sessionId
    ensures var r := InitializeCollaborativeSession(s, Some(user), invited, data, Accepted(sid), add);
      r.state.sessionId == sid && r.state.sent[|s.sent|] == CreateSessionMsg(user, data)
  {
  }
}
