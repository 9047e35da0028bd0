/** The server's hubs, users and sessions as a state machine (Common/Libs/Server/Hub/Hub.cpp, TicketBooth.cpp,
    User/User.cpp). Every strand is a FIFO queue of handlers that run one at a time; a session is a serial process.
    Handlers are atomic here. */
module HubProtocol {
  import opened Common

  type HubId = nat
  type UserId = nat

  /** The ticket booth, where users enter. */
  const BOOTH: HubId := 0

  /** A command as its session sent it; `move` says which hub its Execute asks RequestMoveUser for, if any. */
  datatype Command = Command(owner: UserId, seqNo: nat, failed: bool, move: Option<HubId>)

  /** The closures posted to a hub's strand. */
  datatype Task =
    | Execute(cmd: Command)
    | Reply(user: UserId, source: HubId)
    | Refused(user: UserId)
    | Send(user: UserId, target: HubId)
    | Receive(key: UserId, user: UserId)
    | Remove(user: UserId)

  /** Where a session is in RequestAddEvent or CloseConnection. */
  datatype Activity =
    | Idle
    | Posting(cmd: Command, hub: HubId)
    | Closing
    | ClosingAt(hub: HubId)

  /** A user with its session. `done` is one more than the number of the last command executed. */
  datatype User = User(hub: Option<HubId>, closed: bool, sent: seq<Command>, activity: Activity, done: nat)

  datatype Entry = Entry(cmd: Command, hub: HubId)

  type Members = map<HubId, map<UserId, UserId>>
  type Strands = map<HubId, seq<Task>>
  type Users = map<UserId, User>

  datatype System = System(
    members: Members,
    strands: Strands,
    users: Users,
    nextUserID: UserId,
    acceptingID: UserId,
    log: seq<Entry>)

  datatype Step =
    | Accept
    | ReadCommand(user: UserId, failed: bool, move: Option<HubId>)
    | PostCommand(user: UserId)
    | SetClosed(user: UserId)
    | ReadHub(user: UserId)
    | PostRemoval(user: UserId)
    | Handle(hub: HubId, joinable: bool)

  // ----- effects -----

  function Post(s: System, h: HubId, t: Task): System
    requires h in s.strands
  {
    s.(strands := s.strands[h := s.strands[h] + [t]])
  }

  function Pop(s: System, h: HubId): System
    requires h in s.strands && s.strands[h] != []
  {
    s.(strands := s.strands[h := s.strands[h][1..]])
  }

  function SetUser(s: System, u: UserId, user: User): System {
    s.(users := s.users[u := user])
  }

  function SetMembers(s: System, h: HubId, m: map<UserId, UserId>): System {
    s.(members := s.members[h := m])
  }

  /** unordered_map::emplace: does nothing when the key is present. */
  function Emplaced(m: map<UserId, UserId>, key: UserId, user: UserId): map<UserId, UserId> {
    if key in m then m else m[key := user]
  }

  /** AddEvent's closure. */
  function DoExecute(s: System, h: HubId, c: Command): System
    requires h in s.members && c.owner in s.users
    requires c.move.Some? ==> c.move.value in s.strands
  {
    if c.owner != 0 && c.owner in s.members[h] then
      var s1 := SetUser(s, c.owner, s.users[c.owner].(done := c.seqNo + 1)).(log := s.log + [Entry(c, h)]);
      if c.move.Some? then Post(s1, c.move.value, Reply(c.owner, h)) else s1
    else s
  }

  /** replyRequest. */
  function DoReply(s: System, h: HubId, u: UserId, source: HubId, joinable: bool): System
    requires source in s.strands
  {
    Post(s, source, if joinable then Send(u, h) else Refused(u))
  }

  /** RequestCompletionHandler(false): the booth drops the user, other hubs do nothing. */
  function DoRefused(s: System, h: HubId, u: UserId): System
    requires h in s.members && (h == BOOTH ==> u in s.members[h])
  {
    if h == BOOTH then SetMembers(s, h, s.members[h] - {u}) else s
  }

  /** sendUser. */
  function DoSend(s: System, h: HubId, u: UserId, target: HubId): System
    requires h in s.members && u in s.members[h] && s.members[h][u] in s.users && target in s.strands
  {
    var user := s.members[h][u];
    var s1 := SetUser(s, user, s.users[user].(hub := None));
    Post(SetMembers(s1, h, s.members[h] - {u}), target, Receive(u, user))
  }

  /** receiveUser. */
  function DoReceive(s: System, h: HubId, user: UserId): System
    requires h in s.members && user in s.users
  {
    if s.users[user].closed then s
    else SetMembers(SetUser(s, user, s.users[user].(hub := Some(h))), h, Emplaced(s.members[h], user, user))
  }

  /** CloseConnection's closure. */
  function DoRemove(s: System, h: HubId, u: UserId): System
    requires h in s.members
  {
    SetMembers(s, h, s.members[h] - {u})
  }

  // ----- steps -----

  /** The first task of a strand can run: sendUser and the booth's refusal dereference mUsers[userID] unchecked, so
      they are undefined when the user is missing. */
  predicate Defined(s: System, h: HubId)
    requires h in s.strands && s.strands[h] != [] && h in s.members
  {
    match s.strands[h][0]
    case Send(u, _) => u in s.members[h]
    case Refused(u) => h == BOOTH ==> u in s.members[h]
    case _ => true
  }

  predicate Enabled(s: System, step: Step) {
    match step
    case Accept => BOOTH in s.members
    case ReadCommand(u, _, move) =>
      u in s.users && s.users[u].activity.Idle? && (move.Some? ==> move.value in s.strands)
    case PostCommand(u) => u in s.users && s.users[u].activity.Posting? && s.users[u].activity.hub in s.strands
    case SetClosed(u) => u in s.users && s.users[u].activity.Idle?
    case ReadHub(u) => u in s.users && s.users[u].activity.Closing?
    case PostRemoval(u) => u in s.users && s.users[u].activity.ClosingAt? && s.users[u].activity.hub in s.strands
    case Handle(h, _) => h in s.strands && s.strands[h] != [] && h in s.members && Defined(s, h)
  }

  /** What a well-formed queue guarantees about a task, so that its handler's arguments exist. */
  predicate TaskKnown(s: System, t: Task) {
    match t
    case Execute(c) =>
      c.owner in s.users && c.seqNo < |s.users[c.owner].sent| && s.users[c.owner].sent[c.seqNo] == c
      && !c.failed && (c.move.Some? ==> c.move.value in s.strands)
    case Reply(u, source) => u in s.users && source in s.strands
    case Refused(u) => u in s.users
    case Send(u, target) => u in s.users && target in s.strands
    case Receive(k, u) => k == u && u in s.users && s.users[u].hub.None?
    case Remove(u) => u in s.users
  }

  function Run1(s: System, h: HubId, t: Task, joinable: bool): System
    requires h in s.members && TaskKnown(s, t)
    requires t.Send? ==> t.user in s.members[h] && s.members[h][t.user] in s.users
    requires t.Refused? ==> (h == BOOTH ==> t.user in s.members[h])
  {
    match t
    case Execute(c) => DoExecute(s, h, c)
    case Reply(u, source) => DoReply(s, h, u, source, joinable)
    case Refused(u) => DoRefused(s, h, u)
    case Send(u, target) => DoSend(s, h, u, target)
    case Receive(_, u) => DoReceive(s, h, u)
    case Remove(u) => DoRemove(s, h, u)
  }

  /** The state after an enabled step. */
  function Next(s: System, step: Step): System
    requires WellFormed(s) && Enabled(s, step)
  {
    match step
    case Accept =>
      var id := s.acceptingID;
      SetMembers(SetUser(s, id, User(Some(BOOTH), false, [], Idle, 0)), BOOTH,
        Emplaced(s.members[BOOTH], s.nextUserID, id)).(nextUserID := s.nextUserID + 1, acceptingID := s.nextUserID + 1)
    case ReadCommand(u, failed, move) =>
      var user := s.users[u];
      var c := Command(u, |user.sent|, failed, move);
      SetUser(s, u, user.(sent := user.sent + [c],
        activity := if user.hub.Some? then Posting(c, user.hub.value) else Idle))
    case PostCommand(u) =>
      var user := s.users[u];
      var s1 := SetUser(s, u, user.(activity := Idle));
      if user.activity.cmd.failed then s1 else Post(s1, user.activity.hub, Execute(user.activity.cmd))
    case SetClosed(u) => SetUser(s, u, s.users[u].(closed := true, activity := Closing))
    case ReadHub(u) =>
      var user := s.users[u];
      SetUser(s, u, user.(activity := if user.hub.Some? then ClosingAt(user.hub.value) else Idle))
    case PostRemoval(u) =>
      var user := s.users[u];
      Post(SetUser(s, u, user.(activity := Idle)), user.activity.hub, Remove(u))
    case Handle(h, joinable) =>
      PopKnown(s, h);
      Run1(Pop(s, h), h, s.strands[h][0], joinable)
  }

  // ----- invariants -----

  predicate UserKnown(s: System, u: UserId)
    requires u in s.users
  {
    var user := s.users[u];
    && 1 <= u < s.nextUserID && user.done <= |user.sent|
    && (user.hub.Some? ==> user.hub.value in s.strands)
    && (user.activity.ClosingAt? ==> user.activity.hub in s.strands)
    && (user.activity.Posting? ==>
          var c := user.activity.cmd;
          && user.activity.hub in s.strands && c.owner == u
          && c.seqNo + 1 == |user.sent| && user.sent[c.seqNo] == c && user.done <= c.seqNo
          && (c.move.Some? ==> c.move.value in s.strands))
  }

  ghost predicate WellFormed(s: System) {
    && BOOTH in s.members && s.members.Keys == s.strands.Keys
    && s.acceptingID == s.nextUserID && 1 <= s.nextUserID
    && (forall u :: u in s.users ==> UserKnown(s, u))
    && (forall h, i :: h in s.strands && 0 <= i < |s.strands[h]| ==> TaskKnown(s, s.strands[h][i]))
    && (forall h, k :: h in s.members && k in s.members[h] ==> MemberKnown(s, h, k))
  }

  /** The map key is the user's own ID, and the user points back at this hub. */
  predicate MemberKnown(s: System, h: HubId, k: UserId)
    requires h in s.members && k in s.members[h]
  {
    s.members[h][k] == k && k in s.users && s.users[k].hub == Some(h)
  }

  lemma PopKnown(s: System, h: HubId)
    requires WellFormed(s) && h in s.strands && s.strands[h] != []
    ensures TaskKnown(Pop(s, h), s.strands[h][0])
  {
    assert TaskKnown(s, s.strands[h][0]);
  }
}
