/** The hubs and users as the objects they are (Common/Libs/Server/Hub/Hub.cpp, TicketBooth.cpp, User/User.cpp). Each
    method is proved to do to the objects what the state machine's effect does to the state: it takes, as a ghost
    argument, a machine state that agrees with the objects before, and the machine's next state agrees with them
    after. */
module HubObjects {
  import opened Common
  import opened HubProtocol

  /** A closure in a hub's strand. */
  datatype Closure =
    | RunEvent(cmd: Command)
    | ReplyRequest(userID: UserId, source: HubObject)
    | CompleteRequest(userID: UserId)
    | SendUser(userID: UserId, target: HubObject)
    | ReceiveUser(userID: UserId, user: UserObject)
    | CloseUser(userID: UserId)

  function TaskOf(c: Closure): Task {
    match c
    case RunEvent(cmd) => Execute(cmd)
    case ReplyRequest(u, source) => Reply(u, source.mID)
    case CompleteRequest(u) => Refused(u)
    case SendUser(u, target) => Send(u, target.mID)
    case ReceiveUser(u, user) => Receive(u, user.mID)
    case CloseUser(u) => Task.Remove(u)
  }

  function TasksOf(cs: seq<Closure>): seq<Task> {
    seq(|cs|, i requires 0 <= i < |cs| => TaskOf(cs[i]))
  }

  function IdsOf(m: map<UserId, UserObject>): map<UserId, UserId> {
    map k | k in m :: m[k].mID
  }

  function HubIdOf(h: HubObject?): Option<HubId> {
    if h == null then None else Some(h.mID)
  }

  /** The commands that the log has for a hub, in order. */
  function ExecutedAt(log: seq<Entry>, h: HubId): seq<Command> {
    if log == [] then []
    else
      var last := log[|log| - 1];
      ExecutedAt(log[..|log| - 1], h) + (if last.hub == h then [last.cmd] else [])
  }

  lemma ExecutedAtMore(log: seq<Entry>, e: Entry, h: HubId)
    ensures ExecutedAt(log + [e], h) == ExecutedAt(log, h) + (if e.hub == h then [e.cmd] else [])
  {
    assert (log + [e])[..|log|] == log;
  }

  /** The machine state has this hub's map, strand and executed commands. */
  ghost predicate AgreesHub(s: System, h: HubObject)
    reads h
  {
    && h.mID in s.members && s.members[h.mID] == IdsOf(h.mUsers)
    && h.mID in s.strands && s.strands[h.mID] == TasksOf(h.mStrand)
    && h.mExecuted == ExecutedAt(s.log, h.mID)
  }

  /** The machine state has this user's hub pointer and closed flag. */
  ghost predicate AgreesUser(s: System, u: UserObject)
    reads u
  {
    u.mID in s.users && s.users[u.mID].hub == HubIdOf(u.mHubOrNull) && s.users[u.mID].closed == u.mIsConnectionClosed
  }

  /** Two hubs are the same object or have different IDs. */
  predicate Separate(h: HubObject, k: HubObject) {
    h == k || h.mID != k.mID
  }

  /** What RequestMoveUser posts. */
  function Requests(asked: bool, userID: UserId, source: HubObject): seq<Closure> {
    if asked then [ReplyRequest(userID, source)] else []
  }

  /** What the ticket booth says to a user. */
  datatype Notice = Welcome | ServerUnavailable

  class UserObject {
    const mID: UserId
    var mHubOrNull: HubObject?
    var mIsConnectionClosed: bool
    /** Whether the session's read loop has been started, and what the session was given to send by the booth. */
    var mSessionStarted: bool
    var mNotices: seq<Notice>

    constructor (id: UserId, hub: HubObject?)
      ensures mID == id && mHubOrNull == hub && !mIsConnectionClosed && !mSessionStarted && mNotices == []
    {
      mID, mHubOrNull, mIsConnectionClosed, mSessionStarted, mNotices := id, hub, false, false, [];
    }

    method SessionStart()
      modifies this`mSessionStarted
      ensures mSessionStarted
    {
      mSessionStarted := true;
    }

    method SendCommandToSession(notice: Notice)
      modifies this`mNotices
      ensures mNotices == old(mNotices) + [notice]
    {
      mNotices := mNotices + [notice];
    }

    method SetHub(hubOrNull: HubObject?)
      modifies this`mHubOrNull
      ensures mHubOrNull == hubOrNull
    {
      mHubOrNull := hubOrNull;
    }

    /** RequestAddEvent after the hub pointer has been read into `hub`. */
    method RequestAddEvent(cmd: Command, hub: HubObject?, ghost s: System)
      requires hub != null ==> AgreesHub(s, hub)
      modifies (if hub == null then {} else {hub})`mStrand
      ensures hub != null ==>
        && hub.mStrand == old(hub.mStrand) + (if cmd.failed then [] else [Closure.RunEvent(cmd)])
        && AgreesHub(if cmd.failed then s else Post(s, hub.mID, Execute(cmd)), hub)
    {
      if hub != null {
        hub.AddEvent(cmd, s);
      }
    }

    /** The first step of CloseConnection. */
    method SetClosed(ghost s: System)
      requires AgreesUser(s, this)
      modifies this`mIsConnectionClosed
      ensures mIsConnectionClosed
      ensures AgreesUser(SetUser(s, mID, s.users[mID].(closed := true, activity := Closing)), this)
    {
      mIsConnectionClosed := true;
    }

    /** The rest of CloseConnection after the hub pointer has been read into `hub`. */
    method DispatchRemoval(hub: HubObject?, ghost s: System)
      requires hub != null ==> AgreesHub(s, hub)
      modifies (if hub == null then {} else {hub})`mStrand
      ensures hub != null ==>
        && hub.mStrand == old(hub.mStrand) + [Closure.CloseUser(mID)]
        && AgreesHub(Post(s, hub.mID, Task.Remove(mID)), hub)
    {
      if hub != null {
        hub.PostClosure(Closure.CloseUser(mID), s);
      }
    }
  }

  class HubObject {
    const mID: HubId
    var mUsers: map<UserId, UserObject>
    var mStrand: seq<Closure>
    var mCanEnter: bool
    /** The commands whose Execute was called on this hub. */
    var mExecuted: seq<Command>

    constructor (id: HubId)
      ensures mID == id && mUsers == map[] && mStrand == [] && mCanEnter && mExecuted == []
    {
      mID, mUsers, mStrand, mCanEnter, mExecuted := id, map[], [], true, [];
    }

    method PostClosure(c: Closure, ghost s: System)
      requires AgreesHub(s, this)
      modifies this`mStrand
      ensures mStrand == old(mStrand) + [c]
      ensures AgreesHub(Post(s, mID, TaskOf(c)), this)
    {
      mStrand := mStrand + [c];
      assert TasksOf(mStrand) == TasksOf(old(mStrand)) + [TaskOf(c)];
    }

    /** The strand takes its next closure. */
    method TakeClosure(ghost s: System) returns (c: Closure)
      requires AgreesHub(s, this) && mStrand != []
      modifies this`mStrand
      ensures old(mStrand) == [c] + mStrand
      ensures TaskOf(c) == s.strands[mID][0] && AgreesHub(Pop(s, mID), this)
    {
      c := mStrand[0];
      mStrand := mStrand[1..];
      assert TasksOf(mStrand) == TasksOf(old(mStrand))[1..];
    }

    /** AddEvent: a failed command is dropped, any other is queued. */
    method AddEvent(cmd: Command, ghost s: System)
      requires AgreesHub(s, this)
      modifies this`mStrand
      ensures mStrand == old(mStrand) + (if cmd.failed then [] else [Closure.RunEvent(cmd)])
      ensures AgreesHub(if cmd.failed then s else Post(s, mID, Execute(cmd)), this)
    {
      if cmd.failed {
        return;
      }
      PostClosure(Closure.RunEvent(cmd), s);
    }

    /** ICommand::Execute, which may call RequestMoveUser with `target`. */
    method ExecuteCommand(cmd: Command, target: HubObject?, ghost s: System)
      requires AgreesHub(s, this) && cmd.owner in s.users && cmd.move == HubIdOf(target) && cmd.owner in mUsers
      requires target != null ==> AgreesHub(s, target) && Separate(this, target)
      modifies this`mExecuted, (if target == null then {} else {target})`mStrand
      ensures mExecuted == old(mExecuted) + [cmd]
      ensures target != null ==>
        target.mStrand == old(target.mStrand) + [Closure.ReplyRequest(cmd.owner, this)]
      ensures cmd.owner != 0 ==>
        && AgreesHub(DoExecute(s, mID, cmd), this)
        && (target != null ==> AgreesHub(DoExecute(s, mID, cmd), target))
    {
      mExecuted := mExecuted + [cmd];
      ghost var s1 := SetUser(s, cmd.owner, s.users[cmd.owner].(done := cmd.seqNo + 1)).(
        log := s.log + [Entry(cmd, mID)]);
      ExecutedAtMore(s.log, Entry(cmd, mID), mID);
      if target != null {
        ExecutedAtMore(s.log, Entry(cmd, mID), target.mID);
      }
      RequestMoveUser(cmd.owner, target, s1);
    }

    /** AddEvent's closure: the command is executed exactly when its user is in the map. */
    method RunEvent(cmd: Command, target: HubObject?, ghost s: System)
      requires AgreesHub(s, this) && cmd.owner in s.users && cmd.move == HubIdOf(target)
      requires target != null ==> AgreesHub(s, target) && Separate(this, target)
      modifies this`mExecuted, (if target == null then {} else {target})`mStrand
      ensures mExecuted == old(mExecuted) + (if cmd.owner != 0 && cmd.owner in mUsers then [cmd] else [])
      ensures target != null ==>
        target.mStrand == old(target.mStrand) + Requests(cmd.owner != 0 && cmd.owner in mUsers, cmd.owner, this)
      ensures AgreesHub(DoExecute(s, mID, cmd), this)
      ensures target != null ==> AgreesHub(DoExecute(s, mID, cmd), target)
    {
      if cmd.owner != 0 && cmd.owner in mUsers {
        ExecuteCommand(cmd, target, s);
      }
    }

    method RequestMoveUser(userID: UserId, target: HubObject?, ghost s: System)
      requires AgreesHub(s, this) && (target != null ==> AgreesHub(s, target) && Separate(this, target))
      modifies (if target == null then {} else {target})`mStrand
      ensures target != null ==> target.mStrand == old(target.mStrand) + Requests(userID in mUsers, userID, this)
      ensures var s' := if target != null && userID in mUsers then Post(s, target.mID, Reply(userID, mID)) else s;
        AgreesHub(s', this) && (target != null ==> AgreesHub(s', target))
    {
      if target == null || userID !in mUsers {
        return;
      }
      target.PostClosure(Closure.ReplyRequest(userID, this), s);
    }

    /** replyRequest; `this` is the hub the user would leave, and the closure runs on the target's strand. */
    method ReplyRequest(target: HubObject, userID: UserId, ghost s: System)
      requires AgreesHub(s, this) && AgreesHub(s, target) && Separate(this, target)
      modifies this`mStrand
      ensures mStrand == old(mStrand) +
        [if target.mCanEnter then Closure.SendUser(userID, target) else Closure.CompleteRequest(userID)]
      ensures var s' := DoReply(s, target.mID, userID, mID, target.mCanEnter);
        AgreesHub(s', this) && AgreesHub(s', target)
    {
      if !target.mCanEnter {
        PostClosure(Closure.CompleteRequest(userID), s);
        return;
      }
      PostClosure(Closure.SendUser(userID, target), s);
    }

    /** sendUser. The user must still be in the map: mUsers[userID] is dereferenced without a check. */
    method SendUser(userID: UserId, target: HubObject, ghost departing: UserObject, ghost s: System)
      requires AgreesHub(s, this) && AgreesHub(s, target) && Separate(this, target)
      requires userID in mUsers && mUsers[userID] == departing && AgreesUser(s, departing)
      modifies this`mUsers, target`mStrand, departing`mHubOrNull
      ensures mUsers == old(mUsers) - {userID} && departing.mHubOrNull == null
      ensures target.mStrand == old(target.mStrand) + [Closure.ReceiveUser(userID, departing)]
      ensures var s' := DoSend(s, mID, userID, target.mID);
        AgreesHub(s', this) && AgreesHub(s', target) && AgreesUser(s', departing)
    {
      var user := mUsers[userID];
      user.SetHub(null);
      RemoveUser(userID);
      ghost var s1 := SetMembers(SetUser(s, user.mID, s.users[user.mID].(hub := None)), mID, s.members[mID] - {userID});
      target.PostClosure(Closure.ReceiveUser(userID, user), s1);
    }

    /** receiveUser; `this` is the hub the user left, and the closure runs on the target's strand. */
    method ReceiveUser(userID: UserId, target: HubObject, user: UserObject, ghost s: System)
      requires AgreesHub(s, target) && AgreesUser(s, user)
      modifies target`mUsers, user`mHubOrNull
      ensures target.mUsers ==
        if user.mIsConnectionClosed || user.mID in old(target.mUsers) then old(target.mUsers)
        else old(target.mUsers)[user.mID := user]
      ensures user.mHubOrNull == if user.mIsConnectionClosed then old(user.mHubOrNull) else target
      ensures var s' := DoReceive(s, target.mID, user.mID); AgreesHub(s', target) && AgreesUser(s', user)
    {
      if user.mIsConnectionClosed {
        return;
      }
      user.SetHub(target);
      target.AddUser(user);
    }

    /** AddUser: emplace does nothing when the key is taken. */
    method AddUser(user: UserObject)
      modifies this`mUsers
      ensures mUsers == if user.mID in old(mUsers) then old(mUsers) else old(mUsers)[user.mID := user]
      ensures IdsOf(mUsers) == Emplaced(old(IdsOf(mUsers)), user.mID, user.mID)
    {
      if user.mID !in mUsers {
        mUsers := mUsers[user.mID := user];
      }
    }

    method RemoveUser(userID: UserId)
      modifies this`mUsers
      ensures mUsers == old(mUsers) - {userID}
      ensures IdsOf(mUsers) == old(IdsOf(mUsers)) - {userID}
    {
      mUsers := mUsers - {userID};
    }

    /** RequestCompletionHandler(false): the ticket booth notifies the user through mUsers[userID], unchecked, and drops
        it; other hubs do nothing. */
    method CompleteRequest(userID: UserId, ghost refused: UserObject?, ghost s: System)
      requires AgreesHub(s, this) && (mID == BOOTH ==> userID in mUsers && mUsers[userID] == refused)
      modifies this`mUsers, (if mID == BOOTH then {refused} else {})`mNotices
      ensures mUsers == if mID == BOOTH then old(mUsers) - {userID} else old(mUsers)
      ensures mID == BOOTH ==> refused.mNotices == old(refused.mNotices) + [ServerUnavailable]
      ensures AgreesHub(DoRefused(s, mID, userID), this)
    {
      if mID == BOOTH {
        mUsers[userID].SendCommandToSession(ServerUnavailable);
        RemoveUser(userID);
      }
    }

    /** CloseConnection's closure. */
    method CloseUser(userID: UserId, ghost s: System)
      requires AgreesHub(s, this)
      modifies this`mUsers
      ensures mUsers == old(mUsers) - {userID}
      ensures AgreesHub(DoRemove(s, mID, userID), this)
    {
      if userID !in mUsers {
        assert IdsOf(mUsers) == IdsOf(mUsers) - {userID};
        return;
      }
      RemoveUser(userID);
    }
  }

  /** The ticket booth's accept loop. */
  class TicketBooth {
    const hub: HubObject
    var mNextUserID: UserId
    var mAccepting: UserObject

    ghost predicate Agrees(s: System)
      reads this, hub
    {
      hub.mID == BOOTH && AgreesHub(s, hub) && s.nextUserID == mNextUserID && s.acceptingID == mAccepting.mID
      && mAccepting.mID == mNextUserID
    }

    /** StartAccept: creates the user that the next connection will get. */
    constructor (hub: HubObject)
      requires hub.mID == BOOTH
      ensures this.hub == hub && mNextUserID == 1 && mAccepting.mID == 1 && mAccepting.mHubOrNull == hub
      ensures fresh(mAccepting)
    {
      this.hub := hub;
      mNextUserID := 1;
      mAccepting := new UserObject(1, hub);
    }

    /** The next ID is in nobody's use. */
    lemma NextIsFree(s: System)
      requires Agrees(s) && WellFormed(s)
      ensures mNextUserID !in hub.mUsers
    {
      assert mNextUserID in s.members[BOOTH] ==> MemberKnown(s, BOOTH, mNextUserID);
      assert mNextUserID in s.users ==> UserKnown(s, mNextUserID);
    }

    /** acceptConnection without an error: the accepted user enters, its read loop starts, and it is welcomed. */
    method Admit()
      requires mNextUserID !in hub.mUsers
      modifies this`mNextUserID, hub`mUsers, mAccepting`mSessionStarted, mAccepting`mNotices
      ensures mNextUserID == old(mNextUserID) + 1 && hub.mUsers == old(hub.mUsers)[old(mNextUserID) := mAccepting]
      ensures mAccepting.mSessionStarted && mAccepting.mNotices == old(mAccepting.mNotices) + [Welcome]
    {
      if mNextUserID !in hub.mUsers {
        hub.mUsers := hub.mUsers[mNextUserID := mAccepting];
      }
      hub.mUsers[mNextUserID].SessionStart();
      mNextUserID := mNextUserID + 1;
      mAccepting.SendCommandToSession(Welcome);
    }

    lemma AcceptedAgrees(s: System, was: map<UserId, UserObject>, user: UserObject)
      requires BOOTH in s.members && s.members[BOOTH] == IdsOf(was) && s.nextUserID !in was && WellFormed(s)
      requires s.acceptingID == s.nextUserID == user.mID
      ensures var t := Next(s, Accept);
        && BOOTH in t.members && t.members[BOOTH] == IdsOf(was[s.nextUserID := user]) && t.strands == s.strands
        && user.mID in t.users && t.users[user.mID].hub == Some(BOOTH) && !t.users[user.mID].closed
        && t.nextUserID == t.acceptingID == s.nextUserID + 1
    {
    }

    /** acceptConnection, then StartAccept for the next one. */
    method AcceptConnection(error: bool, ghost s: System)
      requires Agrees(s) && WellFormed(s)
      requires mAccepting.mHubOrNull == hub && !mAccepting.mIsConnectionClosed
      modifies this`mNextUserID, this`mAccepting, hub`mUsers, mAccepting`mSessionStarted, mAccepting`mNotices
      ensures var s' := if error then s else Next(s, Accept);
        Agrees(s') && (!error ==> AgreesUser(s', old(mAccepting)))
      ensures hub.mUsers == if error then old(hub.mUsers) else old(hub.mUsers)[old(mNextUserID) := old(mAccepting)]
      ensures var user := old(mAccepting);
        && user.mSessionStarted == (!error || old(mAccepting.mSessionStarted))
        && user.mNotices == old(mAccepting.mNotices) + (if error then [] else [Welcome])
      ensures mAccepting.mHubOrNull == hub && !mAccepting.mIsConnectionClosed && fresh(mAccepting)
    {
      NextIsFree(s);
      AcceptedAgrees(s, hub.mUsers, mAccepting);
      hide WellFormed, Next, IdsOf, TasksOf;
      if !error {
        Admit();
      }
      mAccepting := new UserObject(mNextUserID, hub);
    }
  }
}
