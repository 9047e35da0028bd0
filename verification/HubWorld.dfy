/** All hubs and users together: every step of the machine, done on the objects, leads from objects that stand for a
    state to objects that stand for the next one. So what the machine's runs keep (HubRuns) holds of the objects. */
module HubWorld {
  import opened Common
  import opened HubProtocol
  import opened HubObjects

  type Hubs = map<HubId, HubObject>
  type UserTable = map<UserId, UserObject>

  /** A hub of the tables. */
  predicate Listed(h: HubObject, hubs: Hubs) {
    h.mID in hubs && hubs[h.mID] == h
  }

  /** A user of the tables. */
  predicate Registered(user: UserObject, users: UserTable) {
    user.mID in users && users[user.mID] == user
  }

  /** The objects a closure refers to are the ones in the tables. */
  predicate ClosureKnown(c: Closure, hubs: Hubs, users: UserTable) {
    match c
    case ReplyRequest(_, source) => Listed(source, hubs)
    case SendUser(_, target) => Listed(target, hubs)
    case ReceiveUser(_, user) => Registered(user, users)
    case _ => true
  }

  predicate MapKnown(m: map<UserId, UserObject>, users: UserTable) {
    forall k :: k in m ==> Registered(m[k], users)
  }

  predicate StrandKnown(cs: seq<Closure>, hubs: Hubs, users: UserTable) {
    forall i :: 0 <= i < |cs| ==> ClosureKnown(cs[i], hubs, users)
  }

  ghost predicate HubKnown(s: System, h: HubObject, hubs: Hubs, users: UserTable)
    reads h
  {
    AgreesHub(s, h) && MapKnown(h.mUsers, users) && StrandKnown(h.mStrand, hubs, users)
  }

  ghost predicate UserPlaced(s: System, user: UserObject, hubs: Hubs)
    reads user
  {
    AgreesUser(s, user) && (user.mHubOrNull != null ==> Listed(user.mHubOrNull, hubs))
  }

  /** The objects stand for the machine state. */
  ghost predicate World(s: System, hubs: Hubs, users: UserTable)
    reads hubs.Values, users.Values
  {
    && hubs.Keys == s.strands.Keys && users.Keys == s.users.Keys
    && (forall h :: h in hubs ==> hubs[h].mID == h && HubKnown(s, hubs[h], hubs, users))
    && (forall u :: u in users ==> users[u].mID == u && UserPlaced(s, users[u], hubs))
  }

  // ----- what a step does not touch -----

  /** Two states with the same map, strand and executed commands of a hub. */
  predicate SameHub(s: System, t: System, h: HubId) {
    && h in s.members && h in t.members && t.members[h] == s.members[h]
    && h in s.strands && h in t.strands && t.strands[h] == s.strands[h]
    && ExecutedAt(t.log, h) == ExecutedAt(s.log, h)
  }

  /** Two states with the same hub pointer and closed flag of a user. */
  predicate SameUser(s: System, t: System, u: UserId) {
    u in s.users && u in t.users && t.users[u].hub == s.users[u].hub && t.users[u].closed == s.users[u].closed
  }

  predicate SameTables(s: System, t: System) {
    t.strands.Keys == s.strands.Keys && t.users.Keys == s.users.Keys
  }

  /** A step on the machine and on the objects of the tables that changes only the hubs in `touched` and the users in
      `moved`. */
  datatype Change = Change(before: System, after: System, hubs: Hubs, users: UserTable, touched: set<HubId>,
                           moved: set<UserId>)

  /** No other hub's map, strand and executed commands change ... */
  twostate predicate HubsUntouched(c: Change)
    reads c.hubs.Values
  {
    forall k :: k in c.hubs && k !in c.touched ==>
      (c.hubs[k].mUsers, c.hubs[k].mStrand, c.hubs[k].mExecuted)
        == old((c.hubs[k].mUsers, c.hubs[k].mStrand, c.hubs[k].mExecuted))
  }

  /** ... and no other user's pointer and flag, ... */
  twostate predicate UsersUntouched(c: Change)
    reads c.users.Values
  {
    forall u :: u in c.users && u !in c.moved ==>
      (c.users[u].mHubOrNull, c.users[u].mIsConnectionClosed)
        == old((c.users[u].mHubOrNull, c.users[u].mIsConnectionClosed))
  }

  /** ... on the objects as in the machine. */
  ghost predicate OthersSame(s: System, t: System, touched: set<HubId>, moved: set<UserId>) {
    && SameTables(s, t)
    && (forall k :: k in s.strands && k !in touched ==> SameHub(s, t, k))
    && (forall u :: u in s.users && u !in moved ==> SameUser(s, t, u))
  }

  /** If the touched objects stand for the next state, then all do. */
  twostate lemma WorldAgain(c: Change)
    requires old(World(c.before, c.hubs, c.users))
    requires OthersSame(c.before, c.after, c.touched, c.moved)
    requires HubsUntouched(c) && UsersUntouched(c)
    requires forall k :: k in c.hubs && k in c.touched ==> HubKnown(c.after, c.hubs[k], c.hubs, c.users)
    requires forall u :: u in c.users && u in c.moved ==> UserPlaced(c.after, c.users[u], c.hubs)
    ensures World(c.after, c.hubs, c.users)
  {
    forall k | k in c.hubs ensures c.hubs[k].mID == k && HubKnown(c.after, c.hubs[k], c.hubs, c.users) {
      if k !in c.touched {
        assert SameHub(c.before, c.after, k) && old(HubKnown(c.before, c.hubs[k], c.hubs, c.users));
      }
    }
    forall u | u in c.users ensures c.users[u].mID == u && UserPlaced(c.after, c.users[u], c.hubs) {
      if u !in c.moved {
        assert SameUser(c.before, c.after, u) && old(UserPlaced(c.before, c.users[u], c.hubs));
      }
    }
  }

  // ----- what the tables say about one object -----

  /** The tables list the machine's hubs and users. */
  lemma SameKeys(s: System, hubs: Hubs, users: UserTable)
    requires World(s, hubs, users)
    ensures hubs.Keys == s.strands.Keys && users.Keys == s.users.Keys
    ensures forall k :: k in hubs ==> hubs[k].mID == k && k in s.members
    ensures forall u :: u in users ==> users[u].mID == u
  {
  }

  lemma HubInWorld(s: System, h: HubObject, hubs: Hubs, users: UserTable)
    requires World(s, hubs, users) && Listed(h, hubs)
    ensures AgreesHub(s, h) && MapKnown(h.mUsers, users) && StrandKnown(h.mStrand, hubs, users)
    ensures h.mID in s.members && h.mID in s.strands && h.mUsers.Keys == s.members[h.mID].Keys
    ensures |s.strands[h.mID]| == |h.mStrand|
  {
    assert HubKnown(s, hubs[h.mID], hubs, users);
  }

  lemma UserInWorld(s: System, user: UserObject, hubs: Hubs, users: UserTable)
    requires World(s, hubs, users) && Registered(user, users)
    ensures UserPlaced(s, user, hubs) && user.mID in s.users
  {
  }

  lemma HubStands(t: System, h: HubObject, hubs: Hubs, users: UserTable)
    requires AgreesHub(t, h) && MapKnown(h.mUsers, users) && StrandKnown(h.mStrand, hubs, users)
    ensures HubKnown(t, h, hubs, users)
  {
  }

  lemma UserStands(t: System, user: UserObject, hubs: Hubs)
    requires AgreesUser(t, user) && (user.mHubOrNull != null ==> Listed(user.mHubOrNull, hubs))
    ensures UserPlaced(t, user, hubs)
  {
  }

  lemma StrandGrows(cs: seq<Closure>, c: Closure, hubs: Hubs, users: UserTable)
    requires StrandKnown(cs, hubs, users) && ClosureKnown(c, hubs, users)
    ensures StrandKnown(cs + [c], hubs, users)
  {
  }

  lemma StrandShrinks(cs: seq<Closure>, hubs: Hubs, users: UserTable)
    requires StrandKnown(cs, hubs, users) && cs != []
    ensures ClosureKnown(cs[0], hubs, users) && StrandKnown(cs[1..], hubs, users)
  {
    hide ClosureKnown;
  }

  lemma MapShrinks(m: map<UserId, UserObject>, userID: UserId, users: UserTable)
    requires MapKnown(m, users)
    ensures MapKnown(m - {userID}, users)
  {
  }

  lemma MapGrows(m: map<UserId, UserObject>, user: UserObject, users: UserTable)
    requires MapKnown(m, users) && Registered(user, users)
    ensures MapKnown(m[user.mID := user], users)
  {
  }

  // ----- handlers -----

  method Take(h: HubObject, hubs: Hubs, users: UserTable, ghost s: System) returns (c: Closure)
    requires World(s, hubs, users) && Listed(h, hubs) && h.mStrand != []
    modifies h`mStrand
    ensures World(Pop(s, h.mID), hubs, users)
    ensures ClosureKnown(c, hubs, users) && TaskOf(c) == s.strands[h.mID][0]
    ensures h.mID in s.members && h.mUsers.Keys == s.members[h.mID].Keys
  {
    hide World, HubKnown, AgreesHub, MapKnown, StrandKnown, ClosureKnown;
    SameKeys(s, hubs, users);
    HubInWorld(s, h, hubs, users);
    StrandShrinks(h.mStrand, hubs, users);
    ghost var was := h.mStrand;
    c := h.TakeClosure(s);
    assert h.mStrand == was[1..];
    HubStands(Pop(s, h.mID), h, hubs, users);
    WorldAgain(Change(s, Pop(s, h.mID), hubs, users, {h.mID}, {}));
  }

  lemma ExecuteTouches(s: System, h: HubId, cmd: Command)
    requires h in s.members && TaskKnown(s, Execute(cmd)) && s.members.Keys == s.strands.Keys
    ensures cmd.owner in s.users && (cmd.move.Some? ==> cmd.move.value in s.strands)
    ensures OthersSame(s, DoExecute(s, h, cmd), {h} + (if cmd.move.Some? then {cmd.move.value} else {}), {})
  {
    forall k | k in s.strands && k != h
      ensures ExecutedAt(s.log + [Entry(cmd, h)], k) == ExecutedAt(s.log, k)
    {
      ExecutedAtMore(s.log, Entry(cmd, h), k);
    }
  }

  /** AddEvent's closure on objects that are known keeps them known. */
  method ExecuteOut(h: HubObject, cmd: Command, target: HubObject, hubs: Hubs, users: UserTable, ghost s: System)
    requires AgreesHub(s, h) && MapKnown(h.mUsers, users) && StrandKnown(h.mStrand, hubs, users)
    requires AgreesHub(s, target) && MapKnown(target.mUsers, users) && StrandKnown(target.mStrand, hubs, users)
    requires Separate(h, target) && cmd.owner in s.users && cmd.move == Some(target.mID) && Listed(h, hubs)
    modifies h`mExecuted, target`mStrand
    ensures HubKnown(DoExecute(s, h.mID, cmd), h, hubs, users)
    ensures HubKnown(DoExecute(s, h.mID, cmd), target, hubs, users)
  {
    hide AgreesHub, MapKnown, StrandKnown, DoExecute;
    StrandGrows(target.mStrand, Closure.ReplyRequest(cmd.owner, h), hubs, users);
    ghost var was := target.mStrand;
    h.RunEvent(cmd, target, s);
    assert target.mStrand == was || target.mStrand == was + [Closure.ReplyRequest(cmd.owner, h)];
  }

  /** AddEvent's closure, for a command that may ask for a move. */
  method RunMovingEvent(h: HubObject, cmd: Command, target: HubObject, hubs: Hubs, users: UserTable, ghost s: System)
    requires World(s, hubs, users) && Listed(h, hubs) && TaskKnown(s, Execute(cmd))
    requires s.members.Keys == s.strands.Keys && Listed(target, hubs) && cmd.move == Some(target.mID)
    modifies h`mExecuted, target`mStrand
    ensures World(DoExecute(s, h.mID, cmd), hubs, users)
  {
    hide World, HubKnown, AgreesHub, MapKnown, StrandKnown, DoExecute, OthersSame, TaskKnown;
    SameKeys(s, hubs, users);
    HubInWorld(s, h, hubs, users);
    HubInWorld(s, target, hubs, users);
    ExecuteTouches(s, h.mID, cmd);
    ghost var t := DoExecute(s, h.mID, cmd);
    ExecuteOut(h, cmd, target, hubs, users, s);
    WorldAgain(Change(s, t, hubs, users, {h.mID} + {target.mID}, {}));
  }

  method ExecuteHere(h: HubObject, cmd: Command, hubs: Hubs, users: UserTable, ghost s: System)
    requires AgreesHub(s, h) && MapKnown(h.mUsers, users) && StrandKnown(h.mStrand, hubs, users)
    requires cmd.owner in s.users && cmd.move.None?
    modifies h`mExecuted
    ensures HubKnown(DoExecute(s, h.mID, cmd), h, hubs, users)
  {
    hide AgreesHub, MapKnown, StrandKnown, DoExecute;
    h.RunEvent(cmd, null, s);
  }

  /** AddEvent's closure, for a command that asks for no move. */
  method RunStayingEvent(h: HubObject, cmd: Command, hubs: Hubs, users: UserTable, ghost s: System)
    requires World(s, hubs, users) && Listed(h, hubs) && TaskKnown(s, Execute(cmd))
    requires s.members.Keys == s.strands.Keys && cmd.move.None?
    modifies h`mExecuted
    ensures World(DoExecute(s, h.mID, cmd), hubs, users)
  {
    hide World, HubKnown, AgreesHub, MapKnown, StrandKnown, DoExecute, OthersSame, TaskKnown;
    SameKeys(s, hubs, users);
    HubInWorld(s, h, hubs, users);
    ExecuteTouches(s, h.mID, cmd);
    ghost var t := DoExecute(s, h.mID, cmd);
    ExecuteHere(h, cmd, hubs, users, s);
    WorldAgain(Change(s, t, hubs, users, {h.mID} + {}, {}));
  }

  /** AddEvent's closure. */
  method RunEvent(h: HubObject, cmd: Command, hubs: Hubs, users: UserTable, ghost s: System)
    requires World(s, hubs, users) && Listed(h, hubs) && TaskKnown(s, Execute(cmd))
    requires s.members.Keys == s.strands.Keys
    modifies hubs.Values
    ensures World(DoExecute(s, h.mID, cmd), hubs, users)
  {
    hide World, DoExecute;
    SameKeys(s, hubs, users);
    if cmd.move.Some? {
      RunMovingEvent(h, cmd, hubs[cmd.move.value], hubs, users, s);
    } else {
      RunStayingEvent(h, cmd, hubs, users, s);
    }
  }

  lemma ReplyTouches(s: System, h: HubId, u: UserId, source: HubId, joinable: bool)
    requires source in s.strands && s.members.Keys == s.strands.Keys
    ensures OthersSame(s, DoReply(s, h, u, source, joinable), {source}, {})
  {
  }

  method RunReply(h: HubObject, userID: UserId, source: HubObject, hubs: Hubs, users: UserTable, ghost s: System)
    requires World(s, hubs, users) && Listed(h, hubs) && Listed(source, hubs) && s.members.Keys == s.strands.Keys
    modifies hubs.Values
    ensures World(DoReply(s, h.mID, userID, source.mID, old(h.mCanEnter)), hubs, users)
  {
    hide World, AgreesHub, MapKnown, StrandKnown, DoReply, OthersSame;
    SameKeys(s, hubs, users);
    HubInWorld(s, h, hubs, users);
    HubInWorld(s, source, hubs, users);
    ghost var t := DoReply(s, h.mID, userID, source.mID, h.mCanEnter);
    ReplyTouches(s, h.mID, userID, source.mID, h.mCanEnter);
    StrandGrows(source.mStrand, Closure.SendUser(userID, h), hubs, users);
    StrandGrows(source.mStrand, Closure.CompleteRequest(userID), hubs, users);
    source.ReplyRequest(h, userID, s);
    WorldAgain(Change(s, t, hubs, users, {source.mID}, {}));
  }

  lemma SendTouches(s: System, h: HubId, u: UserId, target: HubId)
    requires h in s.members && u in s.members[h] && s.members[h][u] in s.users && target in s.strands
    requires s.members.Keys == s.strands.Keys
    ensures OthersSame(s, DoSend(s, h, u, target), {h, target}, {s.members[h][u]})
  {
  }

  /** What sendUser needs to know of the user it is about to send. */
  lemma DepartingKnown(s: System, h: HubObject, userID: UserId, hubs: Hubs, users: UserTable)
    requires World(s, hubs, users) && Listed(h, hubs) && userID in h.mUsers
    ensures h.mID in s.members && userID in s.members[h.mID] && s.members[h.mID][userID] == h.mUsers[userID].mID
    ensures Registered(h.mUsers[userID], users) && h.mUsers[userID].mID in s.users && AgreesUser(s, h.mUsers[userID])
  {
    assert HubKnown(s, hubs[h.mID], hubs, users);
    assert UserPlaced(s, users[h.mUsers[userID].mID], hubs);
  }

  /** sendUser on objects that are known keeps them known. */
  method SendOut(h: HubObject, userID: UserId, target: HubObject, departing: UserObject, hubs: Hubs, users: UserTable,
                 ghost s: System)
    requires AgreesHub(s, h) && MapKnown(h.mUsers, users) && StrandKnown(h.mStrand, hubs, users)
    requires AgreesHub(s, target) && MapKnown(target.mUsers, users) && StrandKnown(target.mStrand, hubs, users)
    requires Separate(h, target) && userID in h.mUsers && h.mUsers[userID] == departing && Registered(departing, users)
    requires AgreesUser(s, departing) && userID in s.members[h.mID] && s.members[h.mID][userID] == departing.mID
    modifies h`mUsers, target`mStrand, departing`mHubOrNull
    ensures var t := DoSend(s, h.mID, userID, target.mID);
      HubKnown(t, h, hubs, users) && HubKnown(t, target, hubs, users) && UserPlaced(t, departing, hubs)
  {
    hide AgreesHub, AgreesUser, MapKnown, StrandKnown, DoSend;
    MapShrinks(h.mUsers, userID, users);
    StrandGrows(target.mStrand, Closure.ReceiveUser(userID, departing), hubs, users);
    h.SendUser(userID, target, departing, s);
  }

  method RunSend(h: HubObject, userID: UserId, target: HubObject, hubs: Hubs, users: UserTable, ghost s: System)
    requires World(s, hubs, users) && Listed(h, hubs) && Listed(target, hubs) && userID in h.mUsers
    requires s.members.Keys == s.strands.Keys
    modifies hubs.Values, users.Values
    ensures World(DoSend(s, h.mID, userID, target.mID), hubs, users)
  {
    hide World, HubKnown, UserPlaced, AgreesHub, AgreesUser, MapKnown, StrandKnown, DoSend, OthersSame;
    SameKeys(s, hubs, users);
    HubInWorld(s, h, hubs, users);
    HubInWorld(s, target, hubs, users);
    DepartingKnown(s, h, userID, hubs, users);
    SendTouches(s, h.mID, userID, target.mID);
    var departing := h.mUsers[userID];
    ghost var t := DoSend(s, h.mID, userID, target.mID);
    SendOut(h, userID, target, departing, hubs, users, s);
    WorldAgain(Change(s, t, hubs, users, {h.mID, target.mID}, {departing.mID}));
  }

  lemma ReceiveTouches(s: System, h: HubId, user: UserId)
    requires h in s.members && user in s.users && s.members.Keys == s.strands.Keys
    ensures OthersSame(s, DoReceive(s, h, user), {h}, {user})
  {
  }

  method RunReceive(h: HubObject, userID: UserId, user: UserObject, hubs: Hubs, users: UserTable, ghost s: System)
    requires World(s, hubs, users) && Listed(h, hubs) && Registered(user, users) && s.members.Keys == s.strands.Keys
    modifies hubs.Values, users.Values
    ensures World(DoReceive(s, h.mID, user.mID), hubs, users)
  {
    hide World, AgreesHub, AgreesUser, MapKnown, StrandKnown, DoReceive, OthersSame;
    SameKeys(s, hubs, users);
    HubInWorld(s, h, hubs, users);
    UserInWorld(s, user, hubs, users);
    ReceiveTouches(s, h.mID, user.mID);
    MapGrows(h.mUsers, user, users);
    h.ReceiveUser(userID, h, user, s);
    WorldAgain(Change(s, DoReceive(s, h.mID, user.mID), hubs, users, {h.mID}, {user.mID}));
  }

  lemma RemovalTouches(s: System, h: HubId, u: UserId)
    requires h in s.members && s.members.Keys == s.strands.Keys
    ensures OthersSame(s, DoRemove(s, h, u), {h}, {})
    ensures OthersSame(s, s, {}, {})
    ensures (h == BOOTH ==> u in s.members[h]) ==>
      DoRefused(s, h, u) == if h == BOOTH then DoRemove(s, h, u) else s
  {
  }

  method RefuseAtBooth(h: HubObject, userID: UserId, refused: UserObject, hubs: Hubs, users: UserTable, ghost s: System)
    requires World(s, hubs, users) && Listed(h, hubs) && h.mID == BOOTH && s.members.Keys == s.strands.Keys
    requires userID in h.mUsers && h.mUsers[userID] == refused
    modifies h`mUsers, refused`mNotices
    ensures World(DoRefused(s, h.mID, userID), hubs, users)
  {
    hide World, HubKnown, UserPlaced, AgreesHub, AgreesUser, MapKnown, StrandKnown, DoRefused, DoRemove, OthersSame;
    SameKeys(s, hubs, users);
    HubInWorld(s, h, hubs, users);
    RemovalTouches(s, h.mID, userID);
    MapShrinks(h.mUsers, userID, users);
    h.CompleteRequest(userID, refused, s);
    HubStands(DoRefused(s, h.mID, userID), h, hubs, users);
    WorldAgain(Change(s, DoRefused(s, h.mID, userID), hubs, users, {h.mID}, {}));
  }

  method RunRefusal(h: HubObject, userID: UserId, hubs: Hubs, users: UserTable, ghost s: System)
    requires World(s, hubs, users) && Listed(h, hubs) && (h.mID == BOOTH ==> userID in h.mUsers)
    requires s.members.Keys == s.strands.Keys
    modifies h`mUsers, users.Values
    ensures World(DoRefused(s, h.mID, userID), hubs, users)
  {
    hide World, HubKnown, AgreesHub, AgreesUser, MapKnown, StrandKnown, DoRefused, DoRemove, OthersSame;
    HubInWorld(s, h, hubs, users);
    if h.mID == BOOTH {
      DepartingKnown(s, h, userID, hubs, users);
      RefuseAtBooth(h, userID, h.mUsers[userID], hubs, users, s);
    } else {
      RemovalTouches(s, h.mID, userID);
      h.CompleteRequest(userID, null, s);
      WorldAgain(Change(s, s, hubs, users, {}, {}));
    }
  }

  method RunRemoval(h: HubObject, userID: UserId, hubs: Hubs, users: UserTable, ghost s: System)
    requires World(s, hubs, users) && Listed(h, hubs) && s.members.Keys == s.strands.Keys
    modifies h`mUsers
    ensures World(DoRemove(s, h.mID, userID), hubs, users)
  {
    hide World, AgreesHub, MapKnown, StrandKnown, DoRefused, DoRemove, OthersSame;
    SameKeys(s, hubs, users);
    HubInWorld(s, h, hubs, users);
    RemovalTouches(s, h.mID, userID);
    MapShrinks(h.mUsers, userID, users);
    h.CloseUser(userID, s);
    WorldAgain(Change(s, DoRemove(s, h.mID, userID), hubs, users, {h.mID}, {}));
  }

  method Dispatch(h: HubObject, c: Closure, hubs: Hubs, users: UserTable, ghost s: System)
    requires World(s, hubs, users) && Listed(h, hubs) && ClosureKnown(c, hubs, users) && TaskKnown(s, TaskOf(c))
    requires c.SendUser? || (c.CompleteRequest? && h.mID == BOOTH) ==> c.userID in h.mUsers
    requires s.members.Keys == s.strands.Keys
    modifies hubs.Values, users.Values
    ensures World(Run1(s, h.mID, TaskOf(c), old(h.mCanEnter)), hubs, users)
  {
    hide World, DoExecute, DoReply, DoRefused, DoSend, DoReceive, DoRemove;
    match c
    case RunEvent(cmd) => RunEvent(h, cmd, hubs, users, s);
    case ReplyRequest(userID, source) => RunReply(h, userID, source, hubs, users, s);
    case CompleteRequest(userID) => RunRefusal(h, userID, hubs, users, s);
    case SendUser(userID, target) => RunSend(h, userID, target, hubs, users, s);
    case ReceiveUser(userID, user) => RunReceive(h, userID, user, hubs, users, s);
    case CloseUser(userID) => RunRemoval(h, userID, hubs, users, s);
  }

  /** A Handle step takes the first task of the strand and runs it. */
  lemma HandleTakesFirst(s: System, h: HubId, joinable: bool)
    requires WellFormed(s) && Enabled(s, Step.Handle(h, joinable))
    ensures var task, popped := s.strands[h][0], Pop(s, h);
      && TaskKnown(popped, task) && popped.members == s.members && popped.members.Keys == popped.strands.Keys
      && (task.Send? ==> task.user in s.members[h] && s.members[h][task.user] in popped.users)
      && (task.Refused? ==> (h == BOOTH ==> task.user in s.members[h]))
      && Next(s, Step.Handle(h, joinable)) == Run1(popped, h, task, joinable)
  {
    PopKnown(s, h);
    var task := s.strands[h][0];
    if task.Send? {
      assert MemberKnown(s, h, task.user);
    }
  }

  /** One handler on the objects is one Handle step of the machine. */
  method HandleNext(h: HubObject, hubs: Hubs, users: UserTable, ghost s: System)
    requires World(s, hubs, users) && WellFormed(s) && Listed(h, hubs)
    requires h.mStrand != [] && Defined(s, h.mID)
    modifies hubs.Values, users.Values
    ensures World(Next(s, Step.Handle(h.mID, old(h.mCanEnter))), hubs, users)
  {
    hide World, WellFormed, Next, Run1, Defined, TaskKnown, ClosureKnown, Pop;
    HubInWorld(s, h, hubs, users);
    HandleTakesFirst(s, h.mID, h.mCanEnter);
    var c := Take(h, hubs, users, s);
    Dispatch(h, c, hubs, users, Pop(s, h.mID));
  }

  // ----- sessions -----

  /** Reading leaves maps, strands, pointers and flags alone, and remembers the hub that the user points at. */
  lemma SessionStepTouches(s: System, step: Step, u: UserId)
    requires WellFormed(s) && Enabled(s, step) && ((step.ReadCommand? || step.ReadHub?) && step.user == u)
    ensures OthersSame(s, Next(s, step), {}, {}) && u in s.users && u in Next(s, step).users
    ensures var hub, activity := s.users[u].hub, Next(s, step).users[u].activity;
      if hub.None? then activity.Idle?
      else if step.ReadHub? then activity == ClosingAt(hub.value)
      else activity.Posting? && activity.hub == hub.value
  {
  }

  /** A step on the machine that the objects do not show. */
  lemma SameWorld(s: System, t: System, hubs: Hubs, users: UserTable)
    requires World(s, hubs, users) && OthersSame(s, t, {}, {})
    ensures World(t, hubs, users)
  {
    forall k | k in hubs ensures HubKnown(t, hubs[k], hubs, users) {
      assert HubKnown(s, hubs[k], hubs, users) && SameHub(s, t, k);
    }
    forall u | u in users ensures UserPlaced(t, users[u], hubs) {
      assert UserPlaced(s, users[u], hubs) && SameUser(s, t, u);
    }
  }

  /** A session reads a command and then its user's hub pointer: no object changes, and the hub that was read is the one
      that the machine remembers. */
  method ReadCommand(user: UserObject, failed: bool, move: Option<HubId>, hubs: Hubs, users: UserTable, ghost s: System)
    returns (hub: HubObject?)
    requires World(s, hubs, users) && WellFormed(s) && Registered(user, users)
    requires Enabled(s, Step.ReadCommand(user.mID, failed, move))
    ensures World(Next(s, Step.ReadCommand(user.mID, failed, move)), hubs, users)
    ensures hub == user.mHubOrNull
    ensures var activity := Next(s, Step.ReadCommand(user.mID, failed, move)).users[user.mID].activity;
      if hub == null then activity.Idle? else Listed(hub, hubs) && activity.Posting? && activity.hub == hub.mID
  {
    hide World, AgreesHub, OthersSame, Next, WellFormed;
    hub := user.mHubOrNull;
    UserInWorld(s, user, hubs, users);
    SessionStepTouches(s, Step.ReadCommand(user.mID, failed, move), user.mID);
    SameWorld(s, Next(s, Step.ReadCommand(user.mID, failed, move)), hubs, users);
  }

  /** CloseConnection reads the hub pointer after it has set the flag. */
  method ReadHub(user: UserObject, hubs: Hubs, users: UserTable, ghost s: System) returns (hub: HubObject?)
    requires World(s, hubs, users) && WellFormed(s) && Registered(user, users) && Enabled(s, Step.ReadHub(user.mID))
    ensures World(Next(s, Step.ReadHub(user.mID)), hubs, users) && hub == user.mHubOrNull
    ensures var activity := Next(s, Step.ReadHub(user.mID)).users[user.mID].activity;
      if hub == null then activity.Idle? else Listed(hub, hubs) && activity == ClosingAt(hub.mID)
  {
    hide World, AgreesHub, OthersSame, Next, WellFormed;
    hub := user.mHubOrNull;
    UserInWorld(s, user, hubs, users);
    SessionStepTouches(s, Step.ReadHub(user.mID), user.mID);
    SameWorld(s, Next(s, Step.ReadHub(user.mID)), hubs, users);
  }

  function SetIdle(s: System, u: UserId): System
    requires u in s.users
  {
    SetUser(s, u, s.users[u].(activity := Idle))
  }

  /** Posting goes to the hub that was read and nowhere else. */
  lemma PostTouches(s: System, t: System, u: UserId, h: HubId, posted: seq<Task>)
    requires s.members.Keys == s.strands.Keys && u in s.users && h in s.strands && |posted| <= 1
    requires t == if posted == [] then SetIdle(s, u) else Post(SetIdle(s, u), h, posted[0])
    ensures OthersSame(s, t, {h}, {})
  {
  }

  /** A session's activity is no part of what a hub agrees with. */
  lemma IdleAgrees(s: System, u: UserId, h: HubObject)
    requires AgreesHub(s, h) && u in s.users
    ensures AgreesHub(SetIdle(s, u), h)
  {
  }

  /** The end of RequestAddEvent, for the hub that was read. */
  method PostCommand(user: UserObject, cmd: Command, hub: HubObject, hubs: Hubs, users: UserTable, ghost s: System)
    requires World(s, hubs, users) && WellFormed(s) && Registered(user, users) && Listed(hub, hubs)
    requires user.mID in s.users && s.users[user.mID].activity == Posting(cmd, hub.mID)
    requires Enabled(s, Step.PostCommand(user.mID))
    modifies hub
    ensures World(Next(s, Step.PostCommand(user.mID)), hubs, users)
  {
    ghost var t := Next(s, Step.PostCommand(user.mID));
    ghost var idle := SetIdle(s, user.mID);
    assert t == if cmd.failed then idle else Post(idle, hub.mID, Execute(cmd));
    PostCommandTo(user, cmd, hub, hubs, users, s, t);
  }

  method PostCommandTo(user: UserObject, cmd: Command, hub: HubObject, hubs: Hubs, users: UserTable, ghost s: System,
                       ghost t: System)
    requires World(s, hubs, users) && s.members.Keys == s.strands.Keys && Registered(user, users) && Listed(hub, hubs)
    requires user.mID in s.users && hub.mID in s.strands
    requires t == if cmd.failed then SetIdle(s, user.mID) else Post(SetIdle(s, user.mID), hub.mID, Execute(cmd))
    modifies hub
    ensures World(t, hubs, users)
  {
    hide World, AgreesHub, MapKnown, StrandKnown, SetIdle, Post, OthersSame;
    SameKeys(s, hubs, users);
    HubInWorld(s, hub, hubs, users);
    PostTouches(s, t, user.mID, hub.mID, if cmd.failed then [] else [Execute(cmd)]);
    IdleAgrees(s, user.mID, hub);
    StrandGrows(hub.mStrand, Closure.RunEvent(cmd), hubs, users);
    ghost var was := hub.mStrand;
    user.RequestAddEvent(cmd, hub, SetIdle(s, user.mID));
    assert cmd.failed ==> hub.mStrand == was;
    WorldAgain(Change(s, t, hubs, users, {hub.mID}, {}));
  }

  /** The end of CloseConnection, for the hub that was read. */
  method PostRemoval(user: UserObject, hub: HubObject, hubs: Hubs, users: UserTable, ghost s: System)
    requires World(s, hubs, users) && WellFormed(s) && Registered(user, users) && Listed(hub, hubs)
    requires user.mID in s.users && s.users[user.mID].activity == ClosingAt(hub.mID)
    requires Enabled(s, Step.PostRemoval(user.mID))
    modifies hub
    ensures World(Next(s, Step.PostRemoval(user.mID)), hubs, users)
  {
    ghost var t := Next(s, Step.PostRemoval(user.mID));
    assert t == Post(SetIdle(s, user.mID), hub.mID, Task.Remove(user.mID));
    PostRemovalTo(user, hub, hubs, users, s, t);
  }

  method PostRemovalTo(user: UserObject, hub: HubObject, hubs: Hubs, users: UserTable, ghost s: System, ghost t: System)
    requires World(s, hubs, users) && s.members.Keys == s.strands.Keys && Registered(user, users) && Listed(hub, hubs)
    requires user.mID in s.users && hub.mID in s.strands
    requires t == Post(SetIdle(s, user.mID), hub.mID, Task.Remove(user.mID))
    modifies hub
    ensures World(t, hubs, users)
  {
    hide World, AgreesHub, MapKnown, StrandKnown, SetIdle, Post, OthersSame;
    SameKeys(s, hubs, users);
    HubInWorld(s, hub, hubs, users);
    PostTouches(s, t, user.mID, hub.mID, [Task.Remove(user.mID)]);
    IdleAgrees(s, user.mID, hub);
    StrandGrows(hub.mStrand, Closure.CloseUser(user.mID), hubs, users);
    user.DispatchRemoval(hub, SetIdle(s, user.mID));
    WorldAgain(Change(s, t, hubs, users, {hub.mID}, {}));
  }

  lemma SetClosedTouches(s: System, u: UserId)
    requires WellFormed(s) && Enabled(s, Step.SetClosed(u))
    ensures var t := Next(s, Step.SetClosed(u));
      && u in s.users && t == SetUser(s, u, s.users[u].(closed := true, activity := Closing)) 
      && OthersSame(s, t, {}, {u})
  {
  }

  /** The start of CloseConnection. */
  method SetClosed(user: UserObject, hubs: Hubs, users: UserTable, ghost s: System)
    requires World(s, hubs, users) && WellFormed(s) && Registered(user, users) && Enabled(s, Step.SetClosed(user.mID))
    modifies user`mIsConnectionClosed
    ensures World(Next(s, Step.SetClosed(user.mID)), hubs, users)
  {
    hide World, AgreesHub, AgreesUser, WellFormed, Enabled, Next, SetUser, OthersSame;
    SameKeys(s, hubs, users);
    SetClosedTouches(s, user.mID);
    UserInWorld(s, user, hubs, users);
    user.SetClosed(s);
    WorldAgain(Change(s, Next(s, Step.SetClosed(user.mID)), hubs, users, {}, {user.mID}));
  }

  lemma AcceptTouches(s: System)
    requires WellFormed(s)
    ensures var t := Next(s, Step.Accept);
      && s.acceptingID !in s.users && t.strands.Keys == s.strands.Keys && t.users.Keys == s.users.Keys + {s.acceptingID}
      && (forall k :: k in s.strands && k != BOOTH ==> SameHub(s, t, k))
      && (forall v :: v in s.users ==> SameUser(s, t, v))
  {
    assert s.acceptingID in s.users ==> UserKnown(s, s.acceptingID);
  }

  /** More users in the table do not change who is known. */
  lemma MoreUsers(m: map<UserId, UserObject>, cs: seq<Closure>, hubs: Hubs, users: UserTable, id: UserId,
                  user: UserObject)
    requires MapKnown(m, users) && StrandKnown(cs, hubs, users) && id !in users
    ensures MapKnown(m, users[id := user]) && StrandKnown(cs, hubs, users[id := user])
  {
    forall i | 0 <= i < |cs| ensures ClosureKnown(cs[i], hubs, users[id := user]) {
      assert ClosureKnown(cs[i], hubs, users);
    }
  }

  /** Hubs other than the booth, and users other than the new one, before the connection is accepted. */
  lemma OthersStayOnAccept(s: System, t: System, hubs: Hubs, users: UserTable, user: UserObject)
    requires World(s, hubs, users) && user.mID !in users
    requires forall k :: k in s.strands && k != BOOTH ==> SameHub(s, t, k)
    requires forall v :: v in s.users ==> SameUser(s, t, v)
    ensures forall k :: k in hubs && k != BOOTH ==> HubKnown(t, hubs[k], hubs, users[user.mID := user])
    ensures forall u :: u in users ==> UserPlaced(t, users[u], hubs)
  {
    forall k | k in hubs && k != BOOTH ensures HubKnown(t, hubs[k], hubs, users[user.mID := user]) {
      assert HubKnown(s, hubs[k], hubs, users) && SameHub(s, t, k);
      MoreUsers(hubs[k].mUsers, hubs[k].mStrand, hubs, users, user.mID, user);
    }
    forall u | u in users ensures UserPlaced(t, users[u], hubs) {
      assert UserPlaced(s, users[u], hubs) && SameUser(s, t, u);
    }
  }

  /** A connection is accepted: the user that was waiting for it joins the table. */
  method Accept(booth: TicketBooth, hubs: Hubs, users: UserTable, ghost s: System) returns (more: UserTable)
    requires World(s, hubs, users) && WellFormed(s) && booth.Agrees(s) && Listed(booth.hub, hubs)
    requires booth.mAccepting.mHubOrNull == booth.hub && !booth.mAccepting.mIsConnectionClosed
    modifies booth, booth.hub, booth.mAccepting
    ensures more == users[s.acceptingID := old(booth.mAccepting)] && booth.Agrees(Next(s, Step.Accept))
    ensures World(Next(s, Step.Accept), hubs, more)
    ensures booth.mAccepting.mHubOrNull == booth.hub && !booth.mAccepting.mIsConnectionClosed
  {
    hide World, HubKnown, UserPlaced, Next, AgreesHub, AgreesUser, MapKnown, StrandKnown, WellFormed, SameHub, SameUser;
    var user := booth.mAccepting;
    more := users[user.mID := user];
    SameKeys(s, hubs, users);
    HubInWorld(s, booth.hub, hubs, users);
    ghost var t := Next(s, Step.Accept);
    AcceptTouches(s);
    OthersStayOnAccept(s, t, hubs, users, user);
    MoreUsers(booth.hub.mUsers, booth.hub.mStrand, hubs, users, user.mID, user);
    MapGrows(booth.hub.mUsers, user, more);
    booth.AcceptConnection(false, s);
    HubStands(t, booth.hub, hubs, more);
    UserStands(t, user, hubs);
    WorldFromParts(t, hubs, more);
  }

  lemma WorldFromParts(t: System, hubs: Hubs, users: UserTable)
    requires hubs.Keys == t.strands.Keys && users.Keys == t.users.Keys
    requires forall h :: h in hubs ==> hubs[h].mID == h && HubKnown(t, hubs[h], hubs, users)
    requires forall u :: u in users ==> users[u].mID == u && UserPlaced(t, users[u], hubs)
    ensures World(t, hubs, users)
  {
  }
}
