/** What every run of the hubs keeps: one owner per user, in-order execution, and closed users that stay out. */
module HubSafety {
  import opened Common
  import opened HubProtocol

  predicate At(q: Strands, h: HubId, i: int) {
    h in q && 0 <= i < |q[h]|
  }

  /** Position `i` of strand `h` holds the closure that carries user `u` in flight. */
  predicate Carries(q: Strands, h: HubId, i: int, u: UserId) {
    At(q, h, i) && q[h][i].Receive? && q[h][i].user == u
  }

  /** Position `i` of strand `h` holds a command of user `u`. */
  predicate Queued(q: Strands, h: HubId, i: int, u: UserId) {
    At(q, h, i) && q[h][i].Execute? && q[h][i].cmd.owner == u
  }

  function SeqAt(q: Strands, h: HubId, i: int): nat
    requires At(q, h, i) && q[h][i].Execute?
  {
    q[h][i].cmd.seqNo
  }

  /** A user is carried by at most one closure. */
  ghost predicate OneCarrier(q: Strands) {
    forall h, i, h', i', u :: Carries(q, h, i, u) && Carries(q, h', i', u) ==> h == h' && i == i'
  }

  /** The commands of one user in one strand are queued in sending order. */
  ghost predicate QueuedInOrder(q: Strands) {
    forall h, i, j, u :: Queued(q, h, i, u) && Queued(q, h, j, u) && i < j ==> SeqAt(q, h, i) < SeqAt(q, h, j)
  }

  /** A command being posted comes after all its user's queued commands. */
  ghost predicate PostedLast(q: Strands, us: Users) {
    forall h, i, u :: Queued(q, h, i, u) && u in us && us[u].activity.Posting? ==>
      SeqAt(q, h, i) < us[u].activity.cmd.seqNo
  }

  ghost predicate Absent(m: Members, h: HubId, u: UserId) {
    h in m ==> u !in m[h]
  }

  ghost predicate NotCarriedBefore(q: Strands, h: HubId, i: int, u: UserId) {
    forall j :: j < i ==> !Carries(q, h, j, u)
  }

  /** A queued command that has been overtaken will never run: its user is not in this hub, and no closure ahead of it
      brings the user in. */
  ghost predicate StaleIsDead(q: Strands, m: Members, us: Users) {
    forall h, i, u :: Queued(q, h, i, u) && u in us && SeqAt(q, h, i) < us[u].done ==>
      Absent(m, h, u) && NotCarriedBefore(q, h, i, u)
  }

  predicate RemovalQueued(q: Strands, h: HubId, u: UserId) {
    h in q && Task.Remove(u) in q[h]
  }

  predicate IsMember(m: Members, h: HubId, u: UserId) {
    h in m && u in m[h]
  }

  /** A closed user still in a hub's map is about to be removed: the closer has not read the hub pointer yet, has read
      this hub, or has queued a removal on this hub's strand. */
  ghost predicate ClosingIsPending(q: Strands, m: Members, us: Users) {
    forall h, u :: IsMember(m, h, u) && u in us && us[u].closed ==>
      us[u].activity.Closing? || us[u].activity == ClosingAt(h) || RemovalQueued(q, h, u)
  }

  /** The log holds each user's commands in sending order, only sent ones, all before `done`. */
  ghost predicate LogInOrder(log: seq<Entry>, us: Users) {
    && (forall i :: 0 <= i < |log| ==> EntryKnown(us, log[i]))
    && (forall i, j :: 0 <= i < j < |log| && log[i].cmd.owner == log[j].cmd.owner ==>
          log[i].cmd.seqNo < log[j].cmd.seqNo)
  }

  predicate EntryKnown(us: Users, e: Entry) {
    var c := e.cmd;
    c.owner in us && c.seqNo < us[c.owner].done && c.seqNo < |us[c.owner].sent| && us[c.owner].sent[c.seqNo] == c
  }

  ghost predicate Safe(s: System) {
    && WellFormed(s) && OneCarrier(s.strands) && QueuedInOrder(s.strands) && PostedLast(s.strands, s.users)
    && StaleIsDead(s.strands, s.members, s.users) && ClosingIsPending(s.strands, s.members, s.users)
    && LogInOrder(s.log, s.users)
  }

  // ----- queues -----

  function Appended(q: Strands, h: HubId, t: Task): Strands
    requires h in q
  {
    q[h := q[h] + [t]]
  }

  function Popped(q: Strands, h: HubId): Strands
    requires h in q && q[h] != []
  {
    q[h := q[h][1..]]
  }

  /** The queue invariants together. */
  ghost predicate QueuesSafe(q: Strands, m: Members, us: Users) {
    OneCarrier(q) && QueuedInOrder(q) && PostedLast(q, us) && StaleIsDead(q, m, us)
  }

  /** Where a position of the queues after a pop was before it. */
  function Back(h: HubId, k: HubId, i: int): int {
    if k == h then i + 1 else i
  }

  lemma PopKeepsOrder(q: Strands, m: Members, us: Users, h: HubId)
    requires h in q && q[h] != [] && OneCarrier(q) && QueuedInOrder(q) && PostedLast(q, us)
    ensures OneCarrier(Popped(q, h)) && QueuedInOrder(Popped(q, h)) && PostedLast(Popped(q, h), us)
  {
    var p := Popped(q, h);
    forall k, i, k', i', u | Carries(p, k, i, u) && Carries(p, k', i', u) ensures k == k' && i == i' {
      assert Carries(q, k, Back(h, k, i), u) && Carries(q, k', Back(h, k', i'), u);
    }
    forall k, i, j, u | Queued(p, k, i, u) && Queued(p, k, j, u) && i < j ensures SeqAt(p, k, i) < SeqAt(p, k, j) {
      assert Queued(q, k, Back(h, k, i), u) && Queued(q, k, Back(h, k, j), u);
    }
    forall k, i, u | Queued(p, k, i, u) && u in us && us[u].activity.Posting?
      ensures SeqAt(p, k, i) < us[u].activity.cmd.seqNo
    {
      assert Queued(q, k, Back(h, k, i), u);
    }
  }

  lemma PopKeepsStale(q: Strands, m: Members, us: Users, h: HubId)
    requires h in q && q[h] != [] && StaleIsDead(q, m, us)
    ensures StaleIsDead(Popped(q, h), m, us)
  {
    var p := Popped(q, h);
    forall k, i, u | Queued(p, k, i, u) && u in us && SeqAt(p, k, i) < us[u].done
      ensures Absent(m, k, u) && NotCarriedBefore(p, k, i, u)
    {
      assert Queued(q, k, Back(h, k, i), u);
      forall j | j < i ensures !Carries(p, k, j, u) {
        if Carries(p, k, j, u) {
          assert Carries(q, k, Back(h, k, j), u);
        }
      }
    }
  }

  /** Popping a strand keeps the queue invariants. */
  lemma PopKeepsQueues(q: Strands, m: Members, us: Users, h: HubId)
    requires h in q && q[h] != [] && QueuesSafe(q, m, us)
    ensures QueuesSafe(Popped(q, h), m, us)
  {
    PopKeepsOrder(q, m, us, h);
    PopKeepsStale(q, m, us, h);
  }

  /** Appending a task that neither runs a command nor carries a user keeps the queue invariants. */
  lemma AppendKeepsQueues(q: Strands, m: Members, us: Users, h: HubId, t: Task)
    requires h in q && QueuesSafe(q, m, us) && !t.Execute? && !t.Receive?
    ensures QueuesSafe(Appended(q, h, t), m, us)
  {
    var p := Appended(q, h, t);
    forall k, i, u | Carries(p, k, i, u) ensures Carries(q, k, i, u) {
    }
    forall k, i, u | Queued(p, k, i, u) ensures Queued(q, k, i, u) && SeqAt(p, k, i) == SeqAt(q, k, i) {
    }
  }

  /** Appending the command its session is posting: it is newer than everything queued or executed for that user. */
  lemma AppendCommand(q: Strands, m: Members, us: Users, h: HubId, c: Command, us': Users)
    requires h in q && QueuesSafe(q, m, us) && c.owner in us
    requires us[c.owner].activity.Posting? && us[c.owner].activity.cmd == c && us[c.owner].done <= c.seqNo
    requires us' == us[c.owner := us[c.owner].(activity := Idle)]
    ensures QueuesSafe(Appended(q, h, Execute(c)), m, us')
  {
    var p := Appended(q, h, Execute(c));
    forall k, i, u | Carries(p, k, i, u) ensures Carries(q, k, i, u) {
    }
    forall k, i, u | Queued(p, k, i, u)
      ensures (Queued(q, k, i, u) && SeqAt(p, k, i) == SeqAt(q, k, i)) || (k == h && i == |q[h]| && u == c.owner)
    {
    }
  }

  /** Appending the closure that carries a user who was in no queue. */
  lemma AppendCarrier(q: Strands, m: Members, us: Users, h: HubId, u: UserId)
    requires h in q && QueuesSafe(q, m, us) && forall k, i :: !Carries(q, k, i, u)
    ensures QueuesSafe(Appended(q, h, Receive(u, u)), m, us)
  {
    var p := Appended(q, h, Receive(u, u));
    forall k, i, v | Carries(p, k, i, v) ensures Carries(q, k, i, v) || (k == h && i == |q[h]| && v == u) {
    }
    forall k, i, v | Queued(p, k, i, v) ensures Queued(q, k, i, v) && SeqAt(p, k, i) == SeqAt(q, k, i) {
    }
    forall k, i, v | Queued(p, k, i, v) && v in us && SeqAt(p, k, i) < us[v].done
      ensures Absent(m, k, v) && NotCarriedBefore(p, k, i, v)
    {
      assert Queued(q, k, i, v);
      forall j | j < i ensures !Carries(p, k, j, v) {
        assert Carries(p, k, j, v) ==> Carries(q, k, j, v);
      }
    }
  }

  // ----- handlers -----

  /** Everything but the closing invariant, which only CloseConnection's closure touches. */
  ghost predicate Sound(s: System) {
    WellFormed(s) && QueuesSafe(s.strands, s.members, s.users) && LogInOrder(s.log, s.users)
  }

  lemma PopSound(s: System, h: HubId)
    requires Sound(s) && h in s.strands && s.strands[h] != []
    ensures Sound(Pop(s, h)) && Pop(s, h).strands == Popped(s.strands, h)
  {
    var t := Pop(s, h);
    PopKeepsQueues(s.strands, s.members, s.users, h);
    forall k, i | At(t.strands, k, i) ensures TaskKnown(t, t.strands[k][i]) {
      assert TaskKnown(s, s.strands[k][Back(h, k, i)]);
    }
    forall k, v | k in s.members && v in s.members[k] ensures MemberKnown(t, k, v) {
      assert MemberKnown(s, k, v);
    }
    forall v | v in s.users ensures UserKnown(t, v) {
      assert UserKnown(s, v);
    }
  }

  lemma PostWellFormed(s: System, h: HubId, t: Task)
    requires WellFormed(s) && h in s.strands && TaskKnown(s, t)
    ensures WellFormed(Post(s, h, t))
  {
    var p := Post(s, h, t);
    forall k, i | At(p.strands, k, i) ensures TaskKnown(p, p.strands[k][i]) {
      if At(s.strands, k, i) {
        assert TaskKnown(s, s.strands[k][i]);
      }
    }
    forall k, v | k in s.members && v in s.members[k] ensures MemberKnown(p, k, v) {
      assert MemberKnown(s, k, v);
    }
    forall v | v in s.users ensures UserKnown(p, v) {
      assert UserKnown(s, v);
    }
  }

  /** Posting a task about known users that neither runs a command nor carries a user. */
  lemma PostSound(s: System, h: HubId, t: Task)
    requires Sound(s) && h in s.strands && TaskKnown(s, t) && !t.Execute? && !t.Receive?
    ensures Sound(Post(s, h, t))
  {
    PostWellFormed(s, h, t);
    AppendKeepsQueues(s.strands, s.members, s.users, h, t);
    hide WellFormed, LogInOrder, QueuesSafe, TaskKnown;
    assert Post(s, h, t).strands == Appended(s.strands, h, t);
  }

  lemma MemberIsHere(s: System, h: HubId, u: UserId)
    requires WellFormed(s) && IsMember(s.members, h, u)
    ensures u in s.users && s.users[u].hub == Some(h) && s.members[h][u] == u
    ensures forall k :: IsMember(s.members, k, u) ==> k == h
    ensures forall k, i :: !Carries(s.strands, k, i, u)
  {
    assert MemberKnown(s, h, u);
    forall k | IsMember(s.members, k, u) ensures k == h {
      assert MemberKnown(s, k, u);
    }
    forall k, i ensures !Carries(s.strands, k, i, u) {
      assert At(s.strands, k, i) ==> TaskKnown(s, s.strands[k][i]);
    }
  }

  /** Taking a user out of a hub's map. */
  lemma DropMemberSound(s: System, h: HubId, u: UserId)
    requires Sound(s) && h in s.members
    ensures Sound(SetMembers(s, h, s.members[h] - {u}))
  {
    var t := SetMembers(s, h, s.members[h] - {u});
    forall k, v | k in t.members && v in t.members[k] ensures MemberKnown(t, k, v) {
      assert MemberKnown(s, k, v);
    }
    forall k, i | At(t.strands, k, i) ensures TaskKnown(t, t.strands[k][i]) {
      assert TaskKnown(s, s.strands[k][i]);
    }
    forall v | v in t.users ensures UserKnown(t, v) {
      assert UserKnown(s, v);
    }
    forall k, v | Absent(s.members, k, v) ensures Absent(t.members, k, v) {
    }
  }

  /** A command at the head of the strand of the hub its user is in has not been overtaken. */
  lemma HeadIsFresh(s: System, h: HubId, c: Command)
    requires Sound(s) && At(s.strands, h, 0) && s.strands[h][0] == Execute(c) && IsMember(s.members, h, c.owner)
    ensures c.owner in s.users && s.users[c.owner].done <= c.seqNo
    ensures s.users[c.owner].activity.Posting? ==> c.seqNo < s.users[c.owner].activity.cmd.seqNo
    ensures forall i :: Queued(Popped(s.strands, h), h, i, c.owner) ==> c.seqNo < SeqAt(Popped(s.strands, h), h, i)
  {
    assert TaskKnown(s, s.strands[h][0]);
    assert Queued(s.strands, h, 0, c.owner);
    forall i | Queued(Popped(s.strands, h), h, i, c.owner)
      ensures c.seqNo < SeqAt(Popped(s.strands, h), h, i)
    {
      assert Queued(s.strands, h, i + 1, c.owner);
    }
  }

  /** Running a command: the log and the user's counter move on together. */
  lemma LogCommandSound(s: System, h: HubId, c: Command)
    requires Sound(s) && IsMember(s.members, h, c.owner) && TaskKnown(s, Execute(c))
    requires s.users[c.owner].done <= c.seqNo
    requires s.users[c.owner].activity.Posting? ==> c.seqNo < s.users[c.owner].activity.cmd.seqNo
    requires forall i :: Queued(s.strands, h, i, c.owner) ==> c.seqNo < SeqAt(s.strands, h, i)
    ensures var user := s.users[c.owner].(done := c.seqNo + 1);
      Sound(SetUser(s, c.owner, user).(log := s.log + [Entry(c, h)]))
  {
    var u := c.owner;
    var t := SetUser(s, u, s.users[u].(done := c.seqNo + 1)).(log := s.log + [Entry(c, h)]);
    MemberIsHere(s, h, u);
    assert UserKnown(s, u);
    forall k, i | At(t.strands, k, i) ensures TaskKnown(t, t.strands[k][i]) {
      assert TaskKnown(s, s.strands[k][i]);
    }
    forall k, v | k in t.members && v in t.members[k] ensures MemberKnown(t, k, v) {
      assert MemberKnown(s, k, v);
    }
    forall v | v in t.users ensures UserKnown(t, v) {
      assert UserKnown(s, v);
    }
    forall k, i, v | Queued(t.strands, k, i, v) && v in t.users && SeqAt(t.strands, k, i) < t.users[v].done
      ensures Absent(t.members, k, v) && NotCarriedBefore(t.strands, k, i, v)
    {
      if v == u {
        assert k != h;
        assert Absent(t.members, k, v) by {
          assert IsMember(s.members, k, v) ==> k == h;
        }
      }
    }
    LogGrows(s.log, s.users, t.users, c, h);
  }

  lemma LogGrows(log: seq<Entry>, us: Users, us': Users, c: Command, h: HubId)
    requires LogInOrder(log, us) && c.owner in us && us[c.owner].done <= c.seqNo < |us[c.owner].sent|
    requires us[c.owner].sent[c.seqNo] == c
    requires us' == us[c.owner := us[c.owner].(done := c.seqNo + 1)]
    ensures LogInOrder(log + [Entry(c, h)], us')
  {
    forall i | 0 <= i < |log| ensures EntryKnown(us', log[i]) {
      assert EntryKnown(us, log[i]);
    }
    forall i | 0 <= i < |log| && log[i].cmd.owner == c.owner ensures log[i].cmd.seqNo < c.seqNo {
      assert EntryKnown(us, log[i]);
    }
  }

  lemma SendWellFormed(s: System, h: HubId, u: UserId, target: HubId)
    requires WellFormed(s) && IsMember(s.members, h, u) && target in s.strands && s.members[h][u] == u && u in s.users
    ensures WellFormed(DoSend(s, h, u, target))
  {
    var t := DoSend(s, h, u, target);
    forall k, i | At(t.strands, k, i) ensures TaskKnown(t, t.strands[k][i]) {
      if At(s.strands, k, i) {
        assert TaskKnown(s, s.strands[k][i]);
      }
    }
    assert MemberKnown(s, h, u);
    forall k, v | k in t.members && v in t.members[k] ensures MemberKnown(t, k, v) {
      assert MemberKnown(s, k, v);
    }
    forall v | v in t.users ensures UserKnown(t, v) {
      assert UserKnown(s, v);
    }
  }

  /** Queue invariants when users leave maps and pointers change. */
  lemma LeavingKeepsQueues(q: Strands, m: Members, us: Users, h: HubId, u: UserId, us': Users)
    requires QueuesSafe(q, m, us) && h in m && u in us && u in us' && us' == us[u := us[u].(hub := us'[u].hub)]
    ensures QueuesSafe(q, m[h := m[h] - {u}], us')
  {
    hide NotCarriedBefore, OneCarrier, QueuedInOrder;
  }

  /** sendUser: the user leaves the map and is carried by exactly one closure. */
  lemma SendSound(s: System, h: HubId, u: UserId, target: HubId)
    requires Sound(s) && IsMember(s.members, h, u) && target in s.strands
    requires s.members[h][u] in s.users
    ensures Sound(DoSend(s, h, u, target))
  {
    MemberIsHere(s, h, u);
    SendWellFormed(s, h, u, target);
    hide WellFormed, QueuesSafe, LogInOrder, Carries;
    var t := DoSend(s, h, u, target);
    LeavingKeepsQueues(s.strands, s.members, s.users, h, u, t.users);
    AppendCarrier(s.strands, t.members, t.users, target, u);
    assert t.strands == Appended(s.strands, target, Receive(u, u));
    LogKept(s.log, s.users, t.users);
  }

  lemma LogKept(log: seq<Entry>, us: Users, us': Users)
    requires LogInOrder(log, us)
    requires forall u :: u in us ==> u in us' && us'[u].done == us[u].done && us[u].sent <= us'[u].sent
    ensures LogInOrder(log, us')
  {
    forall i | 0 <= i < |log| ensures EntryKnown(us', log[i]) {
      assert EntryKnown(us, log[i]);
    }
  }

  lemma PointsHere(s: System, u: UserId)
    requires WellFormed(s)
    ensures forall h: HubId :: IsMember(s.members, h, u) ==> u in s.users && s.users[u].hub == Some(h)
  {
    forall h | h in s.members && u in s.members[h] ensures u in s.users && s.users[u].hub == Some(h) {
      assert MemberKnown(s, h, u);
    }
  }

  lemma ReceiveWellFormed(s: System, h: HubId, u: UserId)
    requires WellFormed(s) && h in s.members && u in s.users && s.users[u].hub.None?
    requires forall k, i :: !Carries(s.strands, k, i, u)
    ensures WellFormed(DoReceive(s, h, u))
  {
    var t := DoReceive(s, h, u);
    forall k, i | At(t.strands, k, i) ensures TaskKnown(t, t.strands[k][i]) {
      assert TaskKnown(s, s.strands[k][i]);
      assert !Carries(s.strands, k, i, u);
    }
    PointsHere(s, u);
    forall k, v | k in t.members && v in t.members[k] ensures MemberKnown(t, k, v) {
      assert v != u ==> MemberKnown(s, k, v);
      assert !IsMember(s.members, k, u);
    }
    forall v | v in t.users ensures UserKnown(t, v) {
      assert UserKnown(s, v);
    }
  }

  /** receiveUser for an open connection: the only carrier has been taken off the queue, so the user has one owner. */
  lemma ReceiveSound(s: System, h: HubId, u: UserId)
    requires Sound(s) && h in s.members && u in s.users && s.users[u].hub.None?
    requires forall k, i :: !Carries(s.strands, k, i, u)
    requires forall i :: Queued(s.strands, h, i, u) ==> s.users[u].done <= SeqAt(s.strands, h, i)
    ensures Sound(DoReceive(s, h, u))
  {
    ReceiveWellFormed(s, h, u);
    var t := DoReceive(s, h, u);
    LogKept(s.log, s.users, t.users);
    hide WellFormed, LogInOrder, OneCarrier, QueuedInOrder;
    forall k, i, v | Queued(t.strands, k, i, v) && v in t.users && SeqAt(t.strands, k, i) < t.users[v].done
      ensures Absent(t.members, k, v) && NotCarriedBefore(t.strands, k, i, v)
    {
      assert Absent(s.members, k, v);
    }
  }

  // ----- sessions -----

  /** A step of the sessions: maps, strands and the log stay, and users only send more and change their activity. */
  ghost predicate SessionMove(s: System, t: System) {
    && t.members == s.members && t.strands == s.strands && t.log == s.log
    && t.nextUserID == s.nextUserID && t.acceptingID == s.acceptingID && t.users.Keys == s.users.Keys
    && (forall v :: v in s.users ==>
          t.users[v].hub == s.users[v].hub && t.users[v].done == s.users[v].done && s.users[v].sent <= t.users[v].sent)
  }

  /** A command being posted is newer than the queued ones. */
  ghost predicate NewerThanQueued(q: Strands, us: Users, v: UserId)
    requires v in us
  {
    us[v].activity.Posting? ==>
      forall h, i :: Queued(q, h, i, v) ==> SeqAt(q, h, i) < us[v].activity.cmd.seqNo
  }

  lemma SessionWellFormed(s: System, t: System)
    requires WellFormed(s) && SessionMove(s, t) && forall v :: v in t.users ==> UserKnown(t, v)
    ensures WellFormed(t)
  {
    forall k, i | At(s.strands, k, i) ensures TaskKnown(t, s.strands[k][i]) {
      assert TaskKnown(s, s.strands[k][i]);
    }
    forall k, v | k in t.members && v in t.members[k] ensures MemberKnown(t, k, v) {
      assert MemberKnown(s, k, v);
    }
  }

  lemma SessionSound(s: System, t: System)
    requires Sound(s) && SessionMove(s, t)
    requires forall v :: v in t.users ==> UserKnown(t, v) && NewerThanQueued(s.strands, t.users, v)
    ensures Sound(t)
  {
    SessionWellFormed(s, t);
    LogKept(s.log, s.users, t.users);
    hide WellFormed, LogInOrder, UserKnown, Absent, NotCarriedBefore, OneCarrier, QueuedInOrder;
  }

  lemma SafeIsSound(s: System)
    ensures Safe(s) <==> Sound(s) && ClosingIsPending(s.strands, s.members, s.users)
  {
  }

  /** Other users' sessions are as they were. */
  lemma OthersKnown(s: System, t: System, u: UserId)
    requires Sound(s) && SessionMove(s, t) && u in s.users
    requires forall v :: v in s.users && v != u ==> t.users[v] == s.users[v]
    ensures forall v :: v in t.users && v != u ==> UserKnown(t, v) && NewerThanQueued(s.strands, t.users, v)
  {
    hide OneCarrier, QueuedInOrder, StaleIsDead, LogInOrder, TaskKnown, MemberKnown;
    forall v | v in t.users && v != u ensures UserKnown(t, v) && NewerThanQueued(s.strands, t.users, v) {
      assert UserKnown(s, v);
    }
  }

  /** A session that neither posts nor reads anything goes on to another activity. */
  lemma ActivitySound(s: System, u: UserId, user: User)
    requires Sound(s) && u in s.users && user == s.users[u].(closed := user.closed, activity := user.activity)
    requires !user.activity.Posting? && (user.activity.ClosingAt? ==> user.activity.hub in s.strands)
    ensures Sound(SetUser(s, u, user))
  {
    assert UserKnown(s, u);
    hide Sound, WellFormed;
    OthersKnown(s, SetUser(s, u, user), u);
    SessionSound(s, SetUser(s, u, user));
  }

  lemma IdleSound(s: System, u: UserId)
    requires Sound(s) && u in s.users
    ensures Sound(SetUser(s, u, s.users[u].(activity := Idle)))
  {
    ActivitySound(s, u, s.users[u].(activity := Idle));
  }

  lemma AcceptWellFormed(s: System)
    requires WellFormed(s) && Enabled(s, Accept)
    ensures WellFormed(Next(s, Accept))
  {
    var t := Next(s, Accept);
    assert t.strands == s.strands;
    forall h, i | At(s.strands, h, i) ensures TaskKnown(t, s.strands[h][i]) {
      assert TaskKnown(s, s.strands[h][i]);
    }
  }

  /** The accepted user is in no queue. */
  lemma AcceptQueues(s: System)
    requires Sound(s)
    ensures var t := Next(s, Accept);
      QueuesSafe(t.strands, t.members, t.users) && LogInOrder(t.log, t.users)
  {
    var t := Next(s, Accept);
    assert t.strands == s.strands;
    forall h, i | At(s.strands, h, i) ensures TaskKnown(s, s.strands[h][i]) {
    }
    assert s.acceptingID in s.users ==> UserKnown(s, s.acceptingID);
    LogKept(s.log, s.users, t.users);
    hide WellFormed, LogInOrder, OneCarrier, QueuedInOrder;
  }

  lemma AcceptSafe(s: System)
    requires Safe(s) && Enabled(s, Accept)
    ensures Safe(Next(s, Accept))
  {
    AcceptWellFormed(s);
    AcceptQueues(s);
    hide QueuesSafe, LogInOrder;
  }

  lemma ReadCommandSafe(s: System, u: UserId, failed: bool, move: Option<HubId>)
    requires Safe(s) && Enabled(s, ReadCommand(u, failed, move))
    ensures Safe(Next(s, ReadCommand(u, failed, move)))
  {
    var t := Next(s, ReadCommand(u, failed, move));
    SafeIsSound(s);
    SafeIsSound(t);
    assert UserKnown(s, u);
    forall h, i | Queued(s.strands, h, i, u) ensures SeqAt(s.strands, h, i) < |s.users[u].sent| {
      assert TaskKnown(s, s.strands[h][i]);
    }
    hide Safe, Sound, WellFormed;
    OthersKnown(s, t, u);
    SessionSound(s, t);
  }

  lemma SetClosedSafe(s: System, u: UserId)
    requires Safe(s) && Enabled(s, SetClosed(u))
    ensures Safe(Next(s, SetClosed(u)))
  {
    var t := Next(s, SetClosed(u));
    SafeIsSound(s);
    SafeIsSound(t);
    hide Safe, Sound;
    ActivitySound(s, u, t.users[u]);
  }

  lemma ReadHubSafe(s: System, u: UserId)
    requires Safe(s) && Enabled(s, ReadHub(u))
    ensures Safe(Next(s, ReadHub(u)))
  {
    var t := Next(s, ReadHub(u));
    SafeIsSound(s);
    SafeIsSound(t);
    assert UserKnown(s, u);
    PointsHere(s, u);
    hide Safe, Sound, WellFormed;
    ActivitySound(s, u, t.users[u]);
  }

  // ----- posting -----

  /** Posting a command is going idle and appending the command. */
  lemma PostCommandParts(s: System, u: UserId)
    requires WellFormed(s) && Enabled(s, PostCommand(u))
    ensures u in s.users && UserKnown(s, u) && s.users[u].activity.Posting?
    ensures var idle := SetUser(s, u, s.users[u].(activity := Idle));
      var h, c := s.users[u].activity.hub, s.users[u].activity.cmd;
      && h in s.strands && (!c.failed ==> TaskKnown(idle, Execute(c)))
      && Next(s, PostCommand(u)) == if c.failed then idle else Post(idle, h, Execute(c))
  {
  }

  lemma PostCommandSound(s: System, u: UserId)
    requires Sound(s) && Enabled(s, PostCommand(u))
    ensures Sound(Next(s, PostCommand(u)))
  {
    hide WellFormed, LogInOrder, QueuesSafe, Next, TaskKnown;
    PostCommandParts(s, u);
    IdleSound(s, u);
    var h, c := s.users[u].activity.hub, s.users[u].activity.cmd;
    var idle := SetUser(s, u, s.users[u].(activity := Idle));
    if !c.failed {
      PostWellFormed(idle, h, Execute(c));
      AppendCommand(s.strands, s.members, s.users, h, c, idle.users);
      assert Post(idle, h, Execute(c)).strands == Appended(s.strands, h, Execute(c));
    }
  }

  lemma PostCommandSafe(s: System, u: UserId)
    requires Safe(s) && Enabled(s, PostCommand(u))
    ensures Safe(Next(s, PostCommand(u)))
  {
    var t := Next(s, PostCommand(u));
    PostCommandSound(s, u);
    forall k, v | RemovalQueued(s.strands, k, v) ensures RemovalQueued(t.strands, k, v) {
    }
  }

  lemma PostRemovalSafe(s: System, u: UserId)
    requires Safe(s) && Enabled(s, PostRemoval(u))
    ensures Safe(Next(s, PostRemoval(u)))
  {
    var h := s.users[u].activity.hub;
    var s1 := SetUser(s, u, s.users[u].(activity := Idle));
    var t := Next(s, PostRemoval(u));
    IdleSound(s, u);
    PostSound(s1, h, Task.Remove(u));
    forall k, v | RemovalQueued(s.strands, k, v) ensures RemovalQueued(t.strands, k, v) {
    }
    assert t.strands[h][|s.strands[h]|] == Task.Remove(u);
  }

  // ----- one handler -----

  lemma ExecuteSound(s: System, h: HubId, c: Command)
    requires Sound(s) && h in s.members && At(s.strands, h, 0) && s.strands[h][0] == Execute(c)
    ensures TaskKnown(Pop(s, h), Execute(c))
    ensures Sound(DoExecute(Pop(s, h), h, c))
  {
    PopSound(s, h);
    PopKnown(s, h);
    var s1 := Pop(s, h);
    if c.owner != 0 && c.owner in s1.members[h] {
      HeadIsFresh(s, h, c);
      LogCommandSound(s1, h, c);
      hide Sound, WellFormed, QueuesSafe, LogInOrder;
      var s2 := SetUser(s1, c.owner, s1.users[c.owner].(done := c.seqNo + 1)).(log := s1.log + [Entry(c, h)]);
      if c.move.Some? {
        PostSound(s2, c.move.value, Reply(c.owner, h));
        assert DoExecute(s1, h, c) == Post(s2, c.move.value, Reply(c.owner, h));
      } else {
        assert DoExecute(s1, h, c) == s2;
      }
    } else {
      assert DoExecute(s1, h, c) == s1;
    }
  }

  lemma CarriedSound(s: System, h: HubId, u: UserId)
    requires Sound(s) && h in s.members && At(s.strands, h, 0) && s.strands[h][0] == Receive(u, u)
    ensures TaskKnown(Pop(s, h), Receive(u, u))
    ensures Sound(DoReceive(Pop(s, h), h, u))
  {
    PopSound(s, h);
    PopKnown(s, h);
    var s1 := Pop(s, h);
    assert Carries(s.strands, h, 0, u);
    forall k, i ensures !Carries(s1.strands, k, i, u) {
      if Carries(s1.strands, k, i, u) {
        assert Carries(s.strands, k, Back(h, k, i), u);
      }
    }
    forall i | Queued(s1.strands, h, i, u) ensures s.users[u].done <= SeqAt(s1.strands, h, i) {
      assert Queued(s.strands, h, i + 1, u);
    }
    if !s.users[u].closed {
      ReceiveSound(s1, h, u);
    }
  }

  lemma HandleSound(s: System, h: HubId, joinable: bool)
    requires Safe(s) && Enabled(s, Handle(h, joinable))
    ensures Sound(Next(s, Handle(h, joinable)))
  {
    PopSound(s, h);
    PopKnown(s, h);
    var s1 := Pop(s, h);
    match s.strands[h][0] {
      case Execute(c) => ExecuteSound(s, h, c);
      case Reply(u, source) => PostSound(s1, source, if joinable then Send(u, h) else Refused(u));
      case Refused(u) => DropMemberSound(s1, h, u);
      case Send(u, target) =>
        MemberIsHere(s1, h, u);
        SendSound(s1, h, u, target);
      case Receive(k, u) => CarriedSound(s, h, u);
      case Remove(u) => DropMemberSound(s1, h, u);
    }
  }

  /** No handler sets the closed flag or touches a session, and a hub's map gains a user only by receiveUser, for an
      open connection. */
  lemma HandlerFrame(s: System, h: HubId, joinable: bool, k: HubId, u: UserId)
    requires WellFormed(s) && Enabled(s, Handle(h, joinable)) && u in s.users
    ensures var t := Next(s, Handle(h, joinable));
      && u in t.users && t.users[u].closed == s.users[u].closed && t.users[u].activity == s.users[u].activity
      && (IsMember(t.members, k, u) ==>
            IsMember(s.members, k, u) || (k == h && s.strands[h][0].Receive? && !s.users[u].closed))
  {
    PopKnown(s, h);
  }

  /** A handler takes the first task of its strand and adds tasks at the end of strands, but no removals. */
  lemma HandlerAppends(s: System, h: HubId, joinable: bool, k: HubId)
    requires WellFormed(s) && Enabled(s, Handle(h, joinable)) && k in s.strands
    ensures var t := Next(s, Handle(h, joinable));
      && k in t.strands && (if k == h then s.strands[k][1..] else s.strands[k]) <= t.strands[k]
      && (s.strands[h][0].Remove? ==> !IsMember(t.members, h, s.strands[h][0].user))
      && (forall i :: |s.strands[k]| - (if k == h then 1 else 0) <= i < |t.strands[k]| ==> !t.strands[k][i].Remove?)
  {
    PopKnown(s, h);
  }

  /** A removal stays queued until it runs, and when it runs the user is gone. */
  lemma RemovalKept(s: System, h: HubId, joinable: bool, k: HubId, u: UserId)
    requires WellFormed(s) && Enabled(s, Handle(h, joinable)) && RemovalQueued(s.strands, k, u)
    ensures var t := Next(s, Handle(h, joinable));
      RemovalQueued(t.strands, k, u) || (k == h && !IsMember(t.members, k, u))
  {
    hide WellFormed, Next, Defined;
    HandlerAppends(s, h, joinable, k);
    var q, q' := s.strands[k], Next(s, Handle(h, joinable)).strands[k];
    var i :| 0 <= i < |q| && q[i] == Task.Remove(u);
    if k == h && i > 0 {
      assert q[1..][i - 1] == q'[i - 1];
    } else if k != h {
      assert q'[i] == q[i];
    }
  }

  lemma HandleSafe(s: System, h: HubId, joinable: bool)
    requires Safe(s) && Enabled(s, Handle(h, joinable))
    ensures Safe(Next(s, Handle(h, joinable)))
  {
    HandleSound(s, h, joinable);
    var t := Next(s, Handle(h, joinable));
    forall k, u | IsMember(t.members, k, u) && u in t.users && t.users[u].closed
      ensures t.users[u].activity.Closing? || t.users[u].activity == ClosingAt(k) || RemovalQueued(t.strands, k, u)
    {
      SameUsers(s, h, joinable);
      HandlerFrame(s, h, joinable, k, u);
      if RemovalQueued(s.strands, k, u) {
        RemovalKept(s, h, joinable, k, u);
      }
    }
  }

  lemma SameUsers(s: System, h: HubId, joinable: bool)
    requires WellFormed(s) && Enabled(s, Handle(h, joinable))
    ensures Next(s, Handle(h, joinable)).users.Keys == s.users.Keys
  {
    PopKnown(s, h);
    assert TaskKnown(s, s.strands[h][0]);
  }

  // ----- runs -----

  lemma StepSafe(s: System, step: Step)
    requires Safe(s) && Enabled(s, step)
    ensures Safe(Next(s, step))
  {
    match step {
      case Accept => AcceptSafe(s);
      case ReadCommand(u, failed, move) => ReadCommandSafe(s, u, failed, move);
      case PostCommand(u) => PostCommandSafe(s, u);
      case SetClosed(u) => SetClosedSafe(s, u);
      case ReadHub(u) => ReadHubSafe(s, u);
      case PostRemoval(u) => PostRemovalSafe(s, u);
      case Handle(h, joinable) => HandleSafe(s, h, joinable);
    }
  }
}
