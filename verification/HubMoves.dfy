/** sendUser dereferences mUsers[userID] without checking that the user is still there. A run that leaves a user missing
    exists, and a guard at RequestMoveUser that rules all such runs out is proved sufficient. */
module HubMoves {
  import opened Common
  import opened HubProtocol
  import opened HubSafety
  import opened HubRuns

  // ----- a run that gets there -----

  lemma RunExtends(s: System, steps: seq<Step>, step: Step)
    requires RunFrom(s, steps).Some? && Safe(RunFrom(s, steps).value) && Enabled(RunFrom(s, steps).value, step)
    ensures RunFrom(s, steps + [step]) == Some(Next(RunFrom(s, steps).value, step))
    ensures Safe(Next(RunFrom(s, steps).value, step))
  {
    assert (steps + [step])[..|steps|] == steps;
    StepSafe(RunFrom(s, steps).value, step);
  }

  const LOBBY: HubId := 1

  /** A client that asks to log in twice before the first answer. */
  function LoginTwice(): seq<Step> {
    [Accept, ReadCommand(1, false, Some(LOBBY)), PostCommand(1), ReadCommand(1, false, Some(LOBBY)), PostCommand(1)]
  }

  function LoginCommand(n: nat): Command {
    Command(1, n, false, Some(LOBBY))
  }

  /** A safe state with the two hubs' queues, user 1 open, and user 1 in the booth or not. */
  ghost predicate Looks(s: System, booth: seq<Task>, lobby: seq<Task>, inBooth: bool, sent: nat) {
    && Safe(s) && s.strands.Keys == s.members.Keys == {BOOTH, LOBBY}
    && s.strands[BOOTH] == booth && s.strands[LOBBY] == lobby
    && 1 in s.users && |s.users[1].sent| == sent && s.users[1].activity.Idle?
    && (IsMember(s.members, BOOTH, 1) <==> inBooth)
    && (inBooth ==> s.users[1].hub == Some(BOOTH))
  }

  lemma Enters()
    ensures Run({LOBBY}, [Accept]).Some? && Looks(Run({LOBBY}, [Accept]).value, [], [], true, 0)
  {
    var s := Initial({LOBBY});
    InitialSafe({LOBBY});
    RunExtends(s, [], Accept);
    assert [] + [Accept] == [Accept];
  }

  lemma Asks(s: System, booth: seq<Task>, sent: nat)
    requires Looks(s, booth, [], true, sent)
    ensures var read := ReadCommand(1, false, Some(LOBBY));
      && Enabled(s, read) && Safe(Next(s, read)) && Enabled(Next(s, read), PostCommand(1))
      && Looks(Next(Next(s, read), PostCommand(1)), booth + [Execute(LoginCommand(sent))], [], true, sent + 1)
  {
    var read := ReadCommand(1, false, Some(LOBBY));
    StepSafe(s, read);
    StepSafe(Next(s, read), PostCommand(1));
  }

  lemma BoothRuns(s: System, n: nat, booth: seq<Task>, lobby: seq<Task>, sent: nat)
    requires Looks(s, [Execute(LoginCommand(n))] + booth, lobby, true, sent)
    ensures Enabled(s, Handle(BOOTH, true))
    ensures Looks(Next(s, Handle(BOOTH, true)), booth, lobby + [Reply(1, BOOTH)], true, sent)
  {
    StepSafe(s, Handle(BOOTH, true));
    PopKnown(s, BOOTH);
    assert Pop(s, BOOTH).strands[BOOTH] == booth;
  }

  lemma LobbyAnswers(s: System, booth: seq<Task>, lobby: seq<Task>, sent: nat)
    requires Looks(s, booth, [Reply(1, BOOTH)] + lobby, true, sent)
    ensures Enabled(s, Handle(LOBBY, true))
    ensures Looks(Next(s, Handle(LOBBY, true)), booth + [Send(1, LOBBY)], lobby, true, sent)
  {
    StepSafe(s, Handle(LOBBY, true));
    PopKnown(s, LOBBY);
    assert Pop(s, LOBBY).strands[LOBBY] == lobby;
  }

  lemma BoothSends(s: System, booth: seq<Task>, lobby: seq<Task>, sent: nat)
    requires Looks(s, [Send(1, LOBBY)] + booth, lobby, true, sent)
    ensures Enabled(s, Handle(BOOTH, true))
    ensures Looks(Next(s, Handle(BOOTH, true)), booth, lobby + [Receive(1, 1)], false, sent)
  {
    StepSafe(s, Handle(BOOTH, true));
    PopKnown(s, BOOTH);
    MemberIsHere(s, BOOTH, 1);
    assert Pop(s, BOOTH).strands[BOOTH] == booth;
  }

  /** The run so far can be described by Looks. */
  ghost predicate Reaches(steps: seq<Step>, booth: seq<Task>, lobby: seq<Task>, inBooth: bool, sent: nat) {
    Run({LOBBY}, steps).Some? && Looks(Run({LOBBY}, steps).value, booth, lobby, inBooth, sent)
  }

  lemma ThenAsks(p: seq<Step>, booth: seq<Task>, sent: nat)
    requires Reaches(p, booth, [], true, sent)
    ensures Reaches(p + [ReadCommand(1, false, Some(LOBBY))] + [PostCommand(1)],
      booth + [Execute(LoginCommand(sent))], [], true, sent + 1)
  {
    var read := ReadCommand(1, false, Some(LOBBY));
    Asks(Run({LOBBY}, p).value, booth, sent);
    RunExtends(Initial({LOBBY}), p, read);
    RunExtends(Initial({LOBBY}), p + [read], PostCommand(1));
  }

  lemma ThenBoothRuns(p: seq<Step>, n: nat, booth: seq<Task>, lobby: seq<Task>, sent: nat)
    requires Reaches(p, [Execute(LoginCommand(n))] + booth, lobby, true, sent)
    ensures Reaches(p + [Handle(BOOTH, true)], booth, lobby + [Reply(1, BOOTH)], true, sent)
  {
    BoothRuns(Run({LOBBY}, p).value, n, booth, lobby, sent);
    RunExtends(Initial({LOBBY}), p, Handle(BOOTH, true));
  }

  lemma ThenLobbyAnswers(p: seq<Step>, booth: seq<Task>, lobby: seq<Task>, sent: nat)
    requires Reaches(p, booth, [Reply(1, BOOTH)] + lobby, true, sent)
    ensures Reaches(p + [Handle(LOBBY, true)], booth + [Send(1, LOBBY)], lobby, true, sent)
  {
    LobbyAnswers(Run({LOBBY}, p).value, booth, lobby, sent);
    RunExtends(Initial({LOBBY}), p, Handle(LOBBY, true));
  }

  lemma ThenBoothSends(p: seq<Step>, booth: seq<Task>, lobby: seq<Task>, sent: nat)
    requires Reaches(p, [Send(1, LOBBY)] + booth, lobby, true, sent)
    ensures Reaches(p + [Handle(BOOTH, true)], booth, lobby + [Receive(1, 1)], false, sent)
  {
    BoothSends(Run({LOBBY}, p).value, booth, lobby, sent);
    RunExtends(Initial({LOBBY}), p, Handle(BOOTH, true));
  }

  lemma LoginParts()
    ensures var read, post := ReadCommand(1, false, Some(LOBBY)), PostCommand(1);
      LoginTwice() == [Accept] + [read] + [post] + [read] + [post]
  {
  }

  lemma AfterLoginTwice()
    ensures Reaches(LoginTwice(), [Execute(LoginCommand(0))] + [Execute(LoginCommand(1))], [], true, 2)
  {
    hide *;
    var read, post := ReadCommand(1, false, Some(LOBBY)), PostCommand(1);
    LoginParts();
    Entered();
    ThenAsks([Accept], [], 0);
    assert [] + [Execute(LoginCommand(0))] == [Execute(LoginCommand(0))];
    ThenAsks([Accept] + [read] + [post], [Execute(LoginCommand(0))], 1);
  }

  lemma Entered()
    ensures Reaches([Accept], [], [], true, 0)
  {
    Enters();
  }

  function ServeTwice(): seq<Step> {
    [Handle(BOOTH, true), Handle(BOOTH, true), Handle(LOBBY, true), Handle(LOBBY, true), Handle(BOOTH, true)]
  }

  lemma ServeParts(p: seq<Step>)
    ensures var b, l := Handle(BOOTH, true), Handle(LOBBY, true);
      p + ServeTwice() == p + [b] + [b] + [l] + [l] + [b]
  {
  }

  lemma AfterServeTwice()
    ensures Reaches(LoginTwice() + ServeTwice(), [Send(1, LOBBY)], [Receive(1, 1)], false, 2)
  {
    hide *;
    AfterLoginTwice();
    var p, b, l := LoginTwice(), Handle(BOOTH, true), Handle(LOBBY, true);
    var c0, c1, reply, send := Execute(LoginCommand(0)), Execute(LoginCommand(1)), Reply(1, BOOTH), Send(1, LOBBY);
    ServeParts(p);
    assert [c1] == [c1] + [];
    assert [] + [reply] == [reply] && [reply] + [] == [reply];
    assert [] + [send] == [send];
    assert [] + [Receive(1, 1)] == [Receive(1, 1)];
    ThenBoothRuns(p, 0, [c1], [], 2);
    ThenBoothRuns(p + [b], 1, [], [reply], 2);
    ThenLobbyAnswers(p + [b] + [b], [], [reply], 2);
    ThenLobbyAnswers(p + [b] + [b] + [l], [send], [], 2);
    ThenBoothSends(p + [b] + [b] + [l] + [l], [send], [], 2);
  }

  /** Two login requests in a row: the second sendUser finds the user gone, and the code's behaviour is undefined. */
  lemma SecondLoginIsUndefined()
    ensures Run({LOBBY}, LoginTwice() + ServeTwice()).Some?
    ensures var s := Run({LOBBY}, LoginTwice() + ServeTwice()).value;
      && Safe(s) && BOOTH in s.strands && BOOTH in s.members
      && s.strands[BOOTH] == [Send(1, LOBBY)] && 1 !in s.members[BOOTH] && !Defined(s, BOOTH)
  {
    AfterServeTwice();
  }

  // ----- a guard that is enough -----

  /** Position `i` of strand `h` belongs to a handshake that would move user `u` out of hub `from`. */
  predicate Moves(q: Strands, h: HubId, i: int, u: UserId, from: HubId) {
    At(q, h, i) && (
      match q[h][i]
      case Reply(v, source) => v == u && source == from
      case Refused(v) => v == u && h == from
      case Send(v, _) => v == u && h == from
      case _ => false)
  }

  /** RequestMoveUser is called only for a user whose connection is open and who has no handshake under way, and a
      connection is closed only while no handshake of its user is under way. */
  ghost predicate Guarded(s: System, step: Step)
    requires Enabled(s, step)
  {
    && (step.SetClosed? ==> NoMoves(s.strands, step.user))
    && (step.Handle? && s.strands[step.hub][0].Execute? && s.strands[step.hub][0].cmd.move.Some? ==>
          var u := s.strands[step.hub][0].cmd.owner;
          u in s.users && !s.users[u].closed && NoMoves(s.strands, u))
  }

  /** Every handshake under way is the only one for its user, who is still in the hub it would leave. */
  ghost predicate MovesSafe(q: Strands, m: Members) {
    && (forall h, i, u, from :: Moves(q, h, i, u, from) ==> IsMember(m, from, u))
    && (forall h, i, from, h', i', from', u :: Moves(q, h, i, u, from) && Moves(q, h', i', u, from') ==>
          h == h' && i == i')
  }

  /** Handshakes are under way only for users whose connection is open. */
  ghost predicate MovesOpen(q: Strands, us: Users) {
    forall h, i, u, from :: Moves(q, h, i, u, from) ==> u in us && !us[u].closed
  }

  /** Removals are under way only for users whose connection is closed. */
  ghost predicate RemovalsClosed(q: Strands, us: Users) {
    && (forall u :: u in us && (us[u].activity.Closing? || us[u].activity.ClosingAt?) ==> us[u].closed)
    && (forall h, i :: At(q, h, i) && q[h][i].Remove? ==> q[h][i].user in us && us[q[h][i].user].closed)
  }

  ghost predicate NoMoves(q: Strands, u: UserId) {
    forall h, i, from :: !Moves(q, h, i, u, from)
  }

  /** What every step of a guarded run keeps. */
  ghost predicate Orderly(s: System) {
    MovesSafe(s.strands, s.members) && MovesOpen(s.strands, s.users) && RemovalsClosed(s.strands, s.users)
  }

  lemma PopMoves(q: Strands, m: Members, us: Users, h: HubId)
    requires h in q && q[h] != [] && MovesSafe(q, m) && MovesOpen(q, us)
    ensures MovesSafe(Popped(q, h), m) && MovesOpen(Popped(q, h), us)
    ensures forall u, from :: Moves(q, h, 0, u, from) ==> NoMoves(Popped(q, h), u)
    ensures forall u :: NoMoves(q, u) ==> NoMoves(Popped(q, h), u)
  {
    var p := Popped(q, h);
    forall k, i, u, from | Moves(p, k, i, u, from) ensures Moves(q, k, Back(h, k, i), u, from) {
    }
  }

  lemma AppendMove(q: Strands, m: Members, us: Users, h: HubId, t: Task, u: UserId, from: HubId)
    requires h in q && MovesSafe(q, m) && MovesOpen(q, us) && NoMoves(q, u) && IsMember(m, from, u)
    requires u in us && !us[u].closed
    requires t == Reply(u, from) || (h == from && (t == Refused(u) || (t.Send? && t.user == u)))
    ensures MovesSafe(Appended(q, h, t), m) && MovesOpen(Appended(q, h, t), us)
  {
    var p := Appended(q, h, t);
    forall k, i, v, f | Moves(p, k, i, v, f)
      ensures Moves(q, k, i, v, f) || (k == h && i == |q[h]| && v == u && f == from)
    {
    }
  }

  lemma AppendOther(q: Strands, m: Members, us: Users, h: HubId, t: Task)
    requires h in q && MovesSafe(q, m) && MovesOpen(q, us) && (t.Execute? || t.Receive? || t.Remove?)
    ensures MovesSafe(Appended(q, h, t), m) && MovesOpen(Appended(q, h, t), us)
  {
    var p := Appended(q, h, t);
    forall k, i, v, f | Moves(p, k, i, v, f) ensures Moves(q, k, i, v, f) {
    }
  }

  lemma DropMoves(q: Strands, m: Members, h: HubId, u: UserId)
    requires h in m && MovesSafe(q, m) && NoMoves(q, u)
    ensures MovesSafe(q, m[h := m[h] - {u}])
  {
    forall k, i, v, f | Moves(q, k, i, v, f) ensures IsMember(m[h := m[h] - {u}], f, v) {
      assert v != u;
    }
  }

  lemma ClosedHasNoMoves(q: Strands, us: Users, u: UserId)
    requires MovesOpen(q, us) && u in us && us[u].closed
    ensures NoMoves(q, u)
  {
  }

  /** The same flags, the same handshakes. */
  lemma SameFlags(q: Strands, us: Users, us': Users)
    requires MovesOpen(q, us) && forall u :: u in us ==> u in us' && us'[u].closed == us[u].closed
    ensures MovesOpen(q, us')
  {
  }

  lemma FlagsKept(s: System, h: HubId, joinable: bool)
    requires Safe(s) && Enabled(s, Handle(h, joinable))
    ensures var us' := Next(s, Handle(h, joinable)).users;
      && us'.Keys == s.users.Keys
      && forall u :: u in s.users ==> us'[u].closed == s.users[u].closed && us'[u].activity == s.users[u].activity
  {
    SameUsers(s, h, joinable);
    forall u | u in s.users
      ensures var t := Next(s, Handle(h, joinable));
        u in t.users && t.users[u].closed == s.users[u].closed && t.users[u].activity == s.users[u].activity
    {
      HandlerFrame(s, h, joinable, h, u);
    }
  }

  lemma MoverIsIn(q: Strands, m: Members, us: Users, h: HubId, i: int, u: UserId, from: HubId)
    requires MovesSafe(q, m) && MovesOpen(q, us) && Moves(q, h, i, u, from)
    ensures IsMember(m, from, u) && u in us && !us[u].closed
  {
  }

  /** What a handler does to the strands and maps, case by case. */
  lemma HandlerEffect(s: System, h: HubId, joinable: bool)
    requires WellFormed(s) && Enabled(s, Handle(h, joinable))
    ensures var t, q, m := Next(s, Handle(h, joinable)), Popped(s.strands, h), s.members;
      match s.strands[h][0]
      case Execute(c) =>
        && t.members == m
        && (c.move.Some? ==> c.move.value in q)
        && t.strands == if c.owner != 0 && c.owner in m[h] && c.move.Some?
          then Appended(q, c.move.value, Reply(c.owner, h)) else q
      case Reply(u, source) =>
        source in q && t.members == m && t.strands == Appended(q, source, if joinable then Send(u, h) else Refused(u))
      case Refused(u) => t.strands == q && t.members == if h == BOOTH then m[h := m[h] - {u}] else m
      case Send(u, target) =>
        && target in q && u in m[h] && t.members == m[h := m[h] - {u}]
        && t.strands == Appended(q, target, Receive(u, m[h][u]))
      case Receive(_, u) =>
        && u in s.users && t.strands == q
        && t.members == if s.users[u].closed then m else m[h := Emplaced(m[h], u, u)]
      case Remove(u) => t.strands == q && t.members == m[h := m[h] - {u}]
  {
    PopKnown(s, h);
    if s.strands[h][0].Send? {
      assert MemberKnown(s, h, s.strands[h][0].user);
    }
  }

  lemma EmplacedKeepsMoves(q: Strands, m: Members, h: HubId, u: UserId)
    requires h in m && MovesSafe(q, m)
    ensures MovesSafe(q, m[h := Emplaced(m[h], u, u)])
  {
    forall f, v | IsMember(m, f, v) ensures IsMember(m[h := Emplaced(m[h], u, u)], f, v) {
    }
  }

  lemma HandleMoves(s: System, h: HubId, joinable: bool)
    requires Safe(s) && Enabled(s, Handle(h, joinable)) && Guarded(s, Handle(h, joinable)) && Orderly(s)
    ensures var t := Next(s, Handle(h, joinable)); MovesSafe(t.strands, t.members) && MovesOpen(t.strands, s.users)
  {
    assert WellFormed(s);
    HeadRemoval(s, h);
    hide Safe, WellFormed, Next, MovesSafe, MovesOpen, NoMoves, Defined;
    HandlerEffect(s, h, joinable);
    PopMoves(s.strands, s.members, s.users, h);
    var q, m, us := Popped(s.strands, h), s.members, s.users;
    match s.strands[h][0] {
      case Execute(c) =>
        if c.owner != 0 && c.owner in m[h] && c.move.Some? {
          AppendMove(q, m, us, c.move.value, Reply(c.owner, h), c.owner, h);
        }
      case Reply(u, source) =>
        assert Moves(s.strands, h, 0, u, source);
        MoverIsIn(s.strands, m, us, h, 0, u, source);
        AppendMove(q, m, us, source, if joinable then Send(u, h) else Refused(u), u, source);
      case Refused(u) =>
        assert Moves(s.strands, h, 0, u, h);
        DropMoves(q, m, h, u);
      case Send(u, target) =>
        assert Moves(s.strands, h, 0, u, h);
        DropMoves(q, m, h, u);
        AppendOther(q, m[h := m[h] - {u}], us, target, Receive(u, m[h][u]));
      case Receive(_, u) => EmplacedKeepsMoves(q, m, h, u);
      case Remove(u) =>
        ClosedHasNoMoves(s.strands, us, u);
        DropMoves(q, m, h, u);
    }
  }

  lemma HeadRemoval(s: System, h: HubId)
    requires Orderly(s) && At(s.strands, h, 0)
    ensures s.strands[h][0].Remove? ==> s.strands[h][0].user in s.users && s.users[s.strands[h][0].user].closed
  {
  }

  /** No handler queues a removal. */
  lemma HandlersPostNoRemoval(s: System, h: HubId, joinable: bool, k: HubId, i: int)
    requires WellFormed(s) && Enabled(s, Handle(h, joinable))
    requires At(Next(s, Handle(h, joinable)).strands, k, i) && Next(s, Handle(h, joinable)).strands[k][i].Remove?
    ensures At(s.strands, k, Back(h, k, i)) && s.strands[k][Back(h, k, i)] == Next(s, Handle(h, joinable)).strands[k][i]
  {
    SameHubs(s, h, joinable);
    HandlerAppends(s, h, joinable, k);
    hide WellFormed, Next, Defined;
    var q, t := s.strands[k], Next(s, Handle(h, joinable)).strands[k];
    assert k == h ==> q[1..][i] == t[i];
  }

  lemma SameHubs(s: System, h: HubId, joinable: bool)
    requires WellFormed(s) && Enabled(s, Handle(h, joinable))
    ensures Next(s, Handle(h, joinable)).strands.Keys == s.strands.Keys
  {
    PopKnown(s, h);
  }

  lemma HandleKeepsOrder(s: System, h: HubId, joinable: bool)
    requires Safe(s) && Enabled(s, Handle(h, joinable)) && Guarded(s, Handle(h, joinable)) && Orderly(s)
    ensures Orderly(Next(s, Handle(h, joinable)))
  {
    assert WellFormed(s) && RemovalsClosed(s.strands, s.users);
    hide Next, Safe, Enabled, Guarded, WellFormed, MovesSafe, MovesOpen;
    HandleMoves(s, h, joinable);
    FlagsKept(s, h, joinable);
    var t := Next(s, Handle(h, joinable));
    SameFlags(t.strands, s.users, t.users);
    forall k, i | At(t.strands, k, i) && t.strands[k][i].Remove?
      ensures t.strands[k][i].user in t.users && t.users[t.strands[k][i].user].closed
    {
      HandlersPostNoRemoval(s, h, joinable, k, i);
    }
  }

  lemma PostCommandKeepsOrder(s: System, u: UserId)
    requires Safe(s) && Enabled(s, PostCommand(u)) && Orderly(s)
    ensures Orderly(Next(s, PostCommand(u)))
  {
    var user := s.users[u];
    var t := Next(s, PostCommand(u));
    hide Safe, WellFormed, MovesSafe;
    if !user.activity.cmd.failed {
      var c := Execute(user.activity.cmd);
      AppendOther(s.strands, s.members, s.users, user.activity.hub, c);
      RemovalsAppended(s.strands, s.users, user.activity.hub, c);
      SameFlags(Appended(s.strands, user.activity.hub, c), s.users, t.users);
    }
  }

  lemma PostRemovalKeepsOrder(s: System, u: UserId)
    requires Safe(s) && Enabled(s, PostRemoval(u)) && Orderly(s)
    ensures Orderly(Next(s, PostRemoval(u)))
  {
    var user := s.users[u];
    var t := Next(s, PostRemoval(u));
    hide Safe, WellFormed, MovesSafe;
    AppendOther(s.strands, s.members, s.users, user.activity.hub, Task.Remove(u));
    RemovalsAppended(s.strands, s.users, user.activity.hub, Task.Remove(u));
    SameFlags(Appended(s.strands, user.activity.hub, Task.Remove(u)), s.users, t.users);
  }

  lemma RemovalsAppended(q: Strands, us: Users, h: HubId, t: Task)
    requires h in q && RemovalsClosed(q, us) && (t.Remove? ==> t.user in us && us[t.user].closed)
    ensures RemovalsClosed(Appended(q, h, t), us)
  {
    var p := Appended(q, h, t);
    forall k, i | At(p, k, i) && p[k][i].Remove? ensures p[k][i].user in us && us[p[k][i].user].closed {
      assert At(q, k, i) || (k == h && i == |q[h]|);
    }
  }

  lemma AcceptKeepsOrder(s: System)
    requires Safe(s) && Enabled(s, Accept) && Orderly(s)
    ensures Orderly(Next(s, Accept))
  {
    var t := Next(s, Accept);
    FreshID(s);
    forall f, v | IsMember(s.members, f, v) ensures IsMember(t.members, f, v) {
    }
  }

  /** Setting the flag of a user without a handshake. */
  lemma SetClosedKeepsOrder(s: System, u: UserId)
    requires Safe(s) && Enabled(s, SetClosed(u)) && Orderly(s) && NoMoves(s.strands, u)
    ensures Orderly(Next(s, SetClosed(u)))
  {
    var t := Next(s, SetClosed(u));
    forall h, i, v, from | Moves(t.strands, h, i, v, from) ensures v in t.users && !t.users[v].closed {
      assert Moves(s.strands, h, i, v, from);
    }
  }

  lemma GuardedStep(s: System, step: Step)
    requires Safe(s) && Enabled(s, step) && Guarded(s, step) && Orderly(s)
    ensures Orderly(Next(s, step))
  {
    match step {
      case Accept => AcceptKeepsOrder(s);
      case ReadCommand(u, failed, move) =>
      case PostCommand(u) => PostCommandKeepsOrder(s, u);
      case SetClosed(u) => SetClosedKeepsOrder(s, u);
      case ReadHub(u) =>
      case PostRemoval(u) => PostRemovalKeepsOrder(s, u);
      case Handle(h, joinable) => HandleKeepsOrder(s, h, joinable);
    }
  }

  /** Every step of the schedule is guarded. */
  ghost predicate GuardedRun(s: System, steps: seq<Step>)
    requires RunFrom(s, steps).Some?
    decreases |steps|
  {
    steps == [] ||
    (GuardedRun(s, steps[..|steps| - 1]) && Guarded(RunFrom(s, steps[..|steps| - 1]).value, steps[|steps| - 1]))
  }

  lemma {:induction false} GuardedRunKeepsOrder(s: System, steps: seq<Step>)
    requires Safe(s) && Orderly(s) && RunFrom(s, steps).Some? && GuardedRun(s, steps)
    ensures Safe(RunFrom(s, steps).value) && Orderly(RunFrom(s, steps).value)
    decreases |steps|
  {
    RunFromSafe(s, steps);
    if steps != [] {
      var before := steps[..|steps| - 1];
      GuardedRunKeepsOrder(s, before);
      GuardedStep(RunFrom(s, before).value, steps[|steps| - 1]);
    }
  }

  /** In every guarded run, connections that close included, whatever is at the head of a strand can run: sendUser
      always finds its user. */
  lemma GuardedRunIsDefined(hubs: set<HubId>, steps: seq<Step>, h: HubId)
    requires Run(hubs, steps).Some? && GuardedRun(Initial(hubs), steps)
    requires var s := Run(hubs, steps).value; h in s.strands && s.strands[h] != []
    ensures var s := Run(hubs, steps).value; h in s.members && Defined(s, h)
  {
    InitialSafe(hubs);
    GuardedRunKeepsOrder(Initial(hubs), steps);
    var s := Run(hubs, steps).value;
    match s.strands[h][0] {
      case Send(u, _) => assert Moves(s.strands, h, 0, u, h);
      case Refused(u) => assert Moves(s.strands, h, 0, u, h);
      case _ =>
    }
  }
}
