/** A move from its request to its end: what each closure of the handshake posts, and where the user is when it is over,
    over every interleaving of the strands and sessions in between (Common/Libs/Server/Hub/Hub.cpp, RequestMoveUser,
    replyRequest, sendUser, receiveUser; TicketBooth.cpp, RequestCompletionHandler). */
module HubHandshake {
  import opened Common
  import opened HubProtocol
  import opened HubSafety
  import opened HubRuns
  import opened HubForecast

  /** A schedule after which it is the turn of the closure that stands at position `i` of strand `h` now. */
  ghost predicate Turn(s: System, steps: seq<Step>, h: HubId, i: nat, joinable: bool) {
    && Safe(s) && At(s.strands, h, i) && RunFrom(s, steps).Some? && Turns(steps, h) == i
    && Enabled(RunFrom(s, steps).value, Handle(h, joinable))
  }

  ghost function BeforeTurn(s: System, steps: seq<Step>, h: HubId, i: nat, joinable: bool): (m: System)
    requires Turn(s, steps, h, i, joinable)
    ensures Safe(m) && Enabled(m, Handle(h, joinable))
  {
    RunFromSafe(s, steps);
    RunFrom(s, steps).value
  }

  ghost function AfterTurn(s: System, steps: seq<Step>, h: HubId, i: nat, joinable: bool): (t: System)
    requires Turn(s, steps, h, i, joinable)
    ensures Safe(t)
  {
    var m := BeforeTurn(s, steps, h, i, joinable);
    StepSafe(m, Handle(h, joinable));
    Next(m, Handle(h, joinable))
  }

  /** The closure has come to the head. */
  lemma InTurn(s: System, steps: seq<Step>, h: HubId, i: nat, joinable: bool)
    requires Turn(s, steps, h, i, joinable)
    ensures var m := BeforeTurn(s, steps, h, i, joinable); At(m.strands, h, 0) && m.strands[h][0] == s.strands[h][i]
  {
    hide Safe, Enabled, RunFrom, Turns;
    ClosureStays(s, steps, h, i);
  }

  lemma {:induction false} ClosureStays(s: System, steps: seq<Step>, h: HubId, i: nat)
    requires Safe(s) && At(s.strands, h, i) && RunFrom(s, steps).Some? && Turns(steps, h) <= i
    ensures var t, j := RunFrom(s, steps).value, i - Turns(steps, h);
      At(t.strands, h, j) && t.strands[h][j] == s.strands[h][i]
    decreases |steps|
  {
    hide Safe, Enabled, RunFrom, Turns, Next, WellFormed;
    if steps == [] {
      NoSteps(s, h);
    } else {
      var n := |steps| - 1;
      LastStep(s, steps, h);
      ClosureStays(s, steps[..n], h, i);
      QueueAhead(RunFrom(s, steps[..n]).value, steps[n], h, i - Turns(steps[..n], h));
    }
  }

  /** The task stands last on the strand. */
  predicate Last(q: Strands, h: HubId, task: Task) {
    h in q && q[h] != [] && q[h][|q[h]| - 1] == task
  }

  function LastAt(q: Strands, h: HubId): nat {
    if h in q && q[h] != [] then |q[h]| - 1 else 0
  }

  /** The same maps for everyone but `u`. */
  ghost predicate OthersStay(m: System, t: System, u: UserId) {
    forall k, v :: v != u ==> (IsMember(t.members, k, v) <==> IsMember(m.members, k, v))
  }

  /** Where users come from: a new one has a fresh ID and is in the booth's map, open, and in no other. */
  lemma AcceptEnters(s: System)
    requires Safe(s) && Enabled(s, Accept)
    ensures var t, u := Next(s, Accept), s.nextUserID;
      && u !in s.users && t.users.Keys == s.users.Keys + {u} && t.nextUserID == u + 1 && OthersStay(s, t, u)
      && (forall k :: IsMember(t.members, k, u) <==> k == BOOTH)
      && t.users[u].hub == Some(BOOTH) && !t.users[u].closed && t.users[u].sent == [] && t.strands == s.strands
  {
    FreshID(s);
  }

  // ----- the four closures -----

  /** RequestMoveUser: a command that is executed on the user's hub and asks for a move puts the request to the
      target. */
  lemma RequestAsks(m: System, h: HubId, joinable: bool, c: Command)
    requires Safe(m) && Enabled(m, Handle(h, joinable)) && m.strands[h][0] == Execute(c)
    requires IsMember(m.members, h, c.owner) && c.move.Some?
    ensures var t := Next(m, Handle(h, joinable));
      t.members == m.members && Last(t.strands, c.move.value, Reply(c.owner, h))
  {
    PopKnown(m, h);
    MemberIsHere(m, h, c.owner);
    assert UserKnown(m, c.owner);
  }

  /** replyRequest: a joinable target answers with a send, one that is not with a refusal, on the source's strand. */
  lemma ReplyAnswers(m: System, h: HubId, joinable: bool, u: UserId, source: HubId)
    requires Safe(m) && Enabled(m, Handle(h, joinable)) && m.strands[h][0] == Reply(u, source)
    ensures var t := Next(m, Handle(h, joinable));
      && t.members == m.members && t.users == m.users
      && Last(t.strands, source, if joinable then Send(u, h) else Refused(u))
  {
    PopKnown(m, h);
  }

  /** sendUser: the user leaves, is in no map, points nowhere, and is on the way to the target. */
  lemma SendLeaves(m: System, h: HubId, joinable: bool, u: UserId, target: HubId)
    requires Safe(m) && Enabled(m, Handle(h, joinable)) && m.strands[h][0] == Send(u, target)
    ensures var t := Next(m, Handle(h, joinable));
      && IsMember(m.members, h, u) && (forall k :: !IsMember(t.members, k, u)) && OthersStay(m, t, u)
      && u in t.users && t.users[u].hub == None && Last(t.strands, target, Receive(u, u))
  {
    PopKnown(m, h);
    MemberIsHere(m, h, u);
  }

  /** receiveUser: a user whose connection is open is in the target's map, and in no other; a closed one is in none. */
  lemma ReceiveArrives(m: System, h: HubId, joinable: bool, u: UserId)
    requires Safe(m) && Enabled(m, Handle(h, joinable)) && m.strands[h][0] == Receive(u, u)
    ensures var t := Next(m, Handle(h, joinable));
      && u in m.users && u in t.users && OthersStay(m, t, u)
      && (forall k :: IsMember(t.members, k, u) <==> k == h && !m.users[u].closed)
      && t.users[u].hub == (if m.users[u].closed then None else Some(h))
  {
    PopKnown(m, h);
    assert TaskKnown(m, m.strands[h][0]);
    forall k ensures !IsMember(m.members, k, u) {
      if IsMember(m.members, k, u) {
        MemberIsHere(m, k, u);
      }
    }
  }

  /** A refusal: the booth drops the user, any other hub keeps the user. */
  lemma RefusalEnds(m: System, h: HubId, joinable: bool, u: UserId)
    requires Safe(m) && Enabled(m, Handle(h, joinable)) && m.strands[h][0] == Refused(u)
    ensures var t := Next(m, Handle(h, joinable));
      && t.users == m.users && OthersStay(m, t, u)
      && (forall k :: IsMember(t.members, k, u) <==> IsMember(m.members, k, u) && !(h == BOOTH && k == BOOTH))
      && (h == BOOTH ==> IsMember(m.members, BOOTH, u))
  {
    PopKnown(m, h);
  }

  // ----- the whole move -----

  /** The request: the user's command comes to run on the user's hub, whatever happened until then, and later the
      request comes to run on the target's strand. */
  ghost predicate Asked(s: System, wait: seq<Step>, h: HubId, i: nat, c: Command, a: seq<Step>, joinable: bool) {
    && Turn(s, wait, h, i, true) && s.strands[h][i] == Execute(c) && c.move.Some?
    && IsMember(BeforeTurn(s, wait, h, i, true).members, h, c.owner)
    && var s1 := AfterTurn(s, wait, h, i, true);
       Turn(s1, a, c.move.value, LastAt(s1.strands, c.move.value), joinable)
  }

  ghost function Answered(s: System, wait: seq<Step>, h: HubId, i: nat, c: Command, a: seq<Step>, joinable: bool)
    : (t: System)
    requires Asked(s, wait, h, i, c, a, joinable)
    ensures Safe(t)
  {
    var s1 := AfterTurn(s, wait, h, i, true);
    AfterTurn(s1, a, c.move.value, LastAt(s1.strands, c.move.value), joinable)
  }

  lemma AskedAndAnswered(s: System, wait: seq<Step>, h: HubId, i: nat, c: Command, a: seq<Step>, joinable: bool)
    requires Asked(s, wait, h, i, c, a, joinable)
    ensures c.move.Some?
    ensures var t := Answered(s, wait, h, i, c, a, joinable);
      Last(t.strands, h, if joinable then Send(c.owner, c.move.value) else Refused(c.owner))
  {
    hide Safe, Turn, BeforeTurn, IsMember, Next, Enabled;
    var s1, target := AfterTurn(s, wait, h, i, true), c.move.value;
    InTurn(s, wait, h, i, true);
    RequestAsks(BeforeTurn(s, wait, h, i, true), h, true, c);
    InTurn(s1, a, target, LastAt(s1.strands, target), joinable);
    ReplyAnswers(BeforeTurn(s1, a, target, LastAt(s1.strands, target), joinable), target, joinable, c.owner, h);
  }

  /** Granted: over every interleaving in which the four closures have had their turns, the user was in the source's map
      until sendUser ran, and at the end an open user is in the target's map and nowhere else, a closed one nowhere. */
  lemma MoveArrives(s: System, wait: seq<Step>, h: HubId, i: nat, c: Command, a: seq<Step>, b: seq<Step>, d: seq<Step>)
    requires Asked(s, wait, h, i, c, a, true)
    requires var s2 := Answered(s, wait, h, i, c, a, true);
      && Turn(s2, b, h, LastAt(s2.strands, h), true)
      && var s3 := AfterTurn(s2, b, h, LastAt(s2.strands, h), true);
         Turn(s3, d, c.move.value, LastAt(s3.strands, c.move.value), true)
    ensures var u, target, s2 := c.owner, c.move.value, Answered(s, wait, h, i, c, a, true);
      var s3 := AfterTurn(s2, b, h, LastAt(s2.strands, h), true);
      var m := BeforeTurn(s3, d, target, LastAt(s3.strands, target), true);
      var t := AfterTurn(s3, d, target, LastAt(s3.strands, target), true);
      && IsMember(BeforeTurn(s2, b, h, LastAt(s2.strands, h), true).members, h, u)
      && (forall k :: !IsMember(s3.members, k, u))
      && u in m.users && u in t.users
      && (forall k :: IsMember(t.members, k, u) <==> k == target && !m.users[u].closed)
      && t.users[u].hub == (if m.users[u].closed then None else Some(target))
  {
    hide Safe, Turn, BeforeTurn, IsMember, Next, Enabled, Answered, Asked;
    AskedAndAnswered(s, wait, h, i, c, a, true);
    var u, target, s2 := c.owner, c.move.value, Answered(s, wait, h, i, c, a, true);
    InTurn(s2, b, h, LastAt(s2.strands, h), true);
    SendLeaves(BeforeTurn(s2, b, h, LastAt(s2.strands, h), true), h, true, u, target);
    var s3 := AfterTurn(s2, b, h, LastAt(s2.strands, h), true);
    InTurn(s3, d, target, LastAt(s3.strands, target), true);
    ReceiveArrives(BeforeTurn(s3, d, target, LastAt(s3.strands, target), true), target, true, u);
  }

  /** Refused: the booth drops the user; with any other source the user stays where the user is. */
  lemma MoveIsRefused(s: System, wait: seq<Step>, h: HubId, i: nat, c: Command, a: seq<Step>, b: seq<Step>)
    requires Asked(s, wait, h, i, c, a, false)
    requires var s2 := Answered(s, wait, h, i, c, a, false); Turn(s2, b, h, LastAt(s2.strands, h), true)
    ensures var u, s2 := c.owner, Answered(s, wait, h, i, c, a, false);
      var m := BeforeTurn(s2, b, h, LastAt(s2.strands, h), true);
      var t := AfterTurn(s2, b, h, LastAt(s2.strands, h), true);
      && OthersStay(m, t, u) && t.users == m.users
      && (forall k :: IsMember(t.members, k, u) <==> IsMember(m.members, k, u) && !(h == BOOTH && k == BOOTH))
  {
    hide Safe, Turn, BeforeTurn, IsMember, Next, Enabled, Answered, Asked;
    AskedAndAnswered(s, wait, h, i, c, a, false);
    var s2 := Answered(s, wait, h, i, c, a, false);
    InTurn(s2, b, h, LastAt(s2.strands, h), true);
    RefusalEnds(BeforeTurn(s2, b, h, LastAt(s2.strands, h), true), h, true, c.owner);
  }
}
