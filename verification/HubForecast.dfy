/** Exactly when sendUser finds its user. Only a hub's own strand changes its map for known users, and a strand is
    FIFO, so whether the user is still there when a queued closure runs is settled when the closure is queued: by the
    map and by the closures ahead of it. */
module HubForecast {
  import opened Common
  import opened HubProtocol
  import opened HubSafety
  import opened HubRuns

  /** Whether the user is in the hub's map after one of its closures. */
  function After(t: Task, h: HubId, closed: bool, u: UserId, here: bool): bool {
    match t
    case Send(v, _) => here && v != u
    case Remove(v) => here && v != u
    case Refused(v) => here && !(h == BOOTH && v == u)
    case Receive(_, v) => here || (v == u && !closed)
    case _ => here
  }

  /** ...and after a queue of them. */
  function Stays(q: seq<Task>, h: HubId, closed: bool, u: UserId, here: bool): bool {
    if q == [] then here else Stays(q[1..], h, closed, u, After(q[0], h, closed, u, here))
  }

  /** Whether the user will be in the map when position `i` of the strand comes to run, if the closed flag is `closed`
      when a receiveUser ahead of it runs. */
  predicate Forecast(s: System, h: HubId, i: nat, u: UserId, closed: bool)
    requires At(s.strands, h, i)
  {
    Stays(s.strands[h][..i], h, closed, u, IsMember(s.members, h, u))
  }

  /** This step runs the receiveUser of the user on the hub's strand. */
  predicate Receives(s: System, step: Step, h: HubId, u: UserId) {
    step.Handle? && step.hub == h && Carries(s.strands, h, 0, u)
  }

  /** If this step runs the user's receiveUser, the flag is `closed`. */
  predicate FlagIs(s: System, step: Step, h: HubId, u: UserId, closed: bool)
    requires u in s.users
  {
    Receives(s, step, h, u) ==> s.users[u].closed == closed
  }

  /** The handler at the head does to the map what After says. */
  lemma HandlerDoesAfter(s: System, h: HubId, joinable: bool, u: UserId)
    requires Safe(s) && Enabled(s, Handle(h, joinable)) && u in s.users
    ensures var t := Next(s, Handle(h, joinable));
      && u in t.users && t.users[u].closed == s.users[u].closed
      && IsMember(t.members, h, u) == After(s.strands[h][0], h, s.users[u].closed, u, IsMember(s.members, h, u))
  {
    PopKnown(s, h);
    HandlerFrame(s, h, joinable, h, u);
    if s.strands[h][0].Send? {
      MemberIsHere(s, h, s.strands[h][0].user);
    }
  }

  /** No other step touches this hub's map for a known user. */
  lemma OthersLeaveTheMap(s: System, step: Step, h: HubId, u: UserId)
    requires Safe(s) && Enabled(s, step) && u in s.users && !(step.Handle? && step.hub == h)
    ensures var t := Next(s, step); u in t.users && IsMember(t.members, h, u) == IsMember(s.members, h, u)
    ensures step != SetClosed(u) ==> Next(s, step).users[u].closed == s.users[u].closed
  {
    FreshID(s);
    if step.Handle? {
      PopKnown(s, step.hub);
      HandlerFrame(s, step.hub, step.joinable, h, u);
    }
  }

  /** Strand `h` of `b` is that of `a` with more at the end. */
  predicate Grown(a: Strands, b: Strands, h: HubId) {
    h in a && h in b && a[h] <= b[h]
  }

  lemma HandlerGrows(s: System, h: HubId, t: Task, joinable: bool, k: HubId)
    requires h in s.members && TaskKnown(s, t) && k in s.strands
    requires t.Send? ==> t.user in s.members[h] && s.members[h][t.user] in s.users
    requires t.Refused? ==> (h == BOOTH ==> t.user in s.members[h])
    ensures Grown(s.strands, Run1(s, h, t, joinable).strands, k)
  {
  }

  /** A step takes at most the head off a strand, and adds only at the end. */
  lemma StrandGrows(s: System, step: Step, h: HubId)
    requires WellFormed(s) && Enabled(s, step) && h in s.strands
    ensures var t := Next(s, step);
      if step.Handle? && step.hub == h then Grown(Popped(s.strands, h), t.strands, h)
      else Grown(s.strands, t.strands, h)
  {
    if step.Handle? {
      PopKnown(s, step.hub);
      HeadCanRun(s, step.hub);
      HandlerGrows(Pop(s, step.hub), step.hub, s.strands[step.hub][0], step.joinable, h);
      hide Run1, WellFormed, Defined;
    }
  }

  lemma HeadCanRun(s: System, h: HubId)
    requires WellFormed(s) && h in s.strands && s.strands[h] != [] && h in s.members && Defined(s, h)
    ensures var t := s.strands[h][0];
      (t.Send? ==> t.user in s.members[h] && s.members[h][t.user] in s.users)
      && (t.Refused? ==> (h == BOOTH ==> t.user in s.members[h]))
  {
    if s.strands[h][0].Send? {
      MemberIsHere(s, h, s.strands[h][0].user);
    }
  }

  /** A closure stays queued behind the same ones until it runs. */
  lemma QueueAhead(s: System, step: Step, h: HubId, i: nat)
    requires WellFormed(s) && Enabled(s, step) && At(s.strands, h, i) && (step.Handle? && step.hub == h ==> i > 0)
    ensures var t := Next(s, step); var j := if step.Handle? && step.hub == h then i - 1 else i;
      At(t.strands, h, j) && forall k :: 0 <= k <= j ==> t.strands[h][k] == s.strands[h][k + (i - j)]
  {
    hide Enabled, WellFormed, Next;
    StrandGrows(s, step, h);
  }

  /** Where the closure at position `i` of strand `h` is after a step. */
  function Place(step: Step, h: HubId, i: nat): nat
    requires step.Handle? && step.hub == h ==> i > 0
  {
    if step.Handle? && step.hub == h then i - 1 else i
  }

  /** Position `j` in state `t` holds the closure of position `i` in state `s`, with the same forecast. */
  ghost predicate Tracks(s: System, i: nat, t: System, j: nat, h: HubId, u: UserId, closed: bool) {
    && At(s.strands, h, i) && u in s.users && At(t.strands, h, j) && u in t.users
    && t.strands[h][j] == s.strands[h][i] && Forecast(t, h, j, u, closed) == Forecast(s, h, i, u, closed)
  }

  lemma TracksOn(s: System, i: nat, m: System, k: nat, t: System, j: nat, h: HubId, u: UserId, closed: bool)
    requires Tracks(s, i, m, k, h, u, closed) && Tracks(m, k, t, j, h, u, closed)
    ensures Tracks(s, i, t, j, h, u, closed)
  {
    hide Forecast;
  }

  /** The closures ahead, before and after. */
  lemma AheadKept(s: System, t: System, h: HubId, i: nat, j: nat)
    requires j <= i && At(s.strands, h, i) && At(t.strands, h, j)
    requires forall k :: 0 <= k <= j ==> t.strands[h][k] == s.strands[h][k + (i - j)]
    ensures t.strands[h][..j] == s.strands[h][i - j..i] && t.strands[h][j] == s.strands[h][i]
  {
  }

  lemma AfterByFlag(t: Task, h: HubId, a: bool, b: bool, u: UserId, here: bool)
    requires t.Receive? && t.user == u ==> a == b
    ensures After(t, h, a, u, here) == After(t, h, b, u, here)
  {
  }

  lemma PoppedForecast(s: System, t: System, h: HubId, i: nat, u: UserId, closed: bool)
    requires At(s.strands, h, i) && i > 0 && At(t.strands, h, i - 1) && t.strands[h][..i - 1] == s.strands[h][1..i]
    requires IsMember(t.members, h, u) == After(s.strands[h][0], h, closed, u, IsMember(s.members, h, u))
    ensures Forecast(t, h, i - 1, u, closed) == Forecast(s, h, i, u, closed)
  {
    hide After, IsMember;
    assert s.strands[h][..i][1..] == s.strands[h][1..i];
  }

  lemma SameForecast(s: System, t: System, h: HubId, i: nat, u: UserId, closed: bool)
    requires At(s.strands, h, i) && At(t.strands, h, i) && t.strands[h][..i] == s.strands[h][0..i]
    requires IsMember(t.members, h, u) == IsMember(s.members, h, u)
    ensures Forecast(t, h, i, u, closed) == Forecast(s, h, i, u, closed)
  {
    hide Stays, IsMember;
    assert s.strands[h][0..i] == s.strands[h][..i];
  }

  lemma HandlerKeepsForecast(s: System, joinable: bool, h: HubId, i: nat, u: UserId, closed: bool)
    requires Safe(s) && Enabled(s, Handle(h, joinable)) && u in s.users && At(s.strands, h, i) && i > 0
    requires FlagIs(s, Handle(h, joinable), h, u, closed)
    ensures Tracks(s, i, Next(s, Handle(h, joinable)), i - 1, h, u, closed)
  {
    hide Next, Safe, Enabled, WellFormed, Defined, After, IsMember, Forecast;
    SafeIsWellFormed(s);
    QueueAhead(s, Handle(h, joinable), h, i);
    HandlerDoesAfter(s, h, joinable, u);
    var t := Next(s, Handle(h, joinable));
    AheadKept(s, t, h, i, i - 1);
    AfterByFlag(s.strands[h][0], h, s.users[u].closed, closed, u, IsMember(s.members, h, u));
    PoppedForecast(s, t, h, i, u, closed);
  }

  lemma OtherKeepsForecast(s: System, step: Step, h: HubId, i: nat, u: UserId, closed: bool)
    requires Safe(s) && Enabled(s, step) && u in s.users && At(s.strands, h, i) && !(step.Handle? && step.hub == h)
    ensures Tracks(s, i, Next(s, step), i, h, u, closed)
  {
    hide Next, Safe, Enabled, WellFormed, IsMember, Forecast;
    SafeIsWellFormed(s);
    QueueAhead(s, step, h, i);
    OthersLeaveTheMap(s, step, h, u);
    AheadKept(s, Next(s, step), h, i, i);
    SameForecast(s, Next(s, step), h, i, u, closed);
  }

  lemma SafeIsWellFormed(s: System)
    requires Safe(s)
    ensures WellFormed(s) && OneCarrier(s.strands)
  {
  }

  /** No step of any session or hub changes what is forecast for a queued closure. */
  lemma StepKeepsForecast(s: System, step: Step, h: HubId, i: nat, u: UserId, closed: bool)
    requires Safe(s) && Enabled(s, step) && u in s.users && At(s.strands, h, i) && FlagIs(s, step, h, u, closed)
    requires step.Handle? && step.hub == h ==> i > 0
    ensures Tracks(s, i, Next(s, step), Place(step, h, i), h, u, closed)
  {
    hide Safe, Enabled, Tracks, Next, WellFormed;
    SafeIsWellFormed(s);
    if step.Handle? && step.hub == h {
      HandlerKeepsForecast(s, step.joinable, h, i, u, closed);
    } else {
      OtherKeepsForecast(s, step, h, i, u, closed);
    }
  }

  // ----- runs -----

  /** How often a schedule runs the hub's strand. */
  function Turns(steps: seq<Step>, h: HubId): nat {
    if steps == [] then 0
    else Turns(steps[..|steps| - 1], h) + (if steps[|steps| - 1].Handle? && steps[|steps| - 1].hub == h then 1 else 0)
  }

  /** Some step of the schedule runs the user's receiveUser on the hub's strand. */
  ghost predicate Received(s: System, steps: seq<Step>, h: HubId, u: UserId)
    requires RunFrom(s, steps).Some?
    decreases |steps|
  {
    steps != [] && (
      LastStep(s, steps, h);
      var before := steps[..|steps| - 1];
      Received(s, before, h, u) || Receives(RunFrom(s, before).value, steps[|steps| - 1], h, u))
  }

  /** The closed flag when the user's receiveUser last ran on the hub's strand. */
  ghost function FlagWhenReceived(s: System, steps: seq<Step>, h: HubId, u: UserId): bool
    requires RunFrom(s, steps).Some?
    decreases |steps|
  {
    if steps == [] then false
    else
      LastStep(s, steps, h);
      var before := steps[..|steps| - 1];
      var m := RunFrom(s, before).value;
      if Receives(m, steps[|steps| - 1], h, u) && u in m.users then m.users[u].closed
      else FlagWhenReceived(s, before, h, u)
  }

  lemma NoSteps(s: System, h: HubId)
    ensures RunFrom(s, []) == Some(s) && Turns([], h) == 0
  {
  }

  lemma LastStep(s: System, steps: seq<Step>, h: HubId)
    requires steps != [] && RunFrom(s, steps).Some?
    ensures var before, step := steps[..|steps| - 1], steps[|steps| - 1];
      && RunFrom(s, before).Some? && WellFormed(RunFrom(s, before).value) && Enabled(RunFrom(s, before).value, step)
      && RunFrom(s, steps) == Some(Next(RunFrom(s, before).value, step))
      && Turns(steps, h) == Turns(before, h) + (if step.Handle? && step.hub == h then 1 else 0)
  {
  }

  lemma OneAtMost(q: Strands, h: HubId, u: UserId)
    requires OneCarrier(q) && Carries(q, h, 0, u)
    ensures forall k :: k > 0 ==> !Carries(q, h, k, u)
  {
  }

  /** Once the user's receiveUser has run, no other one is ahead of the closure: a user is carried by one closure. */
  lemma ReceivedAtMostOnce(m: System, step: Step, h: HubId, i: nat, u: UserId)
    requires WellFormed(m) && OneCarrier(m.strands) && Enabled(m, step) && At(m.strands, h, i)
    requires step.Handle? && step.hub == h ==> i > 0
    requires NotCarriedBefore(m.strands, h, i, u) || Receives(m, step, h, u)
    ensures At(Next(m, step).strands, h, Place(step, h, i))
    ensures NotCarriedBefore(Next(m, step).strands, h, Place(step, h, i), u)
  {
    hide Next, Enabled, WellFormed, OneCarrier;
    QueueAhead(m, step, h, i);
    if Receives(m, step, h, u) {
      OneAtMost(m.strands, h, u);
    }
    var t, j := Next(m, step), Place(step, h, i);
    forall k | k < j ensures !Carries(t.strands, h, k, u) {
      assert Carries(t.strands, h, k, u) ==> Carries(m.strands, h, k + (i - j), u);
    }
  }

  /** Over any schedule that has not yet run the closure at position `i`, it keeps its place, and its forecast for the
      flag that the user's receiveUser found. */
  lemma {:induction false} RunKeepsForecast(s: System, steps: seq<Step>, h: HubId, i: nat, u: UserId, closed: bool)
    requires Safe(s) && u in s.users && At(s.strands, h, i) && RunFrom(s, steps).Some? && Turns(steps, h) <= i
    requires Received(s, steps, h, u) ==> closed == FlagWhenReceived(s, steps, h, u)
    ensures var t, j := RunFrom(s, steps).value, i - Turns(steps, h);
      && Safe(t) && Tracks(s, i, t, j, h, u, closed)
      && (Received(s, steps, h, u) ==> NotCarriedBefore(t.strands, h, j, u))
    decreases |steps|
  {
    hide RunFrom, Safe, Enabled, Next, Tracks, NotCarriedBefore, Turns, FlagWhenReceived, Received, Forecast;
    if steps == [] {
      NoSteps(s, h);
      TracksItself(s, i, h, u, closed);
    } else {
      var before, step := steps[..|steps| - 1], steps[|steps| - 1];
      LastStep(s, steps, h);
      var m, k := RunFrom(s, before).value, i - Turns(before, h);
      ReceivedByCase(s, steps, h, u);
      if Received(s, before, h, u) && Receives(m, step, h, u) {
        RunKeepsForecast(s, before, h, i, u, FlagWhenReceived(s, before, h, u));
        HeadIsAhead(m, h, k, u);
      } else {
        RunKeepsForecast(s, before, h, i, u, closed);
        OneStepMore(s, i, m, k, step, h, u, closed);
      }
    }
  }

  lemma ReceivedByCase(s: System, steps: seq<Step>, h: HubId, u: UserId)
    requires steps != [] && RunFrom(s, steps).Some? && RunFrom(s, steps[..|steps| - 1]).Some?
    ensures var before, step := steps[..|steps| - 1], steps[|steps| - 1]; var m := RunFrom(s, before).value;
      && (Received(s, steps, h, u) <==> Received(s, before, h, u) || Receives(m, step, h, u))
      && (!Receives(m, step, h, u) ==> FlagWhenReceived(s, steps, h, u) == FlagWhenReceived(s, before, h, u))
      && (Receives(m, step, h, u) && u in m.users ==> FlagWhenReceived(s, steps, h, u) == m.users[u].closed)
  {
  }

  lemma NothingReceived(s: System, h: HubId, u: UserId)
    requires RunFrom(s, []).Some?
    ensures !Received(s, [], h, u)
  {
  }

  lemma TracksItself(s: System, i: nat, h: HubId, u: UserId, closed: bool)
    requires u in s.users && At(s.strands, h, i)
    ensures Tracks(s, i, s, i, h, u, closed) && RunFrom(s, []) == Some(s) && !Received(s, [], h, u)
  {
    NoSteps(s, h);
    NothingReceived(s, h, u);
  }

  lemma HeadIsAhead(m: System, h: HubId, k: nat, u: UserId)
    requires Carries(m.strands, h, 0, u) && NotCarriedBefore(m.strands, h, k, u)
    ensures k == 0
  {
  }

  lemma OneStepMore(s: System, i: nat, m: System, k: nat, step: Step, h: HubId, u: UserId, closed: bool)
    requires Safe(m) && Enabled(m, step) && Tracks(s, i, m, k, h, u, closed)
    requires step.Handle? && step.hub == h ==> k > 0
    requires FlagIs(m, step, h, u, closed)
    ensures Safe(Next(m, step)) && Tracks(s, i, Next(m, step), Place(step, h, k), h, u, closed)
    ensures NotCarriedBefore(m.strands, h, k, u) || Receives(m, step, h, u)
      ==> NotCarriedBefore(Next(m, step).strands, h, Place(step, h, k), u)
  {
    hide Enabled, Next, Forecast, NotCarriedBefore, WellFormed, Safe, OneCarrier;
    SafeIsWellFormed(m);
    StepSafe(m, step);
    StepKeepsForecast(m, step, h, k, u, closed);
    TracksOn(s, i, m, k, Next(m, step), Place(step, h, k), h, u, closed);
    if NotCarriedBefore(m.strands, h, k, u) || Receives(m, step, h, u) {
      ReceivedAtMostOnce(m, step, h, k, u);
    }
  }

  /** At the head of a strand the forecast is the fact. */
  lemma HeadForecast(t: System, h: HubId, u: UserId, closed: bool)
    requires Safe(t) && At(t.strands, h, 0)
    requires (t.strands[h][0].Send? && t.strands[h][0].user == u) || (h == BOOTH && t.strands[h][0] == Refused(u))
    ensures h in t.members && (Defined(t, h) <==> Forecast(t, h, 0, u, closed))
  {
    assert t.strands[h][..0] == [];
  }

  /** sendUser, queued at position `i` of a hub's strand, finds its user when it comes to run if and only if the
      closures ahead of it leave the user in the map, whatever the interleaving until then; a receiveUser among them
      counts by the closed flag that it found. The same holds for the booth's refusal. */
  lemma SendIsDefinedIff(s: System, steps: seq<Step>, h: HubId, i: nat, u: UserId)
    requires Safe(s) && u in s.users && At(s.strands, h, i) && RunFrom(s, steps).Some? && Turns(steps, h) == i
    requires (s.strands[h][i].Send? && s.strands[h][i].user == u) || (h == BOOTH && s.strands[h][i] == Refused(u))
    ensures var t := RunFrom(s, steps).value;
      && At(t.strands, h, 0) && t.strands[h][0] == s.strands[h][i] && h in t.members
      && (Defined(t, h) <==> Forecast(s, h, i, u, FlagWhenReceived(s, steps, h, u)))
  {
    hide RunFrom, Safe, Forecast, Defined, NotCarriedBefore, Turns, FlagWhenReceived, Received;
    RunKeepsForecast(s, steps, h, i, u, FlagWhenReceived(s, steps, h, u));
    HeadForecast(RunFrom(s, steps).value, h, u, FlagWhenReceived(s, steps, h, u));
  }

  // ----- in plain terms -----

  /** A closure that takes the user out of the hub's map. */
  predicate TakesOut(t: Task, h: HubId, u: UserId) {
    match t
    case Send(v, _) => v == u
    case Remove(v) => v == u
    case Refused(v) => h == BOOTH && v == u
    case _ => false
  }

  /** None of the closures from position `lo` to `hi` takes the user out. */
  ghost predicate Undisturbed(q: seq<Task>, h: HubId, u: UserId, lo: nat, hi: nat)
    requires hi <= |q|
  {
    forall k :: lo <= k < hi ==> !TakesOut(q[k], h, u)
  }

  predicate CarriesNone(q: seq<Task>, u: UserId) {
    forall i :: 0 <= i < |q| ==> !(q[i].Receive? && q[i].user == u)
  }

  lemma {:induction false} StaysIff(q: seq<Task>, h: HubId, closed: bool, u: UserId, here: bool)
    requires CarriesNone(q, u)
    ensures Stays(q, h, closed, u, here) <==> here && forall i :: 0 <= i < |q| ==> !TakesOut(q[i], h, u)
  {
    if q != [] {
      var rest := q[1..];
      assert forall i :: 0 < i < |q| ==> q[i] == rest[i - 1];
      assert !(q[0].Receive? && q[0].user == u);
      StaysIff(rest, h, closed, u, After(q[0], h, closed, u, here));
    }
  }

  lemma {:induction false} StaysSplit(a: seq<Task>, b: seq<Task>, h: HubId, closed: bool, u: UserId, here: bool)
    ensures Stays(a + b, h, closed, u, here) == Stays(b, h, closed, u, Stays(a, h, closed, u, here))
  {
    if a == [] {
      assert a + b == b;
    } else {
      assert (a + b)[1..] == a[1..] + b;
      StaysSplit(a[1..], b, h, closed, u, After(a[0], h, closed, u, here));
    }
  }

  lemma NotAhead(q: Strands, h: HubId, i: nat, u: UserId)
    requires At(q, h, i) && NotCarriedBefore(q, h, i, u)
    ensures CarriesNone(q[h][..i], u)
  {
    forall k | 0 <= k < i ensures !(q[h][k].Receive? && q[h][k].user == u) {
      assert !Carries(q, h, k, u);
    }
  }

  /** The forecast when no closure ahead brings the user in. */
  lemma ForecastOfMember(s: System, h: HubId, i: nat, u: UserId, closed: bool)
    requires At(s.strands, h, i) && NotCarriedBefore(s.strands, h, i, u)
    ensures Forecast(s, h, i, u, closed) <==> IsMember(s.members, h, u) && Undisturbed(s.strands[h], h, u, 0, i)
  {
    hide TakesOut, NotCarriedBefore;
    NotAhead(s.strands, h, i, u);
    StaysIff(s.strands[h][..i], h, closed, u, IsMember(s.members, h, u));
    assert forall k :: 0 <= k < i ==> s.strands[h][..i][k] == s.strands[h][k];
  }

  /** The forecast when the closure at position `r` brings the user in. */
  lemma ForecastOfCarried(s: System, h: HubId, i: nat, u: UserId, closed: bool, r: nat)
    requires Safe(s) && At(s.strands, h, i) && r < i && Carries(s.strands, h, r, u)
    ensures Forecast(s, h, i, u, closed) <==> !closed && Undisturbed(s.strands[h], h, u, r + 1, i)
  {
    var q := s.strands[h];
    CarriedIsNoMember(s, h, r, u);
    forall k | 0 <= k < i && k != r ensures !(q[k].Receive? && q[k].user == u) {
      assert Carries(s.strands, h, k, u) ==> k == r;
    }
    hide Safe, TakesOut;
    var a, b := q[..r], q[r + 1..i];
    assert q[..i] == a + ([q[r]] + b);
    StaysSplit(a, [q[r]] + b, h, closed, u, false);
    StaysIff(a, h, closed, u, false);
    assert ([q[r]] + b)[1..] == b;
    StaysIff(b, h, closed, u, !closed);
    assert forall k :: r + 1 <= k < i ==> q[k] == b[k - (r + 1)];
  }

  lemma CarriedIsNoMember(s: System, h: HubId, r: nat, u: UserId)
    requires Safe(s) && Carries(s.strands, h, r, u)
    ensures !IsMember(s.members, h, u)
    ensures forall k :: Carries(s.strands, h, k, u) ==> k == r
  {
    if IsMember(s.members, h, u) {
      MemberIsHere(s, h, u);
      assert false;
    }
  }

  /** sendUser finds its user if and only if, of the closures ahead of it when it was queued, none takes the user out
      after the user came in: the user was in the map already, or one of them brings the user in and found the
      connection still open. */
  lemma SendFindsUserIff(s: System, steps: seq<Step>, h: HubId, i: nat, u: UserId)
    requires Safe(s) && u in s.users && At(s.strands, h, i) && RunFrom(s, steps).Some? && Turns(steps, h) == i
    requires (s.strands[h][i].Send? && s.strands[h][i].user == u) || (h == BOOTH && s.strands[h][i] == Refused(u))
    ensures var t := RunFrom(s, steps).value;
      && At(t.strands, h, 0) && t.strands[h][0] == s.strands[h][i] && h in t.members
      && (NotCarriedBefore(s.strands, h, i, u) ==>
            (Defined(t, h) <==> IsMember(s.members, h, u) && Undisturbed(s.strands[h], h, u, 0, i)))
      && forall r: nat :: r < i && Carries(s.strands, h, r, u) ==>
            (Defined(t, h) <==>
               !FlagWhenReceived(s, steps, h, u) && Undisturbed(s.strands[h], h, u, r + 1, i))
  {
    hide RunFrom, Safe, Defined, Turns, Forecast, Undisturbed, NotCarriedBefore, Carries, FlagWhenReceived;
    var closed := FlagWhenReceived(s, steps, h, u);
    SendIsDefinedIff(s, steps, h, i, u);
    if NotCarriedBefore(s.strands, h, i, u) {
      ForecastOfMember(s, h, i, u, closed);
    }
    forall r: nat | r < i && Carries(s.strands, h, r, u)
      ensures Forecast(s, h, i, u, closed) <==> !closed && Undisturbed(s.strands[h], h, u, r + 1, i)
    {
      ForecastOfCarried(s, h, i, u, closed, r);
    }
  }
}
