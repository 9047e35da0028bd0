/** The theorems about whole runs of the hubs, over every interleaving of sessions, strands, moves and closings. */
module HubRuns {
  import opened Common
  import opened HubProtocol
  import opened HubSafety

  /** The server at start: hubs without users, the booth accepting with ID 1. */
  function Initial(hubs: set<HubId>): System {
    System(map h | h in hubs + {BOOTH} :: map[], map h | h in hubs + {BOOTH} :: [], map[], 1, 1, [])
  }

  /** The state after a schedule of steps; None when some step of it is not enabled. */
  ghost function RunFrom(s: System, steps: seq<Step>): Option<System>
    decreases |steps|
  {
    if steps == [] then Some(s)
    else match RunFrom(s, steps[..|steps| - 1])
      case None => None
      case Some(t) =>
        if WellFormed(t) && Enabled(t, steps[|steps| - 1]) then Some(Next(t, steps[|steps| - 1])) else None
  }

  ghost function Run(hubs: set<HubId>, steps: seq<Step>): Option<System> {
    RunFrom(Initial(hubs), steps)
  }

  lemma InitialSafe(hubs: set<HubId>)
    ensures Safe(Initial(hubs))
  {
  }

  lemma {:induction false} RunFromSafe(s: System, steps: seq<Step>)
    requires Safe(s) && RunFrom(s, steps).Some?
    ensures Safe(RunFrom(s, steps).value)
    decreases |steps|
  {
    if steps != [] {
      RunFromSafe(s, steps[..|steps| - 1]);
      StepSafe(RunFrom(s, steps[..|steps| - 1]).value, steps[|steps| - 1]);
    }
  }

  /** Every reachable state satisfies all invariants. */
  lemma EveryRunIsSafe(hubs: set<HubId>, steps: seq<Step>)
    requires Run(hubs, steps).Some?
    ensures Safe(Run(hubs, steps).value)
  {
    InitialSafe(hubs);
    RunFromSafe(Initial(hubs), steps);
  }

  // ----- ownership -----

  /** In every reachable state a user is in at most one hub's map, or carried by exactly one closure, never both; the
      map key is the user's ID and the user points back at the hub; a user in flight points nowhere; IDs are fresh. */
  lemma SingleOwner(hubs: set<HubId>, steps: seq<Step>, u: UserId)
    requires Run(hubs, steps).Some?
    ensures var s := Run(hubs, steps).value;
      && (forall h :: IsMember(s.members, h, u) ==>
            s.members[h][u] == u && u in s.users && s.users[u].hub == Some(h))
      && (forall h, k :: IsMember(s.members, h, u) && IsMember(s.members, k, u) ==> h == k)
      && (forall h, k, i :: IsMember(s.members, h, u) ==> !Carries(s.strands, k, i, u))
      && (forall h, i, k, j :: Carries(s.strands, h, i, u) && Carries(s.strands, k, j, u) ==> h == k && i == j)
      && (forall h, i :: Carries(s.strands, h, i, u) ==> u in s.users && s.users[u].hub == None)
      && (forall h :: !IsMember(s.members, h, s.nextUserID)) && s.nextUserID !in s.users
      && s.acceptingID == s.nextUserID
  {
    EveryRunIsSafe(hubs, steps);
    var s := Run(hubs, steps).value;
    forall h | IsMember(s.members, h, u)
      ensures s.members[h][u] == u && u in s.users && s.users[u].hub == Some(h)
      ensures forall k :: IsMember(s.members, k, u) ==> h == k
      ensures forall k, i :: !Carries(s.strands, k, i, u)
    {
      MemberIsHere(s, h, u);
    }
    forall h, i | Carries(s.strands, h, i, u) ensures u in s.users && s.users[u].hub == None {
      assert TaskKnown(s, s.strands[h][i]);
    }
    FreshID(s);
  }

  lemma FreshID(s: System)
    requires WellFormed(s)
    ensures s.nextUserID !in s.users && forall h :: !IsMember(s.members, h, s.nextUserID)
  {
    assert s.nextUserID in s.users ==> UserKnown(s, s.nextUserID);
    forall h ensures !IsMember(s.members, h, s.nextUserID) {
      assert IsMember(s.members, h, s.nextUserID) ==> MemberKnown(s, h, s.nextUserID);
    }
  }

  // ----- execution -----

  /** This step takes a command off a strand while its user is in that hub's map. */
  predicate Executes(s: System, step: Step) {
    && step.Handle? && At(s.strands, step.hub, 0) && s.strands[step.hub][0].Execute?
    && s.strands[step.hub][0].cmd.owner != 0 && IsMember(s.members, step.hub, s.strands[step.hub][0].cmd.owner)
  }

  /** The log entries of a step. */
  function LoggedBy(s: System, step: Step): seq<Entry> {
    if Executes(s, step) then [Entry(s.strands[step.hub][0].cmd, step.hub)] else []
  }

  /** A command is executed exactly when AddEvent's closure comes to run while its user is in the hub's map; then the
      hub is the only one that owns the user. Executing moves the user's counter past the command, and nothing else
      does. */
  lemma ExecutionIsOwned(s: System, step: Step)
    requires Safe(s) && Enabled(s, step)
    ensures Next(s, step).log == s.log + LoggedBy(s, step)
    ensures forall u :: u in s.users ==>
      && u in Next(s, step).users
      && Next(s, step).users[u].done ==
           if Executes(s, step) && u == s.strands[step.hub][0].cmd.owner then s.strands[step.hub][0].cmd.seqNo + 1
           else s.users[u].done
    ensures Executes(s, step) ==>
      var c := s.strands[step.hub][0].cmd;
      && c.owner in s.users && s.users[c.owner].hub == Some(step.hub)
      && (forall k :: IsMember(s.members, k, c.owner) ==> k == step.hub)
  {
    FreshID(s);
    if step.Handle? {
      HandlerLogs(s, step.hub, step.joinable);
      if Executes(s, step) {
        MemberIsHere(s, step.hub, s.strands[step.hub][0].cmd.owner);
      }
    }
  }

  lemma HandlerLogs(s: System, h: HubId, joinable: bool)
    requires WellFormed(s) && Enabled(s, Handle(h, joinable))
    ensures var t, step := Next(s, Handle(h, joinable)), Handle(h, joinable);
      && t.log == s.log + LoggedBy(s, step)
      && forall u :: u in s.users ==>
           && u in t.users
           && t.users[u].done ==
                if Executes(s, step) && u == s.strands[h][0].cmd.owner then s.strands[h][0].cmd.seqNo + 1
                else s.users[u].done
  {
    PopKnown(s, h);
  }

  /** Over every run, including A to B and back to A, the commands executed for a user are commands its session sent,
      none twice, in the order in which they were sent. */
  lemma ExecutedInSendingOrder(hubs: set<HubId>, steps: seq<Step>, i: nat, j: nat)
    requires Run(hubs, steps).Some? && i < j < |Run(hubs, steps).value.log|
    requires Run(hubs, steps).value.log[i].cmd.owner == Run(hubs, steps).value.log[j].cmd.owner
    ensures var s := Run(hubs, steps).value;
      var u := s.log[i].cmd.owner;
      && u in s.users
      && s.log[i].cmd.seqNo < s.log[j].cmd.seqNo < |s.users[u].sent|
      && s.users[u].sent[s.log[i].cmd.seqNo] == s.log[i].cmd
      && s.users[u].sent[s.log[j].cmd.seqNo] == s.log[j].cmd
  {
    EveryRunIsSafe(hubs, steps);
    var s := Run(hubs, steps).value;
    assert EntryKnown(s.users, s.log[i]) && EntryKnown(s.users, s.log[j]);
  }

  // ----- closing -----

  /** Once the closed flag is set it stays set, and no step puts the user into any hub's map. */
  lemma ClosedGainsNothing(s: System, step: Step, u: UserId)
    requires Safe(s) && Enabled(s, step) && u in s.users && s.users[u].closed
    ensures u in Next(s, step).users && Next(s, step).users[u].closed
    ensures forall h :: IsMember(Next(s, step).members, h, u) ==> IsMember(s.members, h, u)
  {
    if step.Handle? {
      forall h | IsMember(Next(s, step).members, h, u) ensures IsMember(s.members, h, u) {
        HandlerFrame(s, step.hub, step.joinable, h, u);
      }
      HandlerFrame(s, step.hub, step.joinable, BOOTH, u);
    } else if step.Accept? {
      assert UserKnown(s, u);
    }
  }

  /** The same over any continuation of a run. */
  lemma {:induction false} ClosedStaysOut(s: System, steps: seq<Step>, u: UserId)
    requires Safe(s) && u in s.users && s.users[u].closed && RunFrom(s, steps).Some?
    ensures var t := RunFrom(s, steps).value;
      && u in t.users && t.users[u].closed
      && forall h :: IsMember(t.members, h, u) ==> IsMember(s.members, h, u)
    decreases |steps|
  {
    if steps != [] {
      var before := steps[..|steps| - 1];
      ClosedStaysOut(s, before, u);
      RunFromSafe(s, before);
      ClosedGainsNothing(RunFrom(s, before).value, steps[|steps| - 1], u);
    }
  }

  /** A closed user still in some hub's map: the closer has not read the hub pointer, or has just read this very hub, or
      the removal is queued on this hub's own strand. */
  lemma ClosedIsBeingRemoved(hubs: set<HubId>, steps: seq<Step>, u: UserId, h: HubId)
    requires Run(hubs, steps).Some?
    requires var s := Run(hubs, steps).value; u in s.users && s.users[u].closed && IsMember(s.members, h, u)
    ensures var s := Run(hubs, steps).value;
      s.users[u].activity.Closing? || s.users[u].activity == ClosingAt(h) || RemovalQueued(s.strands, h, u)
  {
    EveryRunIsSafe(hubs, steps);
  }

  /** When the closer is done and no removal is queued any more, the user is in no hub's map, and never will be. */
  lemma ClosedIsGoneForGood(hubs: set<HubId>, steps: seq<Step>, later: seq<Step>, u: UserId)
    requires Run(hubs, steps).Some?
    requires var s := Run(hubs, steps).value;
      && u in s.users && s.users[u].closed && (s.users[u].activity.Idle? || s.users[u].activity.Posting?)
      && (forall h :: !RemovalQueued(s.strands, h, u))
      && RunFrom(s, later).Some?
    ensures forall h :: !IsMember(RunFrom(Run(hubs, steps).value, later).value.members, h, u)
  {
    EveryRunIsSafe(hubs, steps);
    var s := Run(hubs, steps).value;
    ClosedStaysOut(s, later, u);
    assert forall h :: !IsMember(s.members, h, u);
  }

  /** A closed user in flight is dropped on arrival. */
  lemma ClosedInFlightIsDropped(s: System, h: HubId, joinable: bool, u: UserId)
    requires Safe(s) && Enabled(s, Handle(h, joinable)) && s.strands[h][0] == Receive(u, u)
    requires u in s.users && s.users[u].closed
    ensures Next(s, Handle(h, joinable)) == Pop(s, h)
    ensures forall k :: !IsMember(Next(s, Handle(h, joinable)).members, k, u)
  {
    assert Carries(s.strands, h, 0, u);
    forall k ensures !IsMember(s.members, k, u) {
      if IsMember(s.members, k, u) {
        MemberIsHere(s, k, u);
      }
    }
  }
}
