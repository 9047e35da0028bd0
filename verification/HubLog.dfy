/** Which commands are executed, and when: a run's log is exactly the commands whose closures came to run while their
    users were in the hub's map, and for a queued command that is settled by the map and the closures ahead of it
    (Common/Libs/Server/Hub/Hub.cpp, AddEvent; User/User.cpp, RequestAddEvent). */
module HubLog {
  import opened Common
  import opened HubProtocol
  import opened HubSafety
  import opened HubRuns
  import opened HubForecast

  // ----- from the session to the strand -----

  /** A command that was read is bound for the hub that its user points at, and for no hub when there is none. */
  lemma ReadCommandBinds(s: System, u: UserId, failed: bool, move: Option<HubId>)
    requires Safe(s) && Enabled(s, ReadCommand(u, failed, move))
    ensures var t, c := Next(s, ReadCommand(u, failed, move)), Command(u, |s.users[u].sent|, failed, move);
      && t.users[u].sent == s.users[u].sent + [c]
      && (forall h :: IsMember(s.members, h, u) ==> t.users[u].activity == Posting(c, h))
      && (s.users[u].hub.None? ==> t.users[u].activity == Idle)
      && t.strands == s.strands && t.members == s.members && t.log == s.log
  {
    PointsHere(s, u);
  }

  /** A command that did not fail is queued last on the hub that it was bound for, whatever it asks for; a failed one is
      dropped. */
  lemma PostCommandQueues(s: System, u: UserId)
    requires Safe(s) && Enabled(s, PostCommand(u))
    ensures var t, c, h := Next(s, PostCommand(u)), s.users[u].activity.cmd, s.users[u].activity.hub;
      && t.strands.Keys == s.strands.Keys && h in s.strands
      && t.strands[h] == s.strands[h] + (if c.failed then [] else [Execute(c)])
      && (forall k :: k in s.strands && k != h ==> t.strands[k] == s.strands[k])
      && t.members == s.members && t.log == s.log && t.users[u].activity == Idle
  {
  }

  // ----- from the strand to the log -----

  /** A command at the head of a strand: what runs and what it posts. */
  lemma CommandRuns(s: System, h: HubId, joinable: bool, c: Command)
    requires Safe(s) && Enabled(s, Handle(h, joinable)) && s.strands[h][0] == Execute(c)
    ensures var t, runs := Next(s, Handle(h, joinable)), c.owner != 0 && IsMember(s.members, h, c.owner);
      && (t.log == s.log + [Entry(c, h)] <==> runs) && (t.log == s.log <==> !runs)
      && c.owner in s.users && c.owner in t.users
      && t.users[c.owner].done == (if runs then c.seqNo + 1 else s.users[c.owner].done)
      && t.members == s.members && (c.move.Some? ==> c.move.value in Popped(s.strands, h))
      && t.strands == (if runs && c.move.Some? then Appended(Popped(s.strands, h), c.move.value, Reply(c.owner, h))
                       else Popped(s.strands, h))
  {
    ExecutionIsOwned(s, Handle(h, joinable));
    PopKnown(s, h);
  }

  /** The entries of a schedule, read off the strands' heads and the maps. */
  ghost function Executions(s: System, steps: seq<Step>): seq<Entry>
    requires RunFrom(s, steps).Some?
    decreases |steps|
  {
    if steps == [] then []
    else
      LastStep(s, steps, 0);
      var before := steps[..|steps| - 1];
      Executions(s, before) + LoggedBy(RunFrom(s, before).value, steps[|steps| - 1])
  }

  /** The log of a run is exactly that. */
  lemma {:induction false} RunLogs(s: System, steps: seq<Step>)
    requires Safe(s) && RunFrom(s, steps).Some?
    ensures RunFrom(s, steps).value.log == s.log + Executions(s, steps)
    decreases |steps|
  {
    hide Safe, Next, Enabled, LoggedBy, WellFormed;
    if steps != [] {
      var before := steps[..|steps| - 1];
      LastStep(s, steps, 0);
      RunLogs(s, before);
      RunFromSafe(s, before);
      ExecutionIsOwned(RunFrom(s, before).value, steps[|steps| - 1]);
    }
  }

  /** Step `n` of the schedule executes the command of `e`. */
  ghost predicate ExecutedAtStep(s: System, steps: seq<Step>, n: nat, e: Entry)
    requires n < |steps|
  {
    RunFrom(s, steps[..n]).Some? && LoggedBy(RunFrom(s, steps[..n]).value, steps[n]) == [e]
  }

  /** Over every run: a command is in the log if and only if its closure came to run while its user was in that hub's
      map. */
  lemma {:induction false} LoggedIff(s: System, steps: seq<Step>, e: Entry)
    requires Safe(s) && RunFrom(s, steps).Some? && e !in s.log
    ensures e in RunFrom(s, steps).value.log <==> exists n :: 0 <= n < |steps| && ExecutedAtStep(s, steps, n, e)
    decreases |steps|
  {
    hide Safe, Next, Enabled, LoggedBy, WellFormed, RunFrom;
    if steps == [] {
      NoSteps(s, 0);
    } else {
      var n := |steps| - 1;
      var before := steps[..n];
      LastStep(s, steps, 0);
      LoggedIff(s, before, e);
      RunFromSafe(s, before);
      ExecutionIsOwned(RunFrom(s, before).value, steps[n]);
      AtMostOne(RunFrom(s, before).value, steps[n]);
      forall k: nat | k < n ensures ExecutedAtStep(s, steps, k, e) <==> ExecutedAtStep(s, before, k, e) {
        assert before[..k] == steps[..k];
      }
      assert e in LoggedBy(RunFrom(s, before).value, steps[n]) <==> ExecutedAtStep(s, steps, n, e);
    }
  }

  lemma AtMostOne(s: System, step: Step)
    ensures |LoggedBy(s, step)| <= 1
  {
  }

  /** A command queued at position `i` of a hub's strand is executed when its turn comes if and only if the closures
      ahead of it leave its user in the map, whatever the interleaving until then. */
  lemma QueuedCommandRunsIff(s: System, steps: seq<Step>, h: HubId, i: nat, c: Command, joinable: bool)
    requires Safe(s) && At(s.strands, h, i) && s.strands[h][i] == Execute(c)
    requires RunFrom(s, steps).Some? && Turns(steps, h) == i
    ensures var t := RunFrom(s, steps).value;
      && At(t.strands, h, 0) && t.strands[h][0] == Execute(c) && Safe(t) && Enabled(t, Handle(h, joinable))
      && Next(t, Handle(h, joinable)).log
           == t.log + (if Forecast(s, h, i, c.owner, FlagWhenReceived(s, steps, h, c.owner)) then [Entry(c, h)] else [])
  {
    hide RunFrom, Safe, Forecast, NotCarriedBefore, Turns, FlagWhenReceived, Received, Next;
    OwnerKnown(s, h, i, c);
    RunKeepsForecast(s, steps, h, i, c.owner, FlagWhenReceived(s, steps, h, c.owner));
    var t := RunFrom(s, steps).value;
    HeadCommand(t, h, c, joinable, FlagWhenReceived(s, steps, h, c.owner));
    ExecutionIsOwned(t, Handle(h, joinable));
  }

  lemma OwnerKnown(s: System, h: HubId, i: nat, c: Command)
    requires Safe(s) && At(s.strands, h, i) && s.strands[h][i] == Execute(c)
    ensures c.owner in s.users && c.owner != 0
  {
    assert TaskKnown(s, s.strands[h][i]) && UserKnown(s, c.owner);
  }

  lemma HeadCommand(t: System, h: HubId, c: Command, joinable: bool, closed: bool)
    requires Safe(t) && At(t.strands, h, 0) && t.strands[h][0] == Execute(c)
    ensures Enabled(t, Handle(h, joinable))
    ensures Executes(t, Handle(h, joinable)) <==> Forecast(t, h, 0, c.owner, closed)
  {
    OwnerKnown(t, h, 0, c);
    assert t.strands[h][..0] == [];
  }

  /** In plain terms, when no closure ahead brings the user in: the user is in the map and none of them takes the user
      out. */
  lemma MembersCommandRunsIff(s: System, steps: seq<Step>, h: HubId, i: nat, c: Command, joinable: bool)
    requires Safe(s) && At(s.strands, h, i) && s.strands[h][i] == Execute(c)
    requires NotCarriedBefore(s.strands, h, i, c.owner)
    requires RunFrom(s, steps).Some? && Turns(steps, h) == i
    ensures var t := RunFrom(s, steps).value;
      && Safe(t) && Enabled(t, Handle(h, joinable))
      && Next(t, Handle(h, joinable)).log
           == t.log + (if IsMember(s.members, h, c.owner) && Undisturbed(s.strands[h], h, c.owner, 0, i)
                       then [Entry(c, h)] else [])
  {
    hide RunFrom, Safe, Forecast, NotCarriedBefore, Turns, FlagWhenReceived, Received, Next, Enabled, Undisturbed;
    QueuedCommandRunsIff(s, steps, h, i, c, joinable);
    ForecastOfMember(s, h, i, c.owner, FlagWhenReceived(s, steps, h, c.owner));
  }
}
