/** Safety of the whole system: the bookkeeping every reachable state satisfies. */
module SystemLaws {
  import opened Wrappers
  import opened Utf8
  import opened Decimal
  import opened Protocol
  import opened Server
  import opened Daemon
  import opened System

  /** Sessions are numbered without gaps, and each has its channel. */
  ghost predicate Numbered(s: State) {
    && (forall sid: nat :: sid in s.sessions <==> sid < s.reg.nextId)
    && (forall sid: nat :: sid in s.queues <==> sid < s.reg.nextId)
    && (s.pc.HandingOff? ==> s.pc.sid in s.reg.table)
    && (s.pc.Down? ==> s.reg.table == map[])
  }

  /** Only sessions off the table are aborted or see their channel close; an ended session keeps no one waiting. */
  ghost predicate Accounted(s: State) {
    && (forall sid: nat :: sid in s.finished ==> HasEnded(s, sid))
    && (forall sid: nat :: sid in s.aborting ==> sid < s.reg.nextId && sid !in s.reg.table)
    && (forall sid: nat :: HasEnded(s, sid) && sid in s.queues ==> s.queues[sid] == [])
    && (forall sid: nat :: HasEnded(s, sid) && s.sessions[sid].phase.why == Aborted ==> sid in s.aborting)
    && (forall sid: nat :: HasEnded(s, sid) && s.sessions[sid].phase.why == ChannelClosed ==> sid !in s.reg.table)
  }

  ghost predicate Sound(s: State) {
    WellFormed(s.reg) && Numbered(s) && Accounted(s)
  }

  lemma TableBelow(reg: Registry)
    requires WellFormed(reg)
    ensures forall id :: id in reg.table ==> id < reg.nextId
  {
  }

  lemma KillDelists(reg: Registry, target: Str, sight: Sight)
    ensures var (after, outcome) := Serve(reg, KillSession(target), sight);
            !outcome.stop && forall sid :: sid in outcome.aborted ==> sid in reg.table && sid !in after.table
  {
    hide Resolve, Resolves, Reap, Complaint, FromAscii;
    var live := Reap(reg.table, sight.finished);
    ReapLeaves(reg.table, sight.finished);
    ResolvedListed(live, target);
    if Resolve(live, target).Some? {
      ReapLeaves(live, {Resolve(live, target).value});
    }
  }

  lemma OthersAbort(reg: Registry, f: Frame, sight: Sight)
    requires !f.KillSession?
    ensures var (after, outcome) := Serve(reg, f, sight);
            && outcome.aborted == (if f.KillServer? then reg.table.Keys else {})
            && (outcome.stop <==> f.KillServer?) && (f.KillServer? ==> after.table == map[])
  {
    hide Resolve, Resolves, Listing, Taken, Reap, Complaint, FromAscii, Valid, Print;
  }

  lemma ServeAborts(reg: Registry, f: Frame, sight: Sight)
    ensures var (after, outcome) := Serve(reg, f, sight);
            && (forall sid :: sid in outcome.aborted ==> sid in reg.table && sid !in after.table)
            && (outcome.stop ==> after.table == map[])
  {
    hide Serve;
    if f.KillSession? {
      KillDelists(reg, f.session, sight);
    } else {
      OthersAbort(reg, f, sight);
    }
  }

  /** A request leaves every session task as it is and may add a fresh one. */
  lemma ServeSteps(s: State, f: Frame)
    requires Possible(s, Request(f))
    ensures
      var (reg, outcome) := Serve(s.reg, f, SightOf(s));
      var after := DoRequest(s, f);
      var created := outcome.reply.SessionCreated?;
      && after.reg == reg && after.finished == s.finished && after.aborting == s.aborting + outcome.aborted
      && after.sessions == (if created then s.sessions[s.reg.nextId := FRESH] else s.sessions)
      && after.queues == (if created then s.queues[s.reg.nextId := []] else s.queues)
      && (after.pc.HandingOff? ==> outcome.handTo == Some(after.pc.sid))
      && (after.pc.Down? <==> outcome.stop)
  {
    hide Serve, SightOf;
  }

  /** No session ends by a request. */
  lemma EndedAsBefore(s: State, f: Frame, sid: nat)
    requires Sound(s) && Possible(s, Request(f))
    ensures HasEnded(DoRequest(s, f), sid) <==> HasEnded(s, sid)
  {
    ServeSteps(s, f);
    assert !FRESH.phase.Ended? && s.reg.nextId !in s.sessions;
    hide Serve, SightOf, DoRequest, WellFormed;
  }

  lemma NumberedRequest(s: State, f: Frame)
    requires Sound(s) && Possible(s, Request(f))
    ensures Numbered(DoRequest(s, f))
  {
    hide Serve, WellFormed, SightOf, DoRequest, Accounted, Possible;
    ServeIssues(s.reg, f, SightOf(s));
    ServeAborts(s.reg, f, SightOf(s));
    ServeSteps(s, f);
  }

  /** What is accounted for stays so while sessions run on, the table loses entries and aborts are added for them. */
  lemma AccountedFrame(s: State, after: State)
    requires Accounted(s) && s.reg.nextId <= after.reg.nextId
    requires forall sid: nat :: HasEnded(after, sid) <==> HasEnded(s, sid)
    requires forall sid: nat :: HasEnded(s, sid) && sid in after.queues && sid in s.queues ==>
      after.queues[sid] == s.queues[sid]
    requires forall sid: nat :: HasEnded(s, sid) ==>
      sid in after.sessions && after.sessions[sid] == s.sessions[sid] && sid in s.queues
    requires forall sid: nat :: sid in after.reg.table ==> sid in s.reg.table || sid >= s.reg.nextId
    requires forall sid: nat :: HasEnded(s, sid) ==> sid < s.reg.nextId
    requires after.finished == s.finished && s.aborting <= after.aborting
    requires forall sid: nat :: sid in after.aborting && sid !in s.aborting ==>
      sid in s.reg.table && sid !in after.reg.table
    requires forall sid: nat :: sid in s.reg.table ==> sid < s.reg.nextId
    ensures Accounted(after)
  {
    hide HasEnded;
  }

  lemma AccountedRequest(s: State, f: Frame)
    requires Sound(s) && Possible(s, Request(f))
    ensures Accounted(DoRequest(s, f))
  {
    ServeKeepsIdentity(s.reg, f, SightOf(s));
    ServeIssues(s.reg, f, SightOf(s));
    ServeAborts(s.reg, f, SightOf(s));
    TableBelow(s.reg);
    ServeSteps(s, f);
    hide Serve, WellFormed, SightOf, DoRequest, Possible;
    var after := DoRequest(s, f);
    forall sid: nat
      ensures HasEnded(after, sid) <==> HasEnded(s, sid)
      ensures HasEnded(s, sid) ==> after.sessions[sid] == s.sessions[sid] && after.queues[sid] == s.queues[sid]
    {
      assert !FRESH.phase.Ended?;
    }
    AccountedFrame(s, after);
  }

  lemma TurnEnds(s: Session, e: Event)
    requires Enabled(s, e)
    ensures !s.phase.Ended?
    ensures Step(s, e).0.phase == Ended(Aborted) ==> e.Abort?
    ensures Step(s, e).0.phase == Ended(ChannelClosed) ==> e.RecvClosed?
  {
  }

  lemma SoundTurn(s: State, sid: nat, e: Event)
    requires Sound(s) && TurnEnabled(s, sid, e)
    ensures Sound(DoTurn(s, sid, e))
  {
    hide WellFormed;
    var next := Step(s.sessions[sid], e).0;
    var after := DoTurn(s, sid, e);
    TurnEnds(s.sessions[sid], e);
    hide Step, Enabled;
    forall other: nat
      ensures HasEnded(after, other) <==> if other == sid then next.phase.Ended? else HasEnded(s, other)
    {}
    assert !s.sessions[sid].phase.Ended?;
  }

  lemma SoundHandOff(s: State)
    requires Sound(s) && Possible(s, HandOff)
    ensures Sound(DoHandOff(s))
  {
    hide WellFormed;
    var after := DoHandOff(s);
    assert forall sid: nat :: HasEnded(after, sid) <==> HasEnded(s, sid);
    hide HasEnded;
  }

  lemma SoundTaskDone(s: State, sid: nat)
    requires Sound(s) && Possible(s, TaskDone(sid))
    ensures Sound(Next(s, TaskDone(sid)))
  {
    hide WellFormed;
    var after := Next(s, TaskDone(sid));
    assert forall sid: nat :: HasEnded(after, sid) <==> HasEnded(s, sid);
    hide HasEnded;
  }

  /** The daemon's own steps: the table shrinks, and what it aborts it has dropped. */
  lemma SoundDaemonStep(s: State, e: SysEvent)
    requires Sound(s) && Possible(s, e)
    requires e.ReapTable? || e.Accept? || e.NoRequest? || e.Signal? || e.ListenerFailed?
    ensures Sound(Next(s, e))
  {
    ReapedWellFormed(s.reg, s.finished);
    EmptyWellFormed(s.reg);
    TableBelow(s.reg);
    hide WellFormed;
    var after := Next(s, e);
    assert forall sid: nat :: HasEnded(after, sid) <==> HasEnded(s, sid);
    AccountedFrame(s, after);
    hide Accounted, HasEnded;
  }

  lemma SoundNext(s: State, e: SysEvent)
    requires Sound(s) && Possible(s, e)
    ensures Sound(Next(s, e))
  {
    hide WellFormed, Numbered, Accounted, Serve;
    match e {
      case Request(f) =>
        ServeKeepsWellFormed(s.reg, f, SightOf(s));
        NumberedRequest(s, f);
        AccountedRequest(s, f);
      case Turn(sid, event) => SoundTurn(s, sid, event);
      case HandOff => SoundHandOff(s);
      case TaskDone(sid) => SoundTaskDone(s, sid);
      case _ => SoundDaemonStep(s, e);
    }
  }

  /** Every reachable state is sound. */
  lemma {:induction false} AlwaysSound(events: seq<SysEvent>)
    requires Feasible(events)
    ensures Sound(After(events))
    decreases |events|
  {
    if events == [] {
    } else {
      hide Sound, Next, Possible;
      AlwaysSound(events[..|events| - 1]);
      SoundNext(After(events[..|events| - 1]), events[|events| - 1]);
    }
  }
}
