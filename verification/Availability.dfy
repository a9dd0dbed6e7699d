/**
 Who can be reached: a session nobody killed stays listed until it ends, its number leads a reconnecting
 client back to it, and only a request that names a session, or the end of the daemon, aborts it.
 */
module Availability {
  import opened Wrappers
  import opened Sequences
  import opened Utf8
  import opened Decimal
  import opened Protocol
  import opened Server
  import opened Daemon
  import opened System
  import opened SystemLaws
  import opened Connections
  import opened SystemRuns

  /** A session that is off the table has ended, was aborted, or the daemon is down. */
  ghost predicate Listed(s: State) {
    forall sid: nat :: sid < s.reg.nextId && sid !in s.reg.table ==> HasEnded(s, sid) || sid in s.aborting || s.pc.Down?
  }

  lemma ServeDelists(reg: Registry, f: Frame, sight: Sight)
    ensures
      var (after, outcome) := Serve(reg, f, sight);
      && (forall sid :: sid in reg.table && sid !in after.table ==>
            sid in sight.finished || sid in sight.closed || sid in outcome.aborted || outcome.stop)
      && (outcome.reply.SessionCreated? ==> reg.nextId in after.table)
  {
    hide Taken, Listing, Reap, Resolve, Resolves, Valid, FromAscii, Print;
    var reaped := Reap(reg.table, sight.finished);
    ReapLeaves(reg.table, sight.finished);
    if f.Attach? || f.KillSession? {
      var found := Resolve(reaped, f.session);
      if found.Some? {
        ReapLeaves(reaped, {found.value});
      }
    }
  }

  lemma ListedRequest(s: State, f: Frame)
    requires Sound(s) && Listed(s) && Possible(s, Request(f))
    ensures Listed(DoRequest(s, f))
  {
    var sight := SightOf(s);
    assert s.pc.Serving?;
    assert forall sid: nat :: sid in sight.finished || sid in sight.closed ==> HasEnded(s, sid);
    hide Serve, SightOf, DoRequest, WellFormed, Sound, Possible, HasEnded;
    ServeDelists(s.reg, f, sight);
    ServeIssues(s.reg, f, sight);
    ServeSteps(s, f);
    var after := DoRequest(s, f);
    forall sid: nat | sid < after.reg.nextId && sid !in after.reg.table
      ensures HasEnded(after, sid) || sid in after.aborting || after.pc.Down?
    {
      EndedAsBefore(s, f, sid);
    }
  }

  lemma ListedTurn(s: State, sid: nat, e: Event)
    requires Listed(s) && TurnEnabled(s, sid, e)
    ensures Listed(DoTurn(s, sid, e))
  {
    TurnEnds(s.sessions[sid], e);
    hide Step, Enabled;
    forall other: nat ensures HasEnded(s, other) ==> HasEnded(DoTurn(s, sid, e), other) {}
  }

  lemma ListedNext(s: State, e: SysEvent)
    requires Sound(s) && Listed(s) && Possible(s, e)
    ensures Listed(Next(s, e))
  {
    match e {
      case Request(f) => ListedRequest(s, f);
      case Turn(sid, event) => ListedTurn(s, sid, event);
      case _ =>
        hide WellFormed;
        forall sid: nat ensures HasEnded(Next(s, e), sid) <==> HasEnded(s, sid) {}
    }
  }

  /** In every run, no session leaves the table while it lives, unless it was killed or the daemon went down. */
  lemma {:induction false} AlwaysListed(events: seq<SysEvent>)
    requires Feasible(events)
    ensures Listed(After(events))
    decreases |events|
  {
    if events == [] {
    } else {
      var n := |events| - 1;
      AlwaysListed(events[..n]);
      AlwaysSound(events[..n]);
      ListedNext(After(events[..n]), events[n]);
      hide Listed, Next, Sound;
    }
  }

  /** Some other session that the daemon still has is named by the numeral of `id`. */
  ghost predicate Shadowed(s: State, id: nat) {
    exists j :: j != id && j !in s.finished && Named(s.reg.table, j, Print(id))
  }

  lemma HandingOffPc(s: State, f: Frame)
    requires Possible(s, Request(f))
    ensures var outcome := Serve(s.reg, f, SightOf(s)).1;
            outcome.handTo.Some? && !outcome.stop ==> DoRequest(s, f).pc == HandingOff(s.pc.conn, outcome.handTo.value)
    ensures Next(s, Request(f)) == DoRequest(s, f)
  {
    hide Serve, SightOf;
  }

  /** The target leads to a session that still takes clients. */
  ghost predicate Granted(reg: Registry, target: Str, sight: Sight) {
    var found := Resolve(Reap(reg.table, sight.finished), target);
    found.Some? && found.value !in sight.closed
  }

  lemma AttachReply(reg: Registry, target: Str, sight: Sight)
    ensures
      var outcome, found := Serve(reg, Attach(target), sight).1, Resolve(Reap(reg.table, sight.finished), target);
      && !outcome.stop
      && outcome.handTo == (if Granted(reg, target, sight) then found else None)
      && (outcome.reply.Ok? <==> Granted(reg, target, sight))
      && (found.Some? ==> found.value in Reap(reg.table, sight.finished))
  {
    hide Listing, Taken, Valid, FromAscii, Print;
  }

  /** Where a number leads. */
  lemma NumberLeads(reg: Registry, sight: Sight, id: nat)
    requires WellFormed(reg) && id < reg.nextId
    ensures
      var found := Resolve(Reap(reg.table, sight.finished), Print(id));
      var shadowed := exists j :: j != id && j !in sight.finished && Named(reg.table, j, Print(id));
      && (found == Some(id) <==> id in reg.table && id !in sight.finished && !shadowed)
      && (!shadowed ==> found in {None, Some(id)})
  {
    ReapedWellFormed(reg, sight.finished);
    var reaped := reg.(table := Reap(reg.table, sight.finished));
    NumeralResolves(reaped, id);
    ReapLeaves(reg.table, sight.finished);
    ResolvedListed(reaped.table, Print(id));
    hide WellFormed, Resolve, Resolves, Reap;
    forall j ensures Named(reaped.table, j, Print(id)) <==> j !in sight.finished && Named(reg.table, j, Print(id)) {}
    hide Named;
  }

  lemma AttachServed(reg: Registry, sight: Sight, id: nat)
    requires WellFormed(reg) && id < reg.nextId
    ensures
      var outcome := Serve(reg, Attach(Print(id)), sight).1;
      && !outcome.stop
      && (outcome.handTo == Some(id) <==>
            && id in reg.table && id !in sight.finished && id !in sight.closed
            && !exists j :: j != id && j !in sight.finished && Named(reg.table, j, Print(id)))
  {
    hide Serve, WellFormed, Resolve, Resolves, Reap, Named, Print;
    NumberLeads(reg, sight, id);
    AttachReply(reg, Print(id), sight);
  }

  /**
   A client that comes back by the number it was told is handed to that very session, with an Ok, exactly
   when the session has not ended, was not killed, and is not shadowed by another one's name.
   */
  lemma ReconnectFinds(events: seq<SysEvent>, id: nat, c: Conn)
    requires Feasible(events) && After(events).pc == Serving(c) && id < After(events).reg.nextId
    ensures
      var s := After(events);
      var after := Next(s, Request(Attach(Print(id))));
      && (after.pc == HandingOff(c, id) <==> !HasEnded(s, id) && id !in s.aborting && !Shadowed(s, id))
      && (after.pc == HandingOff(c, id) ==> TraceOf(after.wire, c) == [Ok])
  {
    AlwaysSound(events);
    AlwaysListed(events);
    AlwaysConversing(events);
    hide After, Feasible;
    var s, f := After(events), Attach(Print(id));
    AttachServed(s.reg, SightOf(s), id);
    ServeSteps(s, f);
    FirstReply(s, f, c);
    ServeHands(s.reg, f, SightOf(s));
    HandingOffPc(s, f);
    assert id in SightOf(s).closed <==> HasEnded(s, id);
    assert SightOf(s).finished == s.finished;
    hide Serve, SightOf, DoRequest, Conversing, OneOwner, TraceOf, Resolves, Reap, WellFormed, HasEnded;
  }

  // ----- Names -----

  /** A name leads to the session that has it. */
  lemma LeadsToNamed(s: State, id: nat, name: Str)
    requires WellFormed(s.reg) && Named(s.reg.table, id, name) && id !in s.finished && !HasEnded(s, id)
    ensures var outcome := Serve(s.reg, Attach(name), SightOf(s)).1;
            outcome.handTo == Some(id) && !outcome.stop
  {
    var reaped := s.reg.(table := Reap(s.reg.table, s.finished));
    ReapedWellFormed(s.reg, s.finished);
    assert Named(reaped.table, id, name);
    ResolutionUnique(reaped, name, Some(id));
    AttachReply(s.reg, name, SightOf(s));
    hide Resolve, Resolves, WellFormed, Serve;
  }

  lemma HandedListed(s: State, target: Str, sid: nat)
    requires Serve(s.reg, Attach(target), SightOf(s)).1.handTo == Some(sid)
    ensures sid in s.reg.table && !HasEnded(s, sid)
  {
    AttachReply(s.reg, target, SightOf(s));
    ReapLeaves(s.reg.table, s.finished);
    assert HasEnded(s, sid) ==> sid in SightOf(s).closed;
    hide Serve, Resolve, Resolves, Reap, HasEnded;
  }

  /**
   A name a client once attached by leads it back to that very session exactly if the session has not ended and was
   not killed. Else the name is free for others.
   */
  lemma NameFinds(events: seq<SysEvent>, n: nat, sid: nat, name: Str, c: Conn)
    requires Feasible(events) && n <= |events| && Feasible(events[..n])
    requires Named(After(events[..n]).reg.table, sid, name) && After(events).pc == Serving(c)
    ensures
      var s := After(events);
      && (Next(s, Request(Attach(name))).pc == HandingOff(c, sid) <==> !HasEnded(s, sid) && sid !in s.aborting)
      && (!HasEnded(s, sid) && sid !in s.aborting ==> Granted(s.reg, name, SightOf(s)))
  {
    AlwaysSound(events[..n]);
    TableBelow(After(events[..n]).reg);
    IdentityKept(events, n);
    AlwaysSound(events);
    AlwaysListed(events);
    hide After, Feasible;
    var s, f := After(events), Attach(name);
    assert sid in s.reg.table ==> Named(s.reg.table, sid, name);
    assert sid in s.finished ==> HasEnded(s, sid);
    ServeSteps(s, f);
    HandingOffPc(s, f);
    AttachReply(s.reg, name, SightOf(s));
    hide Serve, SightOf, DoRequest, Resolves, Resolve, Reap, WellFormed, HasEnded, Named, Next, Possible, Granted;
    if !HasEnded(s, sid) && sid !in s.aborting {
      LeadsToNamed(s, sid, name);
    }
    if DoRequest(s, f).pc == HandingOff(c, sid) {
      HandedListed(s, name, sid);
    }
  }

  // ----- Runs in which a number or a name leads astray -----

  lemma Extend(events: seq<SysEvent>, e: SysEvent)
    requires Feasible(events) && Possible(After(events), e)
    ensures Feasible(events + [e]) && After(events + [e]) == Next(After(events), e)
  {
    hide Next, Possible;
    assert (events + [e])[..|events|] == events;
  }

  /** The daemon between two clients, no task having finished yet. */
  ghost predicate Idle(s: State) {
    s.pc == Reaping && s.finished == {}
  }

  /** Session `nextId` was created under `name`, and nothing else changed. */
  ghost predicate CreatedOne(s: State, after: State, name: Str) {
    && after.reg == Registry(s.reg.table[s.reg.nextId := if name == [] then None else Some(name)], s.reg.nextId + 1)
    && after.sessions == s.sessions[s.reg.nextId := FRESH] && after.aborting == s.aborting
    && after.queues.Keys == s.queues.Keys + {s.reg.nextId}
  }

  lemma ComesIn(events: seq<SysEvent>) returns (more: seq<SysEvent>)
    requires Feasible(events) && Idle(After(events))
    ensures Feasible(more) && |events| <= |more| && more[..|events|] == events
    ensures After(more) == After(events).(pc := Serving(After(events).accepted), accepted := After(events).accepted + 1)
  {
    var s := After(events);
    Extend(events, ReapTable);
    assert Reap(s.reg.table, {}) == s.reg.table;
    hide After, Feasible;
    more := events + [ReapTable] + [Accept(true)];
    Extend(events + [ReapTable], Accept(true));
  }

  lemma AsksNew(s: State, name: Str)
    requires s.pc.Serving? && s.finished == {} && (name == [] || !Taken(s.reg.table, name))
    requires s.reg.nextId < U32_MAX
    ensures Possible(s, Request(NewSession(name)))
    ensures var after := Next(s, Request(NewSession(name)));
            && after.pc == HandingOff(s.pc.conn, s.reg.nextId) && after.finished == {}
            && CreatedOne(s, after, name)
  {
    hide Taken, SightOf;
  }

  lemma HandsOff(s: State)
    requires s.pc.HandingOff?
    ensures Possible(s, HandOff)
    ensures var after := Next(s, HandOff);
            && after.pc == Reaping && after.finished == s.finished && after.aborting == s.aborting
            && after.reg == s.reg && after.sessions == s.sessions && after.queues.Keys == s.queues.Keys
  {
  }

  /** From idle, one client comes and creates a session. */
  lemma CreateOne(events: seq<SysEvent>, name: Str) returns (more: seq<SysEvent>)
    requires Feasible(events) && Idle(After(events))
    requires After(events).reg.nextId < U32_MAX && (name == [] || !Taken(After(events).reg.table, name))
    ensures Feasible(more) && Idle(After(more)) && CreatedOne(After(events), After(more), name)
    ensures |events| <= |more| && more[..|events|] == events
  {
    var met := ComesIn(events);
    hide Feasible, After, Taken, Next, Possible;
    AsksNew(After(met), name);
    Extend(met, Request(NewSession(name)));
    var asked := met + [Request(NewSession(name))];
    HandsOff(After(asked));
    Extend(asked, HandOff);
    more := asked + [HandOff];
  }

  /** A run of the daemon in which the first client creates a session. */
  lemma OneCreated(name: Str) returns (events: seq<SysEvent>)
    ensures Feasible(events) && Idle(After(events)) && After(events).aborting == {}
    ensures After(events).reg == Registry(map[0 := if name == [] then None else Some(name)], 1)
    ensures After(events).sessions == map[0 := FRESH]
  {
    assert Feasible([]) && After([]) == INITIAL;
    hide Feasible, After;
    assert !Taken(INITIAL.reg.table, name);
    hide Taken;
    events := CreateOne([], name);
  }

  lemma TwoCreated() returns (events: seq<SysEvent>)
    ensures Feasible(events) && Idle(After(events)) && After(events).aborting == {}
    ensures After(events).reg == Registry(map[0 := None, 1 := Some(Print(0))], 2)
    ensures After(events).sessions == map[0 := FRESH, 1 := FRESH]
  {
    var first := OneCreated([]);
    assert !Taken(map[0 := None], Print(0));
    hide Feasible, After, Taken;
    events := CreateOne(first, Print(0));
  }

  /** A feasible run that ends with the live session 0 shadowed: its number leads a client to session 1. */
  lemma ShadowedRun() returns (events: seq<SysEvent>, c: Conn)
    ensures Feasible(events) && After(events).pc == Serving(c)
    ensures var s := After(events);
            0 in s.reg.table && 0 in s.sessions && !HasEnded(s, 0) && 0 !in s.aborting && Shadowed(s, 0)
    ensures Next(After(events), Request(Attach(Print(0)))).pc == HandingOff(c, 1)
  {
    var second := TwoCreated();
    hide Feasible, After, Next;
    events := ComesIn(second);
    var s := After(events);
    c := s.pc.conn;
    assert Named(s.reg.table, 1, Print(0)) && !HasEnded(s, 0) && !HasEnded(s, 1);
    AlwaysSound(events);
    hide Serve, SightOf, DoRequest, WellFormed, Accounted, Numbered, HasEnded;
    LeadsToNamed(s, 1, Print(0));
    HandingOffPc(s, Attach(Print(0)));
  }

  lemma AsksKill(s: State, name: Str)
    requires s.pc.Serving? && s.finished == {} && s.reg == Registry(map[0 := Some(name)], 1) && WellFormed(s.reg)
    ensures var after := Next(s, Request(KillSession(name)));
            && Idle(after) && after.reg == Registry(map[], 1) && after.aborting == s.aborting + {0}
            && after.sessions == s.sessions && after.queues == s.queues
  {
    assert Reap(s.reg.table, {}) == s.reg.table && Reap(s.reg.table, {0}) == map[];
    assert Named(s.reg.table, 0, name);
    ResolutionUnique(s.reg, name, Some(0));
    hide Resolve, Resolves, Listing, Taken, WellFormed, Valid, FromAscii, Print;
  }

  lemma NameTakenAgain(killed: seq<SysEvent>, name: Str) returns (events: seq<SysEvent>, c: Conn)
    requires Feasible(killed) && Idle(After(killed)) && After(killed).reg == Registry(map[], 1)
    requires name != [] && After(killed).sessions == map[0 := FRESH]
    ensures |killed| <= |events| && events[..|killed|] == killed
    ensures Feasible(events) && After(events).pc == Serving(c)
    ensures Next(After(events), Request(Attach(name))).pc == HandingOff(c, 1)
  {
    hide Feasible, After, Next;
    assert !Taken(After(killed).reg.table, name);
    var second := CreateOne(killed, name);
    events := ComesIn(second);
    assert events[..|killed|] == killed by {
      assert events[..|second|] == second && second[..|killed|] == killed;
    }
    var s := After(events);
    c := s.pc.conn;
    assert Named(s.reg.table, 1, name) && !HasEnded(s, 1);
    AlwaysSound(events);
    hide Serve, SightOf, DoRequest, WellFormed, Accounted, Numbered, HasEnded, Taken;
    LeadsToNamed(s, 1, name);
    HandingOffPc(s, Attach(name));
  }

  /**
   A feasible run in which session 0 has the name first, is killed, and another client takes the name for session 1:
   a client that was attached by name to session 0 is led to session 1.
   */
  lemma NameReusedRun(name: Str) returns (events: seq<SysEvent>, n: nat, c: Conn)
    requires name != []
    ensures n <= |events| && Feasible(events[..n]) && Named(After(events[..n]).reg.table, 0, name)
    ensures Feasible(events) && After(events).pc == Serving(c)
    ensures Next(After(events), Request(Attach(name))).pc == HandingOff(c, 1)
  {
    var first := OneCreated(name);
    n := |first|;
    assert first[..n] == first;
    AlwaysSound(first);
    var met := ComesIn(first);
    AsksKill(After(met), name);
    Extend(met, Request(KillSession(name)));
    var killed := met + [Request(KillSession(name))];
    assert killed[..n] == first;
    hide Feasible, After, Next, Possible;
    events, c := NameTakenAgain(killed, name);
    assert events[..|killed|] == killed && events[..n] == killed[..n];
  }

  // ----- Aborts -----

  /** The event tells the daemon to stop the listed session: by a target that leads to it, or by stopping the daemon. */
  ghost predicate Condemns(s: State, e: SysEvent, sid: nat) {
    && sid in s.reg.table
    && match e
       case Signal => true
       case Request(KillServer) => true
       case Request(KillSession(target)) => Resolves(Reap(s.reg.table, s.finished), target, Some(sid))
       case _ => false
  }

  /** Step `n` told the daemon to stop session `sid`. */
  ghost predicate Condemned(events: seq<SysEvent>, n: nat, sid: nat) {
    n < |events| && Feasible(events[..n]) && Condemns(After(events[..n]), events[n], sid)
  }

  lemma ServeCondemns(reg: Registry, f: Frame, sight: Sight)
    ensures
      var aborted := Serve(reg, f, sight).1.aborted;
      forall sid :: sid in aborted ==>
        && sid in reg.table
        && (f.KillServer? || (f.KillSession? && Resolves(Reap(reg.table, sight.finished), f.session, Some(sid))))
  {
    hide Taken, Listing, Valid, FromAscii, Print;
  }

  lemma AbortsCondemned(s: State, e: SysEvent, sid: nat)
    requires Possible(s, e) && sid in Next(s, e).aborting && sid !in s.aborting
    ensures Condemns(s, e, sid)
  {
    assert SightOf(s).finished == s.finished;
    hide SightOf, Serve, Resolves, Reap, DoTurn;
    if e.Request? {
      ServeSteps(s, e.frame);
      ServeCondemns(s.reg, e.frame, SightOf(s));
    }
    hide DoRequest;
  }

  /** A session is only ever aborted because someone killed it, by a target that led to it, or stopped the daemon. */
  lemma {:induction false} AbortedOnDemand(events: seq<SysEvent>, sid: nat) returns (n: nat)
    requires Feasible(events) && sid in After(events).aborting
    ensures Condemned(events, n, sid)
    decreases |events|
  {
    if events == [] {
      assert false;
    }
    var last := |events| - 1;
    var before := events[..last];
    var s := After(before);
    hide Next, Possible, Condemns;
    if sid in s.aborting {
      n := AbortedOnDemand(before, sid);
      TakeTake(events, last, n);
    } else {
      n := last;
      AbortsCondemned(s, events[last], sid);
    }
  }

  /** An aborted session was condemned. */
  lemma EndedByAbort(events: seq<SysEvent>, sid: nat) returns (n: nat)
    requires Feasible(events) && HasEnded(After(events), sid) && After(events).sessions[sid].phase.why == Aborted
    ensures Condemned(events, n, sid)
  {
    AlwaysSound(events);
    n := AbortedOnDemand(events, sid);
  }

  lemma KillAborts(s: State, target: Str, sid: nat)
    requires Sound(s) && Resolves(Reap(s.reg.table, s.finished), target, Some(sid))
    ensures Serve(s.reg, KillSession(target), SightOf(s)).1.aborted == {sid}
  {
    ReapedResolution(s.reg, s.finished, target, Some(sid));
    hide Resolve, Resolves, Reap, WellFormed, Listing, Taken, Valid, FromAscii, Print;
  }

  lemma CondemnedNow(s: State, e: SysEvent, sid: nat)
    requires Sound(s) && Possible(s, e) && Condemns(s, e, sid)
    ensures sid in Next(s, e).aborting
  {
    hide Sound, Resolves, Reap, SightOf;
    if e.Request? {
      ServeSteps(s, e.frame);
      if e.frame.KillSession? {
        KillAborts(s, e.frame.session, sid);
        hide Serve;
      } else {
        OthersAbort(s.reg, e.frame, SightOf(s));
        hide Serve;
      }
    }
  }

  lemma AbortingGrows(s: State, e: SysEvent)
    requires Possible(s, e)
    ensures s.aborting <= Next(s, e).aborting
  {
    if e.Request? {
      ServeSteps(s, e.frame);
    }
    hide Serve, SightOf, Step, Enabled;
  }

  /**
   The converse: killing a session, by name or by number, or stopping the daemon, by request or by signal, does abort
   every session it concerns.
   */
  lemma {:induction false} CondemnedAborts(events: seq<SysEvent>, n: nat, sid: nat)
    requires Feasible(events) && Condemned(events, n, sid)
    ensures sid in After(events).aborting
    decreases |events|
  {
    if events == [] {
      assert false;
    }
    var last := |events| - 1;
    var before := events[..last];
    hide Next, Possible, Sound, Condemns;
    if n == last {
      AlwaysSound(before);
      CondemnedNow(After(before), events[n], sid);
    } else {
      TakeTake(events, last, n);
      CondemnedAborts(before, n, sid);
      AbortingGrows(After(before), events[last]);
    }
  }

  /** An abort takes effect: a condemned session can be stopped at any time, and then it is over, whoever it serves. */
  lemma AbortTakes(events: seq<SysEvent>, n: nat, sid: nat)
    requires Feasible(events) && Condemned(events, n, sid) && !HasEnded(After(events), sid)
    ensures Feasible(events + [Turn(sid, Abort)])
    ensures var s := After(events + [Turn(sid, Abort)]);
            sid in s.sessions && s.sessions[sid].phase == Ended(Aborted)
  {
    CondemnedAborts(events, n, sid);
    AlwaysSound(events);
    hide After, Feasible, Condemned;
    var s := After(events);
    assert Enabled(s.sessions[sid], Abort) && Possible(s, Turn(sid, Abort));
    Extend(events, Turn(sid, Abort));
  }
}
