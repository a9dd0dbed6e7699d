/**
 Whole runs of the system: each session's part of a run is a run of the session machine, so PTY
 output is conserved across all connections; ids are issued once; a number keeps meaning the same session.
 */
module SystemRuns {
  import opened Wrappers
  import opened Sequences
  import opened Utf8
  import opened Decimal
  import opened Protocol
  import opened Server
  import opened SessionLaws
  import opened Daemon
  import opened System
  import opened SystemLaws
  import opened Connections

  // ----- One session's part -----

  function Project(events: seq<SysEvent>, sid: nat): seq<Event> {
    if events == [] then []
    else
      var n := |events| - 1;
      Project(events[..n], sid) + if events[n].Turn? && events[n].sid == sid then [events[n].event] else []
  }

  function SentBy(wire: seq<Attempt>, sid: nat): seq<Send> {
    if wire == [] then []
    else
      var n := |wire| - 1;
      SentBy(wire[..n], sid) + if wire[n].from == Some(sid) then [Send(wire[n].to, wire[n].frame)] else []
  }

  lemma SentByAppend(wire: seq<Attempt>, more: seq<Attempt>, sid: nat)
    requires |more| <= 1
    ensures SentBy(wire + more, sid)
         == if more != [] && more[0].from == Some(sid) then SentBy(wire, sid) + [Send(more[0].to, more[0].frame)]
            else SentBy(wire, sid)
  {
    if more == [] {
      assert wire + more == wire;
    } else {
      assert (wire + more)[..|wire|] == wire;
    }
  }

  /** A session's turns, taken out of a run, are an admissible script that leads to its state and its sends. */
  ghost predicate Follows(s: State, script: seq<Event>, sid: nat) {
    && Admissible(script)
    && Run(script) == (if sid in s.sessions then s.sessions[sid] else FRESH, SentBy(s.wire, sid))
    && (sid !in s.sessions ==> script == [])
  }

  lemma RunNext(script: seq<Event>, e: Event)
    requires Admissible(script) && Enabled(Run(script).0, e)
    ensures Admissible(script + [e])
    ensures Run(script + [e]) == (Step(Run(script).0, e).0, Run(script).1 + Step(Run(script).0, e).1)
  {
    assert (script + [e])[..|script|] == script;
  }

  lemma SentBack(wire: seq<Attempt>, sid: nat, sent: seq<Send>)
    requires |sent| <= 1
    ensures SentBy(wire + Attempts(sid, sent), sid) == SentBy(wire, sid) + sent
  {
    SentByAppend(wire, Attempts(sid, sent), sid);
    hide SentBy;
    var before := SentBy(wire, sid);
    if sent == [] {
      assert before + [] == before;
    } else {
      assert sent == [Send(Attempts(sid, sent)[0].to, Attempts(sid, sent)[0].frame)];
    }
  }

  lemma FollowsTurn(s: State, sid: nat, e: Event, script: seq<Event>)
    requires Sound(s) && TurnEnabled(s, sid, e) && Follows(s, script, sid)
    ensures Follows(DoTurn(s, sid, e), script + [e], sid)
  {
    hide Step, Enabled, Sound, Admissible, Run, SentBy, Attempts;
    StepSends(s.sessions[sid], e);
    SentBack(s.wire, sid, Step(s.sessions[sid], e).1);
    RunNext(script, e);
  }

  lemma FollowsOtherTurn(s: State, other: nat, e: Event, script: seq<Event>, sid: nat)
    requires TurnEnabled(s, other, e) && Follows(s, script, sid) && other != sid
    ensures Follows(DoTurn(s, other, e), script, sid)
  {
    var sent := Step(s.sessions[other], e).1;
    StepSends(s.sessions[other], e);
    SentByAppend(s.wire, Attempts(other, sent), sid);
    hide Step, Enabled, Admissible, Run, SentBy;
  }

  lemma FollowsRequest(s: State, f: Frame, script: seq<Event>, sid: nat)
    requires Sound(s) && Possible(s, Request(f)) && Follows(s, script, sid)
    ensures Follows(DoRequest(s, f), script, sid)
  {
    ServeSteps(s, f);
    var reply := Serve(s.reg, f, SightOf(s)).1.reply;
    SentByAppend(s.wire, [Attempt(None, s.pc.conn, reply)], sid);
    hide Serve, SightOf, Admissible, SentBy;
  }

  lemma FollowsNext(s: State, e: SysEvent, script: seq<Event>, sid: nat)
    requires Sound(s) && Possible(s, e) && Follows(s, script, sid)
    ensures Follows(Next(s, e), script + if e.Turn? && e.sid == sid then [e.event] else [], sid)
  {
    assert script + [] == script;
    match e {
      case Turn(other, event) =>
        if other == sid {
          FollowsTurn(s, sid, event, script);
        } else {
          FollowsOtherTurn(s, other, event, script, sid);
        }
      case Request(f) => FollowsRequest(s, f, script, sid);
      case _ =>
    }
    hide Serve, Admissible, Run, DoTurn, DoRequest;
  }

  lemma {:induction false} ProjectRuns(events: seq<SysEvent>, sid: nat)
    requires Feasible(events)
    ensures Follows(After(events), Project(events, sid), sid)
    decreases |events|
  {
    if events == [] {
    } else {
      var n := |events| - 1;
      ProjectRuns(events[..n], sid);
      AlwaysSound(events[..n]);
      FollowsNext(After(events[..n]), events[n], Project(events[..n], sid), sid);
    }
  }

  /** The Data frames attempted for a session, over all connections in sending order, are what its PTY gave. */
  lemma PtyOutputConserved(events: seq<SysEvent>, sid: nat)
    requires Feasible(events)
    ensures DataSent(SentBy(After(events).wire, sid)) == BytesRead(Project(events, sid))
  {
    ProjectRuns(events, sid);
    PtyConservation(Project(events, sid));
  }

  /** Per session: one shell at most, and the flag the listing shows is whether a client is served. */
  lemma SessionsConsistent(events: seq<SysEvent>, sid: nat)
    requires Feasible(events) && sid in After(events).sessions
    ensures Consistent(After(events).sessions[sid])
    ensures Spawns(Project(events, sid)) == if After(events).sessions[sid].env.Some? then 1 else 0
  {
    ProjectRuns(events, sid);
    OneShell(Project(events, sid));
  }

  /** A session still listed can only have ended by itself: its shell, its I/O, its client's bytes or its setup. */
  lemma ListedEndsByItself(events: seq<SysEvent>, sid: nat)
    requires Feasible(events) && sid in After(events).reg.table
    ensures sid in After(events).sessions
    ensures HasEnded(After(events), sid) ==>
      After(events).sessions[sid].phase.why in {ShellGone, IoError, BadFrame, SetupError}
  {
    AlwaysSound(events);
  }

  // ----- Each connection sees one piece of one PTY -----

  /** With neither the daemon nor any channel. */
  ghost predicate PastAll(s: State, c: Conn) {
    c < s.accepted && !Holds(s, AtDaemon, c) && forall other: nat :: other in s.queues ==> c !in s.queues[other]
  }

  /** The clients taken so far have left the daemon and every channel, and no two sessions share one. */
  ghost predicate ClientsPast(s: State, events: seq<SysEvent>) {
    && (forall sid: nat :: NoRepeats(Clients(Project(events, sid))))
    && (forall sid: nat, c: Conn :: c in Clients(Project(events, sid)) ==> PastAll(s, c))
    && (forall a: nat, b: nat, c: Conn ::
          c in Clients(Project(events, a)) && c in Clients(Project(events, b)) ==> a == b)
  }

  lemma ClientsNext(events: seq<SysEvent>, sid: nat)
    requires events != []
    ensures var n := |events| - 1;
            Clients(Project(events, sid))
              == if events[n].Turn? && events[n].sid == sid && events[n].event.Recv?
                 then Clients(Project(events[..n], sid)) + [events[n].event.client]
                 else Clients(Project(events[..n], sid))
  {
    var n := |events| - 1;
    var before := Project(events[..n], sid);
    if events[n].Turn? && events[n].sid == sid {
      assert (before + [events[n].event])[..|before|] == before;
    } else {
      assert before + [] == before;
    }
  }

  lemma PastByPlaces(s: State, c: Conn)
    ensures c < s.accepted && (forall p: Place :: Holds(s, p, c) ==> p.InSlot?) ==> PastAll(s, c)
  {
    assert forall other: nat :: other in s.queues && c in s.queues[other] ==> Holds(s, InQueue(other), c);
  }

  lemma PastTaken(s: State, sid: nat, c: Conn)
    requires Sound(s) && OneOwner(s) && Possible(s, Turn(sid, Recv(c)))
    ensures PastAll(Next(s, Turn(sid, Recv(c))), c)
  {
    var e := Turn(sid, Recv(c));
    var after := Next(s, e);
    MovedAccepted(s, e);
    forall p: Place | Holds(after, p, c) ensures p == InSlot(sid) {
      HoldsNext(s, e, p, c);
    }
    PastByPlaces(after, c);
    hide Next, Possible, Sound, OneOwner, Holds;
  }

  lemma NotMoved(s: State, e: SysEvent, c: Conn)
    requires Possible(s, e) && PastAll(s, c) && !(e.Turn? && e.event == Recv(c))
    ensures Moved(s, e).Some? ==> Moved(s, e).value.0 != c
  {
    hide Enabled;
  }

  lemma PastStays(s: State, e: SysEvent, c: Conn)
    requires Sound(s) && OneOwner(s) && Possible(s, e) && PastAll(s, c) && !(e.Turn? && e.event == Recv(c))
    ensures PastAll(Next(s, e), c)
  {
    var after := Next(s, e);
    MovedAccepted(s, e);
    NotMoved(s, e, c);
    forall p: Place | Holds(after, p, c) ensures p.InSlot? {
      HoldsNext(s, e, p, c);
      assert Holds(s, p, c) && PastAll(s, c);
    }
    PastByPlaces(after, c);
    hide Next, Possible, Sound, OneOwner, Holds;
  }

  /** A client just taken off a channel was never taken before. */
  lemma TakenIsNew(s: State, e: SysEvent, before: seq<SysEvent>, sid: nat)
    requires Possible(s, e) && ClientsPast(s, before) && e.Turn? && e.event.Recv?
    ensures e.event.client !in Clients(Project(before, sid))
  {
    var c := e.event.client;
    assert c in s.queues[e.sid];
    assert c in Clients(Project(before, sid)) ==> PastAll(s, c);
  }

  lemma PastClient(s: State, e: SysEvent, before: seq<SysEvent>, sid: nat, c: Conn)
    requires Sound(s) && OneOwner(s) && ClientsPast(s, before) && Possible(s, e)
    requires c in Clients(Project(before, sid)) || (e.Turn? && e.sid == sid && e.event == Recv(c))
    ensures PastAll(Next(s, e), c)
  {
    var takes := e.Turn? && e.event == Recv(c);
    if c in Clients(Project(before, sid)) {
      assert PastAll(s, c);
      if takes {
        TakenIsNew(s, e, before, sid);
      }
    }
    assert takes || PastAll(s, c);
    hide Project, Clients, ClientsPast, PastAll, Sound, OneOwner, Possible, Next;
    if takes {
      PastTaken(s, e.sid, c);
    } else {
      PastStays(s, e, c);
    }
  }

  lemma NoRepeatsNext(s: State, events: seq<SysEvent>, sid: nat)
    requires events != [] && ClientsPast(s, events[..|events| - 1]) && Possible(s, events[|events| - 1])
    ensures NoRepeats(Clients(Project(events, sid)))
  {
    var n := |events| - 1;
    ClientsNext(events, sid);
    if events[n].Turn? && events[n].event.Recv? {
      TakenIsNew(s, events[n], events[..n], sid);
    }
    assert NoRepeats(Clients(Project(events[..n], sid)));
    hide Project, Clients, ClientsPast, Possible;
  }

  lemma NotShared(s: State, events: seq<SysEvent>, a: nat, b: nat, c: Conn)
    requires events != [] && ClientsPast(s, events[..|events| - 1]) && Possible(s, events[|events| - 1])
    requires c in Clients(Project(events, a)) && c in Clients(Project(events, b))
    ensures a == b
  {
    var n := |events| - 1;
    ClientsNext(events, a);
    ClientsNext(events, b);
    if events[n].Turn? && events[n].event.Recv? {
      TakenIsNew(s, events[n], events[..n], a);
      TakenIsNew(s, events[n], events[..n], b);
    }
    hide Project, Clients, Possible;
  }

  lemma PastNext(s: State, events: seq<SysEvent>)
    requires events != [] && Sound(s) && OneOwner(s) && ClientsPast(s, events[..|events| - 1])
    requires Possible(s, events[|events| - 1])
    ensures ClientsPast(Next(s, events[|events| - 1]), events)
  {
    var n := |events| - 1;
    var e, before := events[n], events[..n];
    forall sid: nat, c: Conn | c in Clients(Project(events, sid))
      ensures PastAll(Next(s, e), c)
    {
      ClientsNext(events, sid);
      hide Clients, Project, Next, Possible, ClientsPast, PastAll, Sound, OneOwner;
      PastClient(s, e, before, sid, c);
    }
    hide Next, Sound, OneOwner, Possible, Project, Clients, PastAll;
    forall sid: nat ensures NoRepeats(Clients(Project(events, sid))) {
      NoRepeatsNext(s, events, sid);
    }
    forall a: nat, b: nat, c: Conn | c in Clients(Project(events, a)) && c in Clients(Project(events, b))
      ensures a == b
    {
      NotShared(s, events, a, b, c);
    }
  }

  lemma {:induction false} AlwaysPast(events: seq<SysEvent>)
    requires Feasible(events)
    ensures ClientsPast(After(events), events)
    decreases |events|
  {
    if events == [] {
    } else {
      var n := |events| - 1;
      AlwaysPast(events[..n]);
      AlwaysSound(events[..n]);
      AlwaysConversing(events[..n]);
      PastNext(After(events[..n]), events);
    }
  }

  /** Sessions send only to clients they have taken. */
  predicate Owned(wire: seq<Attempt>, events: seq<SysEvent>) {
    forall k :: 0 <= k < |wire| && wire[k].from.Some? ==>
      wire[k].to in Clients(Project(events, wire[k].from.value))
  }

  function SessionOf(s: State, sid: nat): Session {
    if sid in s.sessions then s.sessions[sid] else FRESH
  }

  /** A client in a slot came off that session's channel. */
  ghost predicate SlotsTaken(s: State, events: seq<SysEvent>) {
    forall sid: nat :: ClientOf(SessionOf(s, sid)).Some? ==>
      ClientOf(SessionOf(s, sid)).value in Clients(Project(events, sid))
  }

  ghost predicate ClientsGrow(before: seq<SysEvent>, events: seq<SysEvent>) {
    forall sid: nat, c: Conn :: c in Clients(Project(before, sid)) ==> c in Clients(Project(events, sid))
  }

  lemma OwnedQuiet(s: State, e: SysEvent, before: seq<SysEvent>, events: seq<SysEvent>)
    requires Possible(s, e) && !e.Turn? && !e.Request?
    requires Owned(s.wire, before) && SlotsTaken(s, before) && ClientsGrow(before, events)
    ensures Owned(Next(s, e).wire, events) && SlotsTaken(Next(s, e), events)
  {
    hide Project, Clients;
    forall sid: nat ensures SessionOf(Next(s, e), sid) == SessionOf(s, sid) {}
  }

  lemma OwnedTurn(s: State, sid: nat, e: Event, before: seq<SysEvent>, events: seq<SysEvent>)
    requires TurnEnabled(s, sid, e) && Owned(s.wire, before) && SlotsTaken(s, before) && ClientsGrow(before, events)
    ensures Owned(DoTurn(s, sid, e).wire, events)
  {
    hide Step, Enabled, Project, Clients;
    var sent := Step(s.sessions[sid], e).1;
    StepSends(s.sessions[sid], e);
    assert SessionOf(s, sid) == s.sessions[sid];
    assert sent != [] ==> sent[0].to in Clients(Project(before, sid));
    hide SlotsTaken;
  }

  lemma SlotsAfterTurn(s: State, sid: nat, e: Event, before: seq<SysEvent>, events: seq<SysEvent>)
    requires TurnEnabled(s, sid, e) && SlotsTaken(s, before) && ClientsGrow(before, events)
    requires e.Recv? ==> e.client in Clients(Project(events, sid))
    ensures SlotsTaken(DoTurn(s, sid, e), events)
  {
    var next := Step(s.sessions[sid], e).0;
    StepSends(s.sessions[sid], e);
    hide Step, Enabled, Project, Clients;
    assert SessionOf(s, sid) == s.sessions[sid];
    forall other: nat
      ensures SessionOf(DoTurn(s, sid, e), other) == if other == sid then next else SessionOf(s, other)
    {}
  }

  lemma OwnedRequest(s: State, f: Frame, before: seq<SysEvent>, events: seq<SysEvent>)
    requires Sound(s) && Possible(s, Request(f))
    requires Owned(s.wire, before) && SlotsTaken(s, before) && ClientsGrow(before, events)
    ensures Owned(DoRequest(s, f).wire, events) && SlotsTaken(DoRequest(s, f), events)
  {
    ServeSteps(s, f);
    assert forall sid: nat :: sid in s.sessions <==> sid < s.reg.nextId;
    assert DoRequest(s, f).wire == s.wire + [Attempt(None, s.pc.conn, Serve(s.reg, f, SightOf(s)).1.reply)];
    hide Serve, SightOf, Project, Clients, Sound, DoRequest, Possible;
    assert ClientOf(FRESH) == None;
    forall sid: nat ensures ClientOf(SessionOf(DoRequest(s, f), sid)) == ClientOf(SessionOf(s, sid)) {}
  }

  lemma OwnedNext(s: State, events: seq<SysEvent>)
    requires events != [] && Sound(s) && Possible(s, events[|events| - 1])
    requires Owned(s.wire, events[..|events| - 1]) && SlotsTaken(s, events[..|events| - 1])
    ensures Owned(Next(s, events[|events| - 1]).wire, events) && SlotsTaken(Next(s, events[|events| - 1]), events)
  {
    var n := |events| - 1;
    var e, before := events[n], events[..n];
    forall sid: nat, c: Conn | c in Clients(Project(before, sid)) ensures c in Clients(Project(events, sid)) {
      ClientsNext(events, sid);
    }
    assert ClientsGrow(before, events);
    match e {
      case Turn(sid, event) =>
        ClientsNext(events, sid);
        OwnedTurn(s, sid, event, before, events);
        SlotsAfterTurn(s, sid, event, before, events);
      case Request(f) => OwnedRequest(s, f, before, events);
      case _ => OwnedQuiet(s, e, before, events);
    }
    hide Sound, Next, Owned, SlotsTaken, ClientsGrow, DoTurn, DoRequest;
  }

  lemma {:induction false} AlwaysOwned(events: seq<SysEvent>)
    requires Feasible(events)
    ensures Owned(After(events).wire, events)
    ensures SlotsTaken(After(events), events)
    decreases |events|
  {
    if events == [] {
    } else {
      var n := |events| - 1;
      AlwaysOwned(events[..n]);
      AlwaysSound(events[..n]);
      OwnedNext(After(events[..n]), events);
    }
  }

  /** The daemon speaks first on a connection, and once. */
  predicate DaemonFirst(wire: seq<Attempt>) {
    forall k :: 0 <= k < |wire| && wire[k].from.None? ==> TraceOf(wire[..k], wire[k].to) == []
  }

  lemma DaemonFirstAppend(wire: seq<Attempt>, more: seq<Attempt>)
    requires DaemonFirst(wire)
    requires (forall i :: 0 <= i < |more| ==> more[i].from.Some?) || (|more| == 1 && TraceOf(wire, more[0].to) == [])
    ensures DaemonFirst(wire + more)
  {
    hide TraceOf;
    var all := wire + more;
    assert all[..|wire|] == wire;
    forall k | 0 <= k < |all| && all[k].from.None? ensures TraceOf(all[..k], all[k].to) == [] {
      if k < |wire| {
        TakeTake(all, |wire|, k);
      }
    }
  }

  lemma DaemonFirstNext(s: State, e: SysEvent)
    requires Conversing(s) && Possible(s, e) && DaemonFirst(s.wire)
    ensures DaemonFirst(Next(s, e).wire)
  {
    match e {
      case Turn(sid, event) =>
        DaemonFirstAppend(s.wire, Attempts(sid, Step(s.sessions[sid], event).1));
        hide Step, TraceOf, DaemonFirst, Conversing;
      case Request(f) =>
        assert Holds(s, AtDaemon, s.pc.conn) && Fits(s, AtDaemon, s.pc.conn) && Proper(s, s.pc.conn);
        hide Serve, SightOf, TraceOf, DaemonFirst, Conversing, Conversation;
        DaemonFirstAppend(s.wire, [Attempt(None, s.pc.conn, Serve(s.reg, f, SightOf(s)).1.reply)]);
      case _ =>
    }
  }

  lemma {:induction false} AlwaysDaemonFirst(events: seq<SysEvent>)
    requires Feasible(events)
    ensures DaemonFirst(After(events).wire)
    decreases |events|
  {
    if events == [] {
    } else {
      var n := |events| - 1;
      AlwaysDaemonFirst(events[..n]);
      AlwaysConversing(events[..n]);
      DaemonFirstNext(After(events[..n]), events[n]);
    }
  }

  /** What the daemon itself attempted on a connection. */
  function DaemonSaid(wire: seq<Attempt>, c: Conn): seq<Frame> {
    if wire == [] then []
    else
      var n := |wire| - 1;
      DaemonSaid(wire[..n], c) + if wire[n].to == c && wire[n].from.None? then [wire[n].frame] else []
  }

  lemma SplitLast(wire: seq<Attempt>, sid: nat, c: Conn)
    requires wire != [] && DaemonFirst(wire)
    ensures
      var n := |wire| - 1;
      var now := [wire[n].frame];
      var trace, said, heard := TraceOf(wire[..n], c), DaemonSaid(wire[..n], c), SentTo(c, SentBy(wire[..n], sid));
      && TraceOf(wire, c) == (if wire[n].to == c then trace + now else trace)
      && DaemonSaid(wire, c) == (if wire[n].to == c && wire[n].from.None? then said + now else said)
      && SentTo(c, SentBy(wire, sid)) == (if wire[n].to == c && wire[n].from == Some(sid) then heard + now else heard)
      && (wire[n].to == c && wire[n].from.None? ==> trace == [])
  {
    var n := |wire| - 1;
    var sent := SentBy(wire[..n], sid);
    AppendSent(sent, [Send(wire[n].to, wire[n].frame)]);
    assert sent + [] == sent && SentTo(c, sent) + [] == SentTo(c, sent);
    assert TraceOf(wire[..n], c) + [] == TraceOf(wire[..n], c);
    assert DaemonSaid(wire[..n], c) + [] == DaemonSaid(wire[..n], c);
  }

  lemma DaemonFirstEarlier(wire: seq<Attempt>, n: nat)
    requires DaemonFirst(wire) && n <= |wire|
    ensures DaemonFirst(wire[..n])
  {
    hide TraceOf;
    forall k | 0 <= k < n && wire[..n][k].from.None? ensures TraceOf(wire[..n][..k], wire[..n][k].to) == [] {
      TakeTake(wire, n, k);
    }
  }

  /** If one session only sends to a connection, its trace is the daemon's word and then what that session sent. */
  lemma {:induction false} TraceSplits(wire: seq<Attempt>, sid: nat, c: Conn)
    requires DaemonFirst(wire)
    requires forall k :: 0 <= k < |wire| && wire[k].to == c && wire[k].from.Some? ==> wire[k].from == Some(sid)
    ensures TraceOf(wire, c) == DaemonSaid(wire, c) + SentTo(c, SentBy(wire, sid))
    ensures |DaemonSaid(wire, c)| <= 1
    decreases |wire|
  {
    if wire == [] {
    } else {
      var n := |wire| - 1;
      DaemonFirstEarlier(wire, n);
      TraceSplits(wire[..n], sid, c);
      var said, heard := DaemonSaid(wire[..n], c), SentTo(c, SentBy(wire[..n], sid));
      SplitLast(wire, sid, c);
      hide TraceOf, DaemonSaid, SentBy, SentTo, DaemonFirst;
      if wire[n].to == c && wire[n].from.None? {
        assert said == [] && heard == [];
      } else if wire[n].to == c {
        assert (said + heard) + [wire[n].frame] == said + (heard + [wire[n].frame]);
      }
    }
  }

  // ----- Whom a connection reaches -----

  /** The connection's request was to attach, and it was granted. */
  predicate Admitted(s: State, c: Conn) {
    c in s.requests && TraceOf(s.wire, c) != [] && Greets(s.requests[c], TraceOf(s.wire, c)[0])
  }

  /** Request `n` came on connection `c` and asked for session `sid`: to be created, or by a target that led to it. */
  ghost predicate AskedFor(events: seq<SysEvent>, n: nat, c: Conn, sid: nat) {
    && n < |events| && Feasible(events[..n]) && events[n].Request?
    && var s := After(events[..n]);
       && s.pc == Serving(c)
       && match events[n].frame
          case NewSession(_) => sid == s.reg.nextId
          case Attach(target) => Resolves(Reap(s.reg.table, s.finished), target, Some(sid)) && !HasEnded(s, sid)
          case _ => false
  }

  predicate OnTheWay(s: State, c: Conn, sid: nat) {
    s.pc == HandingOff(c, sid) || (sid in s.queues && c in s.queues[sid])
  }

  /** On its way to session `sid`, or taken by it. */
  ghost predicate Bound(s: State, events: seq<SysEvent>, c: Conn, sid: nat) {
    OnTheWay(s, c, sid) || c in Clients(Project(events, sid))
  }

  /** The connection's first frame; a creator is told the number of its session. */
  predicate Told(s: State, c: Conn, request: Frame, sid: nat) {
    && c in s.requests && s.requests[c] == request
    && TraceOf(s.wire, c) != []
    && TraceOf(s.wire, c)[0] == if request.NewSession? then SessionCreated(Print(sid)) else Ok
  }

  lemma TraceGrows(s: State, e: SysEvent, c: Conn)
    requires Possible(s, e) && Conversing(s)
    ensures TraceOf(s.wire, c) <= TraceOf(Next(s, e).wire, c)
    ensures c in s.requests ==> c in Next(s, e).requests && Next(s, e).requests[c] == s.requests[c]
  {
    match e {
      case Turn(sid, event) =>
        TurnWire(s, sid, event, c);
        TurnKeepsRequests(s, sid, event);
        hide Step, Enabled, DoTurn, Conversing, TraceOf;
      case Request(f) =>
        assert Holds(s, AtDaemon, s.pc.conn) && Fits(s, AtDaemon, s.pc.conn);
        RequestWire(s, f, c);
        hide Serve, DoRequest, Conversing, TraceOf;
      case _ => hide Serve, Conversing, TraceOf;
    }
  }

  lemma ToldStays(s: State, e: SysEvent, c: Conn, request: Frame, sid: nat)
    requires Possible(s, e) && Conversing(s) && Told(s, c, request, sid)
    ensures Told(Next(s, e), c, request, sid)
  {
    TraceGrows(s, e, c);
    hide Next, Possible, Conversing, TraceOf;
  }

  lemma OnTheWayTurn(s: State, sid: nat, e: Event, c: Conn, other: nat)
    requires TurnEnabled(s, sid, e) && OnTheWay(DoTurn(s, sid, e), c, other)
    ensures OnTheWay(s, c, other)
  {
    hide Step, Enabled;
  }

  lemma OnTheWayNext(s: State, e: SysEvent, c: Conn, sid: nat)
    requires Possible(s, e) && OnTheWay(Next(s, e), c, sid)
    ensures OnTheWay(s, c, sid) || (e.Request? && s.pc == Serving(c) && Next(s, e).pc == HandingOff(c, sid))
  {
    match e {
      case Request(f) =>
        ServeSteps(s, f);
        hide Serve;
      case Turn(other, event) => OnTheWayTurn(s, other, event, c, sid);
      case _ =>
    }
    hide Serve, DoTurn, TurnEnabled;
  }

  lemma TakenOnTheWay(s: State, sid: nat, e: Event)
    requires Possible(s, Turn(sid, e)) && e.Recv?
    ensures OnTheWay(s, e.client, sid)
  {
    hide Enabled;
  }

  lemma BoundNext(s: State, events: seq<SysEvent>, c: Conn, sid: nat)
    requires events != [] && Possible(s, events[|events| - 1])
    requires Bound(Next(s, events[|events| - 1]), events, c, sid)
    ensures
      var e := events[|events| - 1];
      || Bound(s, events[..|events| - 1], c, sid)
      || (e.Request? && s.pc == Serving(c) && Next(s, e).pc == HandingOff(c, sid))
  {
    var e := events[|events| - 1];
    hide Project, Clients, Next, Possible, OnTheWay;
    ClientsNext(events, sid);
    if e.Turn? && e.event.Recv? {
      TakenOnTheWay(s, e.sid, e.event);
    }
    if OnTheWay(Next(s, e), c, sid) {
      OnTheWayNext(s, e, c, sid);
    }
  }

  lemma RequestsNext(s: State, e: SysEvent, c: Conn)
    requires Possible(s, e) && c in Next(s, e).requests && c !in s.requests
    ensures e.Request? && s.pc == Serving(c)
  {
    match e {
      case Turn(sid, event) =>
        TurnKeepsRequests(s, sid, event);
        hide DoTurn, TurnEnabled;
      case Request(f) =>
        RequestWire(s, f, c);
        hide Serve, DoRequest;
      case _ =>
    }
  }

  lemma FirstReply(s: State, f: Frame, c: Conn)
    requires Possible(s, Request(f)) && Conversing(s) && s.pc == Serving(c)
    ensures TraceOf(DoRequest(s, f).wire, c) == [Serve(s.reg, f, SightOf(s)).1.reply]
    ensures c in DoRequest(s, f).requests && DoRequest(s, f).requests[c] == f
  {
    RequestWire(s, f, c);
    assert Holds(s, AtDaemon, c) && Fits(s, AtDaemon, c) && Proper(s, c);
    hide Serve, SightOf, DoRequest, Conversing, TraceOf;
    var reply := Serve(s.reg, f, SightOf(s)).1.reply;
    assert [] + [reply] == [reply];
  }

  lemma ServeHands(reg: Registry, f: Frame, sight: Sight)
    ensures
      var outcome := Serve(reg, f, sight).1;
      outcome.handTo.Some? ==>
        match f
        case NewSession(_) => outcome.handTo == Some(reg.nextId) && outcome.reply == SessionCreated(Print(reg.nextId))
        case Attach(target) =>
          && Resolves(Reap(reg.table, sight.finished), target, outcome.handTo)
          && outcome.handTo.value !in sight.closed && outcome.reply == Ok
        case _ => false
  {
    hide Taken, Resolves, Listing, Valid, FromAscii;
  }

  lemma HandsOver(s: State, f: Frame, c: Conn, sid: nat)
    requires Possible(s, Request(f)) && Conversing(s) && s.pc == Serving(c) && DoRequest(s, f).pc == HandingOff(c, sid)
    ensures Told(DoRequest(s, f), c, f, sid)
    ensures match f
            case NewSession(_) => sid == s.reg.nextId
            case Attach(target) => Resolves(Reap(s.reg.table, s.finished), target, Some(sid)) && !HasEnded(s, sid)
            case _ => false
  {
    ServeHands(s.reg, f, SightOf(s));
    ServeSteps(s, f);
    assert HasEnded(s, sid) ==> sid in SightOf(s).closed;
    assert SightOf(s).finished == s.finished;
    hide Serve, SightOf, DoRequest, Resolves, Reap, Conversing, TraceOf, HasEnded;
    FirstReply(s, f, c);
  }

  lemma AskedEarlier(events: seq<SysEvent>, n: nat, c: Conn, sid: nat)
    requires events != [] && AskedFor(events[..|events| - 1], n, c, sid)
    ensures AskedFor(events, n, c, sid) && events[..|events| - 1][n] == events[n]
  {
    hide After, Feasible, Resolves, Reap;
    assert events[..|events| - 1][..n] == events[..n];
  }

  lemma AskedNow(s: State, f: Frame, c: Conn, sid: nat)
    requires Possible(s, Request(f)) && Conversing(s) && s.pc == Serving(c)
    requires Next(s, Request(f)).pc == HandingOff(c, sid)
    ensures Told(Next(s, Request(f)), c, f, sid)
    ensures match f
            case NewSession(_) => sid == s.reg.nextId
            case Attach(target) => Resolves(Reap(s.reg.table, s.finished), target, Some(sid)) && !HasEnded(s, sid)
            case _ => false
  {
    hide DoRequest, Told, Conversing, Resolves, Reap, HasEnded;
    HandsOver(s, f, c, sid);
  }

  /** A connection gets to the session it asked for and to no other, and a creator is told that session's number. */
  lemma {:induction false} RightSession(events: seq<SysEvent>, c: Conn, sid: nat) returns (n: nat)
    requires Feasible(events) && Bound(After(events), events, c, sid)
    ensures AskedFor(events, n, c, sid) && Told(After(events), c, events[n].frame, sid)
    decreases |events|
  {
    if events == [] {
      assert false;
    }
    var last := |events| - 1;
    var s, e := After(events[..last]), events[last];
    AlwaysConversing(events[..last]);
    hide Next, Possible, DoRequest, Bound, Told, Conversing, OneOwner, TraceOf, Resolves, Reap;
    BoundNext(s, events, c, sid);
    if Bound(s, events[..last], c, sid) {
      n := RightSession(events[..last], c, sid);
      AskedEarlier(events, n, c, sid);
      hide AskedFor;
      ToldStays(s, e, c, events[n].frame, sid);
    } else {
      n := last;
      AskedNow(s, e.frame, c, sid);
    }
  }

  /** Every client a session ever took had been admitted, and its greeting stays the first thing it heard. */
  lemma AlwaysAdmitted(events: seq<SysEvent>, sid: nat, c: Conn)
    requires Feasible(events) && c in Clients(Project(events, sid))
    ensures Admitted(After(events), c)
  {
    var n := RightSession(events, c, sid);
    hide After, Feasible, Clients, Project, TraceOf, Resolves, Reap;
  }

  // ----- What a connection hears -----

  lemma OwnedByOne(s: State, events: seq<SysEvent>, sid: nat, c: Conn)
    requires ClientsPast(s, events) && Owned(s.wire, events) && c in Clients(Project(events, sid))
    ensures forall k :: 0 <= k < |s.wire| && s.wire[k].to == c && s.wire[k].from.Some? ==> s.wire[k].from == Some(sid)
  {
    hide Project, Clients;
  }

  lemma {:induction false} HeardKinds(script: seq<Event>)
    ensures forall f :: f in HeardAll(script) ==> Relayed(f) || Farewell(f)
    decreases |script|
  {
    if script == [] {
    } else {
      HeardKinds(script[..|script| - 1]);
    }
  }

  lemma NotAGreeting(request: Frame, frames: seq<Frame>)
    requires forall f :: f in frames ==> Relayed(f) || Farewell(f)
    ensures frames != [] ==> !Greets(request, frames[0])
  {
    assert frames != [] ==> frames[0] in frames;
  }

  /** No session greets, so the greeting is the daemon's. */
  lemma GreetedByDaemon(request: Frame, trace: seq<Frame>, said: seq<Frame>, heard: seq<Frame>)
    requires |said| <= 1 && trace == said + heard
    requires trace != [] && Greets(request, trace[0]) && forall f :: f in heard ==> Relayed(f) || Farewell(f)
    ensures trace == [trace[0]] + heard
  {
    NotAGreeting(request, heard);
    hide Greets, Relayed, Farewell;
    assert [] + heard == heard;
  }

  /**
   Everything a client is told, exactly: after its greeting it hears the events of the stretch during which
   its session served it, in order, each in the way `Heard` says. Its session is the only one it hears.
   */
  lemma ConnectionHears(events: seq<SysEvent>, sid: nat, c: Conn) returns (a: nat, b: nat)
    requires Feasible(events) && c in Clients(Project(events, sid))
    ensures Admissible(Project(events, sid)) && Served(Project(events, sid), c, a, b)
    ensures Admitted(After(events), c)
    ensures var trace := TraceOf(After(events).wire, c);
            trace == [trace[0]] + HeardAll(Project(events, sid)[a..b])
  {
    AlwaysPast(events);
    AlwaysOwned(events);
    AlwaysDaemonFirst(events);
    AlwaysAdmitted(events, sid, c);
    ProjectRuns(events, sid);
    var wire, script := After(events).wire, Project(events, sid);
    OwnedByOne(After(events), events, sid, c);
    hide After, Feasible, Project, Clients, TraceOf, DaemonSaid, SentBy, SentTo, HeardAll, DaemonFirst;
    hide ClientsPast, Owned, SlotsTaken, Served, Run, Admissible;
    TraceSplits(wire, sid, c);
    a, b := ClientHears(script, c);
    HeardKinds(script[a..b]);
    GreetedByDaemon(After(events).requests[c], TraceOf(wire, c), DaemonSaid(wire, c), HeardAll(script[a..b]));
  }

  lemma LastOfTrace(greeting: Frame, heard: seq<Frame>, k: i32)
    requires !greeting.Exit?
    ensures LastWordExit([greeting] + heard, k) <==> LastWordExit(heard, k)
  {
  }

  /** In every run, a connection is told an exit code, last of all, exactly if its session ended so while serving it. */
  lemma ExitCodeTold(events: seq<SysEvent>, sid: nat, c: Conn, k: i32)
    requires Feasible(events) && c in Clients(Project(events, sid))
    ensures Admissible(Project(events, sid))
    ensures LastWordExit(TraceOf(After(events).wire, c), k) <==> ExitsServing(Project(events, sid), c, k)
  {
    var a, b := ConnectionHears(events, sid, c);
    var script, trace := Project(events, sid), TraceOf(After(events).wire, c);
    assert !trace[0].Exit?;
    hide After, Feasible, Project, Clients, TraceOf, HeardAll, Stretch, Run, SentTo, ExitsServing, LastWordExit;
    LastOfTrace(trace[0], HeardAll(script[a..b]), k);
    ExitTold(script, c, k);
  }

  lemma {:induction false} GreetingHasNoData(greeting: Frame, rest: seq<Frame>)
    requires !greeting.Data?
    ensures DataBytes([greeting] + rest) == DataBytes(rest)
    decreases |rest|
  {
    if rest == [] {
      DataBytesNext([], greeting);
      assert [] + [greeting] == [greeting] + rest;
    } else {
      var n := |rest| - 1;
      GreetingHasNoData(greeting, rest[..n]);
      assert ([greeting] + rest)[..n + 1] == [greeting] + rest[..n];
    }
  }

  /** What the given connections were shown, one after the other. */
  function ShownOn(clients: seq<Conn>, wire: seq<Attempt>): seq<byte> {
    if clients == [] then []
    else
      var n := |clients| - 1;
      ShownOn(clients[..n], wire) + DataBytes(TraceOf(wire, clients[n]))
  }

  /** The Data on a connection is the Data its session sent. */
  lemma ConnectionShows(events: seq<SysEvent>, sid: nat, c: Conn)
    requires Feasible(events) && c in Clients(Project(events, sid)) && Admissible(Project(events, sid))
    ensures DataBytes(TraceOf(After(events).wire, c)) == DataBytes(SentTo(c, Run(Project(events, sid)).1))
  {
    var a, b := ConnectionHears(events, sid, c);
    var script, trace := Project(events, sid), TraceOf(After(events).wire, c);
    GreetingHasNoData(trace[0], HeardAll(script[a..b]));
    hide After, Feasible, Project, Clients, TraceOf, DataBytes, HeardAll, Stretch, Run, SentTo;
  }

  lemma {:induction false} ShownSame(clients: seq<Conn>, wire: seq<Attempt>, sent: seq<Send>)
    requires forall c :: c in clients ==> DataBytes(TraceOf(wire, c)) == DataBytes(SentTo(c, sent))
    ensures ShownOn(clients, wire) == Shown(clients, sent)
    decreases |clients|
  {
    if clients == [] {
    } else {
      var n := |clients| - 1;
      assert clients[n] in clients && forall c :: c in clients[..n] ==> c in clients;
      hide SentTo, TraceOf, DataBytes;
      ShownSame(clients[..n], wire, sent);
    }
  }

  lemma ShownOnNext(clients: seq<Conn>, c: Conn, wire: seq<Attempt>)
    ensures ShownOn(clients + [c], wire) == ShownOn(clients, wire) + DataBytes(TraceOf(wire, c))
  {
    hide DataBytes, TraceOf;
    assert (clients + [c])[..|clients|] == clients;
  }

  lemma {:induction false} ShownAdd(a: seq<Conn>, b: seq<Conn>, wire: seq<Attempt>)
    ensures ShownOn(a + b, wire) == ShownOn(a, wire) + ShownOn(b, wire)
    decreases |b|
  {
    if b == [] {
      assert a + b == a;
      assert ShownOn(a, wire) + [] == ShownOn(a, wire);
    } else {
      hide DataBytes, TraceOf, ShownOn;
      var n := |b| - 1;
      ShownAdd(a, b[..n], wire);
      ShownOnNext(a + b[..n], b[n], wire);
      ShownOnNext(b[..n], b[n], wire);
      Halves(b, n);
      assert b[n..] == [b[n]];
      Assoc(a, b[..n], [b[n]]);
      Assoc(ShownOn(a, wire), ShownOn(b[..n], wire), DataBytes(TraceOf(wire, b[n])));
    }
  }

  /**
   Persistence as a user sees it, in every run: what a session's PTY gave is what its connections were shown, one
   after the other in the order the session took them, through all disconnects and takeovers.
   */
  lemma OutputContinuesInRun(events: seq<SysEvent>, sid: nat)
    requires Feasible(events)
    ensures BytesRead(Project(events, sid)) == ShownOn(Clients(Project(events, sid)), After(events).wire)
  {
    AlwaysPast(events);
    ProjectRuns(events, sid);
    hide After, Feasible, Project, Clients, Run, Admissible, Shown, ShownOn, BytesRead, TraceOf, SentTo, DataBytes;
    var clients, wire, sent := Clients(Project(events, sid)), After(events).wire, Run(Project(events, sid)).1;
    OutputContinues(Project(events, sid));
    forall c | c in clients ensures DataBytes(TraceOf(wire, c)) == DataBytes(SentTo(c, sent)) {
      ConnectionShows(events, sid, c);
    }
    ShownSame(clients, wire, sent);
  }

  // ----- The creator is served first -----

  /** The clients a session has taken and those waiting for it, in order. */
  ghost function Line(s: State, events: seq<SysEvent>, sid: nat): seq<Conn> {
    Clients(Project(events, sid)) + if sid in s.queues then s.queues[sid] else []
  }

  predicate Created(s: State, c: Conn) {
    c in s.requests && s.requests[c].NewSession?
  }

  /** The creator heads the line, or is about to, unless the session has ended before. */
  ghost predicate CreatorLeads(s: State, line: seq<Conn>, sid: nat) {
    if sid >= s.reg.nextId then line == []
    else if line != [] then Created(s, line[0])
    else HasEnded(s, sid) || (s.pc.HandingOff? && s.pc.sid == sid && Created(s, s.pc.conn))
  }

  /** Steps that move no connection to a session and no session. */
  lemma QuietStep(s: State, e: SysEvent)
    requires Possible(s, e) && !e.Request? && !e.Turn? && !e.HandOff?
    ensures
      var after := Next(s, e);
      && after.queues == s.queues && after.sessions == s.sessions && after.requests == s.requests
      && after.reg.nextId == s.reg.nextId && (s.pc.HandingOff? || after.pc.HandingOff? ==> after.pc == s.pc)
  {
    hide Serve, DoTurn;
  }

  lemma LeadsQuiet(s: State, events: seq<SysEvent>, sid: nat)
    requires events != [] && Possible(s, events[|events| - 1])
    requires var e := events[|events| - 1]; !e.Request? && !e.Turn? && !e.HandOff?
    requires CreatorLeads(s, Line(s, events[..|events| - 1], sid), sid)
    ensures CreatorLeads(Next(s, events[|events| - 1]), Line(Next(s, events[|events| - 1]), events, sid), sid)
  {
    var e := events[|events| - 1];
    ClientsNext(events, sid);
    QuietStep(s, e);
    hide Project, Clients, Next, Possible;
  }

  lemma LineRequest(s: State, f: Frame, events: seq<SysEvent>, sid: nat)
    requires events != [] && events[|events| - 1] == Request(f) && Sound(s) && Possible(s, Request(f))
    ensures Line(DoRequest(s, f), events, sid) == Line(s, events[..|events| - 1], sid)
  {
    ClientsNext(events, sid);
    ServeSteps(s, f);
    assert s.reg.nextId !in s.queues;
    hide Project, Clients, Serve, DoRequest, WellFormed;
  }

  lemma OnlyCreation(reg: Registry, f: Frame, sight: Sight)
    ensures Serve(reg, f, sight).1.reply.SessionCreated? ==> f.NewSession? && !Serve(reg, f, sight).1.stop
  {
    hide Taken, Listing, Resolve, Resolves, Reap, Valid, FromAscii, Print;
  }

  lemma HandsCreated(s: State, f: Frame)
    requires Possible(s, Request(f))
    ensures var outcome := Serve(s.reg, f, SightOf(s)).1;
            outcome.reply.SessionCreated? ==>
              f.NewSession? && DoRequest(s, f).pc == HandingOff(s.pc.conn, s.reg.nextId)
  {
    ServeIssues(s.reg, f, SightOf(s));
    ReplyKind(s.reg, f, SightOf(s));
    OnlyCreation(s.reg, f, SightOf(s));
    hide Serve, SightOf, Conversation;
  }

  lemma LeadsRequest(s: State, f: Frame, line: seq<Conn>, sid: nat)
    requires Sound(s) && Conversing(s) && Possible(s, Request(f)) && CreatorLeads(s, line, sid)
    ensures CreatorLeads(DoRequest(s, f), line, sid)
  {
    ServeSteps(s, f);
    ServeIssues(s.reg, f, SightOf(s));
    ServeHands(s.reg, f, SightOf(s));
    RequestWire(s, f, s.pc.conn);
    HandsCreated(s, f);
    assert Holds(s, AtDaemon, s.pc.conn) && Fits(s, AtDaemon, s.pc.conn);
    assert HasEnded(s, sid) ==> HasEnded(DoRequest(s, f), sid);
    hide Serve, SightOf, DoRequest, Conversing, TraceOf, WellFormed, HasEnded;
  }

  lemma TakeOne(taken: seq<Conn>, queue: seq<Conn>)
    requires queue != []
    ensures (taken + [queue[0]]) + queue[1..] == taken + queue
    ensures (taken + [queue[0]]) + [] <= taken + queue
  {
  }

  /** Taking a client off the channel moves it within the line; ending a session drops those still waiting. */
  lemma LineTurn(s: State, other: nat, e: Event, events: seq<SysEvent>, sid: nat)
    requires events != [] && events[|events| - 1] == Turn(other, e) && TurnEnabled(s, other, e)
    ensures
      var before, after := Line(s, events[..|events| - 1], sid), Line(DoTurn(s, other, e), events, sid);
      after == before || (other == sid && Step(s.sessions[sid], e).0.phase.Ended? && after <= before)
  {
    ClientsNext(events, sid);
    hide Project, Clients, Step, Enabled;
    if other == sid {
      var taken := Clients(Project(events[..|events| - 1], sid));
      assert taken + [] <= taken + s.queues[sid];
      if e.Recv? {
        TakeOne(taken, s.queues[sid]);
      }
    }
  }

  lemma LeadsTurn(s: State, other: nat, e: Event, before: seq<Conn>, after: seq<Conn>, sid: nat)
    requires TurnEnabled(s, other, e) && CreatorLeads(s, before, sid)
    requires after == before || (other == sid && Step(s.sessions[sid], e).0.phase.Ended? && after <= before)
    ensures CreatorLeads(DoTurn(s, other, e), after, sid)
  {
    TurnKeepsRequests(s, other, e);
    TurnEnds(s.sessions[other], e);
    hide Step, Enabled;
  }

  /** The connection passed on joins the line, unless its session is over. */
  lemma LineHandOff(s: State, events: seq<SysEvent>, sid: nat)
    requires events != [] && events[|events| - 1] == HandOff && Possible(s, HandOff) && s.pc.sid in s.queues
    ensures
      var before := Line(s, events[..|events| - 1], sid);
      Line(DoHandOff(s), events, sid)
        == if sid == s.pc.sid && !HasEnded(s, sid) then before + [s.pc.conn] else before
  {
    ClientsNext(events, sid);
    hide Project, Clients, HasEnded;
    if sid == s.pc.sid {
      Assoc(Clients(Project(events, sid)), s.queues[sid], [s.pc.conn]);
    }
  }

  lemma LeadsHandOff(s: State, events: seq<SysEvent>, sid: nat)
    requires events != [] && events[|events| - 1] == HandOff && Sound(s) && Possible(s, HandOff)
    requires CreatorLeads(s, Line(s, events[..|events| - 1], sid), sid)
    ensures CreatorLeads(DoHandOff(s), Line(DoHandOff(s), events, sid), sid)
  {
    LineHandOff(s, events, sid);
    assert HasEnded(DoHandOff(s), sid) == HasEnded(s, sid) && s.pc.sid in s.queues;
    hide Line, WellFormed, HasEnded;
  }

  lemma LeadsNext(s: State, events: seq<SysEvent>, sid: nat)
    requires events != [] && Sound(s) && Conversing(s) && Possible(s, events[|events| - 1])
    requires CreatorLeads(s, Line(s, events[..|events| - 1], sid), sid)
    ensures CreatorLeads(Next(s, events[|events| - 1]), Line(Next(s, events[|events| - 1]), events, sid), sid)
  {
    hide Project, Clients, CreatorLeads, Line;
    var e := events[|events| - 1];
    match e {
      case Request(f) =>
        LineRequest(s, f, events, sid);
        LeadsRequest(s, f, Line(s, events[..|events| - 1], sid), sid);
      case Turn(other, event) =>
        LineTurn(s, other, event, events, sid);
        LeadsTurn(s, other, event, Line(s, events[..|events| - 1], sid), Line(Next(s, e), events, sid), sid);
      case HandOff => LeadsHandOff(s, events, sid);
      case _ => LeadsQuiet(s, events, sid);
    }
    hide Sound, Conversing, DoTurn, DoRequest, DoHandOff;
  }

  lemma {:induction false} AlwaysCreatorLeads(events: seq<SysEvent>, sid: nat)
    requires Feasible(events)
    ensures CreatorLeads(After(events), Line(After(events), events, sid), sid)
    decreases |events|
  {
    if events == [] {
    } else {
      var n := |events| - 1;
      var s := After(events[..n]);
      AlwaysCreatorLeads(events[..n], sid);
      AlwaysSound(events[..n]);
      AlwaysConversing(events[..n]);
      hide After, Feasible, Next, Sound, OneOwner, Conversing, CreatorLeads, Line;
      LeadsNext(s, events, sid);
    }
  }

  /** The first client a session takes is the one that created it. */
  lemma CreatorServedFirst(events: seq<SysEvent>, sid: nat)
    requires Feasible(events) && Clients(Project(events, sid)) != []
    ensures Created(After(events), Clients(Project(events, sid))[0])
  {
    AlwaysCreatorLeads(events, sid);
    hide After, Feasible, Project, Clients;
  }

  lemma {:induction false} FirstTaken(script: seq<Event>)
    requires script != [] && script[0].Recv?
    ensures Clients(script) != [] && Clients(script)[0] == script[0].client
    decreases |script|
  {
    if |script| == 1 {
      assert script[..0] == [] && Clients([]) == [];
    } else {
      FirstTaken(script[..|script| - 1]);
    }
  }

  /** In every run, a session's shell has the environment that its creator sent in its first frame, if it did. */
  lemma CreatorsEnvironment(events: seq<SysEvent>, sid: nat)
    requires Feasible(events) && sid in After(events).sessions && After(events).sessions[sid].env.Some?
    ensures
      var script := Project(events, sid);
      && |script| > 1 && script[0].Recv? && script[1].FirstFrame?
      && Created(After(events), script[0].client)
      && After(events).sessions[sid].env
           == if EnvFirst(script[1].first) then Some(script[1].first.value.vars) else Some([])
  {
    ProjectRuns(events, sid);
    FirstEnvOnly(Project(events, sid));
    FirstTaken(Project(events, sid));
    CreatorServedFirst(events, sid);
    hide After, Feasible, Project, Run, Admissible, Clients;
  }

  // ----- Ids and names -----

  function Issued(wire: seq<Attempt>): seq<Str> {
    if wire == [] then []
    else
      var n := |wire| - 1;
      Issued(wire[..n]) + if wire[n].frame.SessionCreated? then [wire[n].frame.id] else []
  }

  function Numerals(n: nat): (r: seq<Str>)
    ensures |r| == n && forall k :: 0 <= k < n ==> r[k] == Print(k)
  {
    seq(n, k requires 0 <= k < n => Print(k))
  }

  lemma IssuedAppend(wire: seq<Attempt>, more: seq<Attempt>)
    requires |more| <= 1
    ensures Issued(wire + more)
         == if more != [] && more[0].frame.SessionCreated? then Issued(wire) + [more[0].frame.id] else Issued(wire)
  {
    if more == [] {
      assert wire + more == wire;
    } else {
      assert (wire + more)[..|wire|] == wire;
    }
  }

  lemma IssuedTurn(s: State, sid: nat, e: Event)
    requires TurnEnabled(s, sid, e)
    ensures Issued(DoTurn(s, sid, e).wire) == Issued(s.wire)
  {
    StepSends(s.sessions[sid], e);
    IssuedAppend(s.wire, Attempts(sid, Step(s.sessions[sid], e).1));
    hide Step, Enabled, Issued;
  }

  lemma ReplyLogged(s: State, f: Frame)
    requires s.pc.Serving?
    ensures DoRequest(s, f).reg == Serve(s.reg, f, SightOf(s)).0
    ensures DoRequest(s, f).wire == s.wire + [Attempt(None, s.pc.conn, Serve(s.reg, f, SightOf(s)).1.reply)]
  {
    hide Serve, SightOf;
  }

  lemma IssuedRequest(s: State, f: Frame)
    requires WellFormed(s.reg) && s.pc.Serving? && Issued(s.wire) == Numerals(s.reg.nextId)
    ensures Issued(DoRequest(s, f).wire) == Numerals(DoRequest(s, f).reg.nextId)
  {
    hide Serve, SightOf, WellFormed, DoRequest, Issued;
    var reply := Serve(s.reg, f, SightOf(s)).1.reply;
    ServeIssues(s.reg, f, SightOf(s));
    ReplyLogged(s, f);
    IssuedAppend(s.wire, [Attempt(None, s.pc.conn, reply)]);
    assert Numerals(s.reg.nextId) + [Print(s.reg.nextId)] == Numerals(s.reg.nextId + 1);
  }

  lemma IssuedNext(s: State, e: SysEvent)
    requires Sound(s) && Possible(s, e) && Issued(s.wire) == Numerals(s.reg.nextId)
    ensures Issued(Next(s, e).wire) == Numerals(Next(s, e).reg.nextId)
  {
    match e {
      case Turn(sid, event) => IssuedTurn(s, sid, event);
      case Request(f) => IssuedRequest(s, f);
      case _ =>
    }
    hide Serve, DoTurn, DoRequest, Issued, Numerals, Sound;
  }

  /** Over any run the ids told to clients are 0, 1, 2, ... in order: none is skipped and none issued twice. */
  lemma {:induction false} IdsIssuedOnce(events: seq<SysEvent>)
    requires Feasible(events)
    ensures Issued(After(events).wire) == Numerals(After(events).reg.nextId)
    decreases |events|
  {
    if events == [] {
    } else {
      var n := |events| - 1;
      IdsIssuedOnce(events[..n]);
      AlwaysSound(events[..n]);
      IssuedNext(After(events[..n]), events[n]);
    }
  }

  lemma IdentityNext(s: State, e: SysEvent)
    requires Sound(s) && Possible(s, e)
    ensures var now := Next(s, e).reg;
            && s.reg.nextId <= now.nextId
            && forall id :: id in now.table && id < s.reg.nextId ==>
                 id in s.reg.table && now.table[id] == s.reg.table[id]
  {
    if e.Request? {
      ServeKeepsIdentity(s.reg, e.frame, SightOf(s));
      hide Serve, SightOf;
    }
  }

  /** What is still listed under an old id is the session that was listed then, under the same name. */
  lemma {:induction false} IdentityKept(events: seq<SysEvent>, n: nat)
    requires Feasible(events) && n <= |events|
    ensures Feasible(events[..n])
    ensures var earlier, now := After(events[..n]).reg, After(events).reg;
            && earlier.nextId <= now.nextId
            && forall id :: id in now.table && id < earlier.nextId ==>
                 id in earlier.table && now.table[id] == earlier.table[id]
    decreases |events|
  {
    if n == |events| {
      assert events[..n] == events;
    } else {
      var last := |events| - 1;
      assert events[..last][..n] == events[..n];
      IdentityKept(events[..last], n);
      AlwaysSound(events[..last]);
      IdentityNext(After(events[..last]), events[last]);
    }
  }

  /**
   The number a client was told (and uses to reconnect) leads, at any later time, to that very session
   or to none, exactly when no other listed session is named by the numeral.
   */
  lemma NumberKeepsItsMeaning(events: seq<SysEvent>, n: nat, id: nat)
    requires Feasible(events) && n <= |events| && Feasible(events[..n]) && Print(id) in Issued(After(events[..n]).wire)
    ensures
      var earlier, now := After(events[..n]).reg, After(events).reg;
      && (id in now.table ==> id in earlier.table && now.table[id] == earlier.table[id])
      && (Resolve(now.table, Print(id)) == (if id in now.table then Some(id) else None) <==>
          forall j :: Named(now.table, j, Print(id)) ==> j == id)
  {
    IdsIssuedOnce(events[..n]);
    var k :| 0 <= k < After(events[..n]).reg.nextId && Numerals(After(events[..n]).reg.nextId)[k] == Print(id);
    PrintInjective(k, id);
    IdentityKept(events, n);
    AlwaysSound(events);
    NumeralResolves(After(events).reg, id);
  }
}
