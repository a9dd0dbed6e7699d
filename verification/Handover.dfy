/**
 From the daemon's consent to the session: every connection that is let in gets to the session it was let in to, in
 the order in which the daemon said so, unless that session is over before.
 */
module Handover {
  import opened Wrappers
  import opened Sequences
  import opened Utf8
  import opened Decimal
  import opened Protocol
  import opened Server
  import opened SessionLaws
  import opened Daemon
  import opened System
  import opened SystemLaws
  import opened Connections
  import opened SystemRuns
  import opened Availability

  /** The daemon's answer lets the asker in to session `sid`: as its creator, or by a target that leads to it. */
  ghost predicate LetIn(s: State, f: Frame, sid: nat) {
    var reply := Serve(s.reg, f, SightOf(s)).1.reply;
    match f
    case NewSession(_) => reply.SessionCreated? && sid == s.reg.nextId
    case Attach(target) => reply.Ok? && Resolves(Reap(s.reg.table, s.finished), target, Some(sid))
    case _ => false
  }

  /** The connections let in to session `sid`, in the order of the daemon's answers. */
  ghost function Guests(events: seq<SysEvent>, sid: nat): seq<Conn>
    requires Feasible(events)
    decreases |events|
  {
    if events == [] then []
    else
      var n := |events| - 1;
      var s := After(events[..n]);
      Guests(events[..n], sid) + if events[n].Request? && LetIn(s, events[n].frame, sid) then [s.pc.conn] else []
  }

  /** The connection just let in and not yet passed on. */
  function Handed(s: State, sid: nat): seq<Conn> {
    if s.pc.HandingOff? && s.pc.sid == sid then [s.pc.conn] else []
  }

  lemma LetInAttach(s: State, target: Str, sid: nat)
    requires Sound(s) && Possible(s, Request(Attach(target)))
    ensures LetIn(s, Attach(target), sid) <==> DoRequest(s, Attach(target)).pc == HandingOff(s.pc.conn, sid)
  {
    assert SightOf(s).finished == s.finished && WellFormed(s.reg);
    hide Serve, SightOf, Sound, WellFormed, DoRequest, Resolves, Reap;
    AttachReply(s.reg, target, SightOf(s));
    ServeSteps(s, Attach(target));
    HandingOffPc(s, Attach(target));
    if Resolves(Reap(s.reg.table, s.finished), target, Some(sid)) {
      ReapedResolution(s.reg, s.finished, target, Some(sid));
    }
  }

  lemma LetInCreator(s: State, f: Frame, sid: nat)
    requires Possible(s, Request(f)) && !f.Attach?
    ensures LetIn(s, f, sid) <==> DoRequest(s, f).pc == HandingOff(s.pc.conn, sid)
  {
    hide Serve, SightOf, DoRequest, Resolves, Reap;
    ServeSteps(s, f);
    HandsCreated(s, f);
    ServeHands(s.reg, f, SightOf(s));
  }

  /** Who is let in is handed over, and nobody else is. */
  lemma LetInHands(s: State, f: Frame, sid: nat)
    requires Sound(s) && Possible(s, Request(f))
    ensures LetIn(s, f, sid) <==> Handed(DoRequest(s, f), sid) == [s.pc.conn]
    ensures !LetIn(s, f, sid) ==> Handed(DoRequest(s, f), sid) == []
  {
    RequestPc(s, f);
    hide Sound, Possible, DoRequest, LetIn;
    if f.Attach? {
      LetInAttach(s, f.session, sid);
    } else {
      LetInCreator(s, f, sid);
    }
  }

  /**
   The clients a session has taken, those in its channel and the one on its way there are those let in, in that order.
   Once the session is over, it took the first of them.
   */
  ghost predicate InOrder(s: State, events: seq<SysEvent>, guests: seq<Conn>, sid: nat) {
    if HasEnded(s, sid) then Line(s, events, sid) <= guests
    else Line(s, events, sid) + Handed(s, sid) == guests
  }

  lemma OrderRequest(s: State, f: Frame, events: seq<SysEvent>, guests: seq<Conn>, sid: nat)
    requires events != [] && events[|events| - 1] == Request(f) && Sound(s) && Possible(s, Request(f))
    requires InOrder(s, events[..|events| - 1], guests, sid)
    ensures InOrder(DoRequest(s, f), events, guests + if LetIn(s, f, sid) then [s.pc.conn] else [], sid)
  {
    assert Handed(s, sid) == [];
    hide DoRequest, LetIn, Line, Sound, HasEnded, Handed, Possible;
    LineRequest(s, f, events, sid);
    LetInHands(s, f, sid);
    EndedAsBefore(s, f, sid);
    var line := Line(s, events[..|events| - 1], sid);
    assert guests + [] == guests && line + [] == line;
  }

  lemma OrderTurn(s: State, other: nat, e: Event, events: seq<SysEvent>, guests: seq<Conn>, sid: nat)
    requires events != [] && events[|events| - 1] == Turn(other, e) && Sound(s) && TurnEnabled(s, other, e)
    requires InOrder(s, events[..|events| - 1], guests, sid)
    ensures InOrder(DoTurn(s, other, e), events, guests, sid)
  {
    LineTurn(s, other, e, events, sid);
    TurnKeepsRequests(s, other, e);
    TurnEnds(s.sessions[other], e);
    hide Step, Enabled, Line, Sound;
  }

  lemma OrderHandOff(s: State, events: seq<SysEvent>, guests: seq<Conn>, sid: nat)
    requires events != [] && events[|events| - 1] == HandOff && Sound(s) && Possible(s, HandOff)
    requires InOrder(s, events[..|events| - 1], guests, sid)
    ensures InOrder(DoHandOff(s), events, guests, sid)
  {
    assert s.pc.sid in s.queues && (HasEnded(DoHandOff(s), sid) <==> HasEnded(s, sid));
    LineHandOff(s, events, sid);
    hide Line, Sound, HasEnded;
    var line := Line(DoHandOff(s), events, sid);
    assert line + [] == line;
  }

  lemma OrderQuiet(s: State, events: seq<SysEvent>, guests: seq<Conn>, sid: nat)
    requires events != [] && Possible(s, events[|events| - 1])
    requires var e := events[|events| - 1]; !e.Request? && !e.Turn? && !e.HandOff?
    requires InOrder(s, events[..|events| - 1], guests, sid)
    ensures InOrder(Next(s, events[|events| - 1]), events, guests, sid)
  {
    ClientsNext(events, sid);
    QuietStep(s, events[|events| - 1]);
    hide Project, Clients, Next, Possible;
  }

  lemma OrderNext(s: State, events: seq<SysEvent>, guests: seq<Conn>, sid: nat)
    requires events != [] && Sound(s) && Possible(s, events[|events| - 1])
    requires InOrder(s, events[..|events| - 1], guests, sid)
    ensures
      var e := events[|events| - 1];
      InOrder(Next(s, e), events, guests + if e.Request? && LetIn(s, e.frame, sid) then [s.pc.conn] else [], sid)
  {
    assert guests + [] == guests;
    hide Sound, InOrder, LetIn;
    match events[|events| - 1] {
      case Request(f) => OrderRequest(s, f, events, guests, sid);
      case Turn(other, e) => OrderTurn(s, other, e, events, guests, sid);
      case HandOff => OrderHandOff(s, events, guests, sid);
      case _ => OrderQuiet(s, events, guests, sid);
    }
    hide DoRequest, DoTurn, DoHandOff;
  }

  lemma {:induction false} AlwaysInOrder(events: seq<SysEvent>, sid: nat)
    requires Feasible(events)
    ensures InOrder(After(events), events, Guests(events, sid), sid)
    decreases |events|
  {
    if events == [] {
    } else {
      var n := |events| - 1;
      hide Sound, InOrder, LetIn, Next, Possible;
      AlwaysInOrder(events[..n], sid);
      AlwaysSound(events[..n]);
      OrderNext(After(events[..n]), events, Guests(events[..n], sid), sid);
    }
  }

  /** A session takes its clients in the order in which the daemon let them in, and passes over none. */
  lemma ServedInOrder(events: seq<SysEvent>, sid: nat)
    requires Feasible(events)
    ensures Clients(Project(events, sid)) <= Guests(events, sid)
  {
    AlwaysInOrder(events, sid);
    hide After, Feasible, Guests, Project, Clients, HasEnded;
  }

  // ----- Whoever was greeted gets there -----

  lemma LetInGuest(s: State, f: Frame, c: Conn) returns (sid: nat)
    requires Sound(s) && Conversing(s) && Possible(s, Request(f)) && s.pc == Serving(c)
    requires Admitted(DoRequest(s, f), c)
    ensures LetIn(s, f, sid)
  {
    FirstReply(s, f, c);
    if f.Attach? {
      assert SightOf(s).finished == s.finished;
      AttachReply(s.reg, f.session, SightOf(s));
      hide Serve, SightOf, DoRequest, Sound, Conversing, TraceOf, Resolves, Reap;
      sid := Resolve(Reap(s.reg.table, s.finished), f.session).value;
    } else {
      sid := s.reg.nextId;
    }
    hide Serve, SightOf, DoRequest, Sound, Conversing, TraceOf, Resolves, Reap;
  }

  /** Who is admitted now was before, or has just asked. */
  lemma AdmittedNext(s: State, e: SysEvent, c: Conn)
    requires Conversing(s) && Possible(s, e) && Admitted(Next(s, e), c)
    ensures Admitted(s, c) || (e.Request? && s.pc == Serving(c))
  {
    assert Proper(s, c);
    TraceGrows(s, e, c);
    if c !in s.requests {
      RequestsNext(s, e, c);
    }
    hide Next, Possible, Conversing, TraceOf, Greets;
  }

  /** A connection whose first frame is a greeting was let in to some session. */
  lemma {:induction false} AdmittedIsGuest(events: seq<SysEvent>, c: Conn) returns (sid: nat)
    requires Feasible(events) && Admitted(After(events), c)
    ensures c in Guests(events, sid)
    decreases |events|
  {
    if events == [] {
      assert false;
    }
    var n := |events| - 1;
    var s, e := After(events[..n]), events[n];
    AlwaysConversing(events[..n]);
    AlwaysSound(events[..n]);
    hide Next, Possible, Admitted, Sound, Conversing, LetIn, DoRequest;
    AdmittedNext(s, e, c);
    if Admitted(s, c) {
      sid := AdmittedIsGuest(events[..n], c);
    } else {
      HandingOffPc(s, e.frame);
      sid := LetInGuest(s, e.frame, c);
    }
  }

  /** Who was let in is on its way, was taken, or came too late. */
  lemma GuestArrives(events: seq<SysEvent>, sid: nat, c: Conn)
    requires Feasible(events) && c in Guests(events, sid)
    ensures Bound(After(events), events, c, sid) || HasEnded(After(events), sid)
  {
    AlwaysInOrder(events, sid);
    hide After, Feasible, Guests, Project, Clients, HasEnded;
  }

  /**
   Every connection that was told it is attached gets to the session it asked for: it is on its way there or has been
   taken, unless that session is over.
   */
  lemma GreetedArrives(events: seq<SysEvent>, c: Conn) returns (sid: nat)
    requires Feasible(events) && Admitted(After(events), c)
    ensures c in Guests(events, sid)
    ensures Bound(After(events), events, c, sid) || HasEnded(After(events), sid)
  {
    sid := AdmittedIsGuest(events, c);
    GuestArrives(events, sid, c);
  }

  lemma {:induction false} GuestsStay(events: seq<SysEvent>, n: nat, sid: nat)
    requires Feasible(events) && n <= |events| && Feasible(events[..n])
    ensures Guests(events[..n], sid) <= Guests(events, sid)
    decreases |events|
  {
    if n == |events| {
      assert events[..n] == events;
    } else {
      var last := |events| - 1;
      assert events[..last][..n] == events[..n];
      hide LetIn, After;
      GuestsStay(events[..last], n, sid);
    }
  }

  lemma EndedNext(s: State, e: SysEvent, sid: nat)
    requires Sound(s) && Possible(s, e) && HasEnded(s, sid)
    ensures HasEnded(Next(s, e), sid)
  {
    match e {
      case Request(f) => EndedAsBefore(s, f, sid);
      case Turn(other, event) => TurnEnds(s.sessions[other], event);
      case _ =>
    }
    hide Step, Enabled, DoRequest, Sound;
  }

  lemma {:induction false} EndedForGood(events: seq<SysEvent>, n: nat, sid: nat)
    requires Feasible(events) && n <= |events| && Feasible(events[..n]) && HasEnded(After(events[..n]), sid)
    ensures HasEnded(After(events), sid)
    decreases |events|
  {
    if n == |events| {
      assert events[..n] == events;
    } else {
      var last := |events| - 1;
      assert events[..last][..n] == events[..n];
      hide HasEnded, Next, Possible, Sound;
      EndedForGood(events[..last], n, sid);
      AlwaysSound(events[..last]);
      EndedNext(After(events[..last]), events[last], sid);
    }
  }

  /** Who is being handed to a session at some time is bound for it ever after, until the session is over. */
  lemma HandedArrives(events: seq<SysEvent>, n: nat, sid: nat, c: Conn)
    requires Feasible(events) && n <= |events| && Feasible(events[..n])
    requires After(events[..n]).pc == HandingOff(c, sid)
    ensures Bound(After(events), events, c, sid) || HasEnded(After(events), sid)
  {
    hide After, Feasible, Guests, Line, Bound, HasEnded;
    if HasEnded(After(events[..n]), sid) {
      EndedForGood(events, n, sid);
    } else {
      AlwaysInOrder(events[..n], sid);
      GuestsStay(events, n, sid);
      assert c in Guests(events[..n], sid);
      GuestArrives(events, sid, c);
    }
  }

  /**
   Coming back by number, to the end: a client whose request names its session by number, while that session lives, was
   not killed and is not shadowed, is on its way to it or was taken by it, at any later time, unless it is over by then.
   */
  lemma NumberBringsBack(events: seq<SysEvent>, n: nat, id: nat, c: Conn)
    requires Feasible(events) && n < |events| && Feasible(events[..n]) && Feasible(events[..n + 1])
    requires After(events[..n]).pc == Serving(c) && events[n] == Request(Attach(Print(id)))
    requires var s := After(events[..n]);
             id < s.reg.nextId && !HasEnded(s, id) && id !in s.aborting && !Shadowed(s, id)
    ensures Bound(After(events), events, c, id) || HasEnded(After(events), id)
  {
    TakeTake(events, n + 1, n);
    assert After(events[..n + 1]) == Next(After(events[..n]), events[n]);
    hide After, Feasible, Bound, HasEnded, Shadowed, Next, Possible;
    ReconnectFinds(events[..n], id, c);
    HandedArrives(events, n + 1, id, c);
  }

  /** The daemon hands such a client over at once. */
  lemma NameHands(before: seq<SysEvent>, m: nat, sid: nat, name: Str, c: Conn)
    requires Feasible(before) && m <= |before| && Feasible(before[..m])
    requires Named(After(before[..m]).reg.table, sid, name) && After(before).pc == Serving(c)
    requires !HasEnded(After(before), sid) && sid !in After(before).aborting
    ensures Possible(After(before), Request(Attach(name)))
    ensures Next(After(before), Request(Attach(name))).pc == HandingOff(c, sid)
  {
    hide After, Feasible, HasEnded, Next, Named, Granted, SightOf;
    NameFinds(before, m, sid, name, c);
  }

  /** Coming back by name likewise, to a session that lives and was not killed. */
  lemma NameBringsBack(events: seq<SysEvent>, m: nat, n: nat, sid: nat, name: Str, c: Conn)
    requires Feasible(events) && m <= n < |events| && Feasible(events[..n]) && Feasible(events[..n + 1])
    requires Feasible(events[..n][..m]) && Named(After(events[..n][..m]).reg.table, sid, name)
    requires After(events[..n]).pc == Serving(c) && events[n] == Request(Attach(name))
    requires !HasEnded(After(events[..n]), sid) && sid !in After(events[..n]).aborting
    ensures Bound(After(events), events, c, sid) || HasEnded(After(events), sid)
  {
    hide Bound, HasEnded, Next, Possible, Named;
    NameHands(events[..n], m, sid, name, c);
    TakeTake(events, n + 1, n);
    assert After(events[..n + 1]) == Next(After(events[..n]), events[n]);
    hide After, Feasible;
    HandedArrives(events, n + 1, sid, c);
  }

  // ----- Outsiders -----

  /** Accepted, never asked for anything, and held by nobody. */
  ghost predicate Outside(s: State, c: Conn) {
    c < s.accepted && c !in s.requests && forall p: Place :: !Holds(s, p, c)
  }

  lemma OutsideUnmoved(s: State, e: SysEvent, c: Conn)
    requires Possible(s, e) && Outside(s, c)
    ensures Moved(s, e).Some? ==> Moved(s, e).value.0 != c
  {
    match e {
      case HandOff => assert !Holds(s, AtDaemon, c);
      case Turn(sid, event) => assert !Holds(s, InQueue(sid), c);
      case _ =>
    }
    hide Enabled;
  }

  lemma OutsideStays(s: State, e: SysEvent, c: Conn)
    requires Sound(s) && OneOwner(s) && Possible(s, e) && Outside(s, c)
    ensures Outside(Next(s, e), c)
  {
    MovedAccepted(s, e);
    OutsideUnmoved(s, e, c);
    hide Next, Possible, Sound, OneOwner;
    assert !Holds(s, AtDaemon, c);
    if c in Next(s, e).requests {
      RequestsNext(s, e, c);
    }
    hide Holds;
    forall p: Place ensures !Holds(Next(s, e), p, c) {
      if Holds(Next(s, e), p, c) {
        HoldsNext(s, e, p, c);
      }
    }
  }

  lemma OutsideNow(s: State)
    requires Sound(s) && OneOwner(s) && Conversing(s) && s.pc.Listening?
    ensures Outside(Next(s, Accept(false)), s.accepted)
  {
    assert Proper(s, s.accepted);
    forall p: Place ensures !Holds(Next(s, Accept(false)), p, s.accepted) {
      assert Holds(s, p, s.accepted) ==> s.accepted < s.accepted;
    }
    hide Sound, Conversing, OneOwner;
  }

  lemma {:induction false} AlwaysOutside(events: seq<SysEvent>, n: nat, c: Conn)
    requires Feasible(events) && n < |events| && events[n] == Accept(false)
    requires Feasible(events[..n]) && c == After(events[..n]).accepted
    ensures Outside(After(events), c)
    decreases |events|
  {
    var last := |events| - 1;
    var s := After(events[..last]);
    hide Next, Sound, OneOwner, Conversing, Outside;
    AlwaysSound(events[..last]);
    AlwaysConversing(events[..last]);
    if n == last {
      OutsideNow(s);
    } else {
      assert events[..last][..n] == events[..n];
      AlwaysOutside(events[..last], n, c);
      OutsideStays(s, events[last], c);
    }
  }

  /** A peer of another user gets nowhere: in every run, it is told nothing and no session ever has it. */
  lemma OutsidersKeptOut(events: seq<SysEvent>, n: nat, c: Conn)
    requires Feasible(events) && n < |events| && events[n] == Accept(false)
    requires Feasible(events[..n]) && c == After(events[..n]).accepted
    ensures Outside(After(events), c) && TraceOf(After(events).wire, c) == []
  {
    AlwaysOutside(events, n, c);
    AlwaysConversing(events);
    assert Proper(After(events), c);
    hide After, Feasible, TraceOf, Holds;
  }

  // ----- What can happen next -----

  /** The daemon's last step. */
  function LastStep(events: seq<SysEvent>): Option<SysEvent> {
    if events == [] then None
    else
      var n := |events| - 1;
      if events[n].Turn? || events[n].TaskDone? then LastStep(events[..n]) else Some(events[n])
  }

  /** The state of the daemon's loop agrees with its last step. */
  ghost predicate Steps(pc: Pc, last: Option<SysEvent>) {
    match last
    case None => pc.Reaping?
    case Some(ReapTable) => pc.Listening?
    case Some(Accept(trusted)) => if trusted then pc.Serving? else pc.Reaping?
    case Some(Request(KillServer)) => pc.Down?
    case Some(Request(NewSession(_))) => pc.HandingOff? || pc.Reaping?
    case Some(Request(Attach(_))) => pc.HandingOff? || pc.Reaping?
    case Some(Signal) => pc.Down?
    case Some(ListenerFailed) => pc.Down?
    case Some(_) => pc.Reaping?
  }

  lemma StepsRequest(s: State, f: Frame)
    requires Possible(s, Request(f))
    ensures Steps(DoRequest(s, f).pc, Some(Request(f)))
  {
    hide Taken, Listing, Resolve, Resolves, Reap, SightOf, Valid, FromAscii, Print, Complaint;
  }

  lemma {:induction false} AlwaysSteps(events: seq<SysEvent>)
    requires Feasible(events)
    ensures Steps(After(events).pc, LastStep(events))
    decreases |events|
  {
    if events == [] {
    } else {
      var n := |events| - 1;
      var s, e := After(events[..n]), events[n];
      AlwaysSteps(events[..n]);
      match e {
        case Request(f) => StepsRequest(s, f);
        case Turn(sid, event) => TurnKeepsRequests(s, sid, event);
        case _ =>
      }
      hide Serve, DoRequest, DoTurn, Steps;
    }
  }

  lemma FeasibleNext(events: seq<SysEvent>, e: SysEvent)
    requires Feasible(events)
    ensures Feasible(events + [e]) <==> Possible(After(events), e)
  {
    hide Possible;
    assert (events + [e])[..|events|] == events;
  }

  /**
   The daemon's loop, told by its own steps: it reaps before it listens; it takes one request from each peer it trusts,
   and passes that connection on if it let it in; and it stops for good when it is told to.
   */
  lemma DaemonLoop(events: seq<SysEvent>, e: SysEvent)
    requires Feasible(events) && !e.Turn? && !e.TaskDone?
    ensures Feasible(events + [e]) <==>
      match LastStep(events)
      case None => e.ReapTable?
      case Some(ReapTable) => e.Accept? || e.Signal? || e.ListenerFailed?
      case Some(Accept(trusted)) =>
        if !trusted then e.ReapTable?
        else e.NoRequest? || (e.Request? && (e.frame.NewSession? ==> After(events).reg.nextId < U32_MAX))
      case Some(Signal) => false
      case Some(ListenerFailed) => false
      case Some(Request(KillServer)) => false
      case Some(_) => if After(events).pc.HandingOff? then e.HandOff? else e.ReapTable?
  {
    AlwaysSteps(events);
    FeasibleNext(events, e);
    hide After, Feasible, LastStep;
  }

  /** Some step told the daemon to stop the session. */
  ghost predicate Doomed(events: seq<SysEvent>, sid: nat) {
    exists n: nat :: Condemned(events, n, sid)
  }

  lemma AbortsExactly(events: seq<SysEvent>, sid: nat)
    requires Feasible(events)
    ensures sid in After(events).aborting <==> Doomed(events, sid)
  {
    hide After, Feasible, Condemned;
    if sid in After(events).aborting {
      var n := AbortedOnDemand(events, sid);
    }
    if n :| Condemned(events, n, sid) {
      CondemnedAborts(events, n, sid);
    }
  }

  lemma ReportedNext(s: State, e: SysEvent)
    requires Possible(s, e)
    ensures Next(s, e).finished == s.finished + if e.TaskDone? then {e.sid} else {}
  {
    if e.Request? {
      ServeSteps(s, e.frame);
    }
    hide Serve, DoRequest, SightOf, Step, Enabled;
  }

  lemma {:induction false} AlwaysReported(events: seq<SysEvent>, sid: nat)
    requires Feasible(events)
    ensures sid in After(events).finished <==> TaskDone(sid) in events
    decreases |events|
  {
    if events == [] {
    } else {
      var n := |events| - 1;
      hide Next, Possible;
      AlwaysReported(events[..n], sid);
      assert events == events[..n] + [events[n]];
      ReportedNext(After(events[..n]), events[n]);
    }
  }

  /** The end of a task is reported once, and only when it is over; then the daemon can reap it. */
  lemma ReportedOnce(events: seq<SysEvent>, sid: nat)
    requires Feasible(events)
    ensures Feasible(events + [TaskDone(sid)]) <==> HasEnded(After(events), sid) && TaskDone(sid) !in events
  {
    AlwaysReported(events, sid);
    FeasibleNext(events, TaskDone(sid));
    hide After, Feasible;
  }

  /** Who is next: the head of the channel, if anyone is in it. */
  lemma NextGuest(s: State, sid: nat, taken: seq<Conn>, queue: seq<Conn>, guests: seq<Conn>, c: Conn)
    requires taken + queue + Handed(s, sid) == guests
    requires s.pc == HandingOff(c, sid) ==> c !in queue
    ensures queue != [] && queue[0] == c <==>
      |taken| < |guests| && c == guests[|taken|] && s.pc != HandingOff(c, sid)
    ensures Handed(s, sid) == [] ==> (queue == [] <==> taken == guests)
  {
    if queue != [] {
      assert guests[|taken|] == queue[0] && queue[0] in queue;
    } else {
      assert taken + [] == taken;
    }
  }

  /**
   What the channel and the daemon allow: the next one let in may be taken, once it is passed on; the channel ends when
   the session is off the table and nobody is left; and an abort must have been asked for.
   */
  predicate Allowed(s: State, taken: seq<Conn>, guests: seq<Conn>, sid: nat, e: Event, doomed: bool) {
    if e.Recv? then |taken| < |guests| && guests[|taken|] == e.client && s.pc != HandingOff(e.client, sid)
    else if e.RecvClosed? then taken == guests && sid !in s.reg.table
    else e.Abort? ==> doomed
  }

  lemma TurnExactly(s: State, events: seq<SysEvent>, guests: seq<Conn>, sid: nat, e: Event)
    requires Sound(s) && OneOwner(s) && sid in s.sessions && !HasEnded(s, sid) && InOrder(s, events, guests, sid)
    ensures TurnEnabled(s, sid, e) <==>
      Enabled(s.sessions[sid], e) && Allowed(s, Clients(Project(events, sid)), guests, sid, e, sid in s.aborting)
  {
    assert sid in s.queues && (s.pc.HandingOff? ==> s.pc.sid in s.reg.table);
    var c := if e.Recv? then e.client else 0;
    assert Holds(s, InQueue(sid), c) && Holds(s, AtDaemon, c) ==> InQueue(sid) == AtDaemon;
    hide Sound, OneOwner, Enabled, Clients, Project;
    NextGuest(s, sid, Clients(Project(events, sid)), s.queues[sid], guests, c);
  }

  lemma TurnFeasible(events: seq<SysEvent>, sid: nat, e: Event)
    requires Feasible(events)
    ensures Feasible(events + [Turn(sid, e)]) <==> TurnEnabled(After(events), sid, e)
  {
    hide After, Feasible, TurnEnabled;
    FeasibleNext(events, Turn(sid, e));
  }

  lemma ScriptGoesOn(events: seq<SysEvent>, sid: nat, e: Event)
    requires Feasible(events) && sid in After(events).sessions
    ensures Admissible(Project(events, sid))
    ensures Admissible(Project(events, sid) + [e]) <==> Enabled(After(events).sessions[sid], e)
  {
    ProjectRuns(events, sid);
    hide After, Feasible, Project, Run, Admissible, Enabled;
    AdmissibleNext(Project(events, sid), e);
  }

  lemma EndedIsStuck(s: State, sid: nat, e: Event)
    requires HasEnded(s, sid)
    ensures !Enabled(s.sessions[sid], e) && !TurnEnabled(s, sid, e)
  {
  }

  /** A session's next turn, told by what happened to it and by who was let in. */
  lemma TurnsExactly(events: seq<SysEvent>, sid: nat, e: Event)
    requires Feasible(events) && sid in After(events).sessions
    ensures Admissible(Project(events, sid))
    ensures Feasible(events + [Turn(sid, e)]) <==>
      && Admissible(Project(events, sid) + [e])
      && Allowed(After(events), Clients(Project(events, sid)), Guests(events, sid), sid, e, Doomed(events, sid))
  {
    hide After, Feasible, Project, Clients, Guests, Run, Admissible, TurnEnabled, Enabled, HasEnded;
    hide Condemned, Sound, OneOwner, InOrder, Allowed, Doomed;
    TurnFeasible(events, sid, e);
    ScriptGoesOn(events, sid, e);
    if HasEnded(After(events), sid) {
      EndedIsStuck(After(events), sid, e);
    } else {
      AlwaysSound(events);
      AlwaysConversing(events);
      AlwaysInOrder(events, sid);
      AbortsExactly(events, sid);
      TurnExactly(After(events), events, Guests(events, sid), sid, e);
    }
  }
}
