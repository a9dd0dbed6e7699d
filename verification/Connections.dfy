/**
 One owner per connection, and what a connection can see: at any time it is with the daemon, in one
 session's channel, or served by one session, and the frames attempted on it form a conversation.
 */
module Connections {
  import opened Wrappers
  import opened Utf8
  import opened Decimal
  import opened Protocol
  import opened Server
  import opened SessionLaws
  import opened Daemon
  import opened System
  import opened SystemLaws

  // ----- Ownership -----

  datatype Place = AtDaemon | InQueue(sid: nat) | InSlot(sid: nat)

  predicate Holds(s: State, p: Place, c: Conn) {
    match p
    case AtDaemon => (s.pc.Serving? || s.pc.HandingOff?) && s.pc.conn == c
    case InQueue(sid) => sid in s.queues && c in s.queues[sid]
    case InSlot(sid) => sid in s.sessions && ClientOf(s.sessions[sid]) == Some(c)
  }

  ghost predicate OneOwner(s: State) {
    && (forall p, q, c: Conn :: Holds(s, p, c) && Holds(s, q, c) ==> p == q)
    && (forall p, c: Conn :: Holds(s, p, c) ==> c < s.accepted)
    && (forall sid: nat :: sid in s.queues ==> NoRepeats(s.queues[sid]))
  }

  /** The one connection an event moves, and where to. */
  function Moved(s: State, e: SysEvent): Option<(Conn, Place)>
    requires Possible(s, e)
  {
    match e
    case Accept(trusted) => if trusted then Some((s.accepted, AtDaemon)) else None
    case HandOff => Some((s.pc.conn, InQueue(s.pc.sid)))
    case Turn(sid, event) => if event.Recv? then Some((event.client, InSlot(sid))) else None
    case _ => None
  }

  lemma HoldsAfterTurn(s: State, sid: nat, e: Event, p: Place, c: Conn)
    requires Sound(s) && OneOwner(s) && TurnEnabled(s, sid, e) && Holds(DoTurn(s, sid, e), p, c)
    ensures if e.Recv? && c == e.client then p == InSlot(sid) else Holds(s, p, c)
  {
    StepSends(s.sessions[sid], e);
    hide Step, Enabled, WellFormed;
    if e.Recv? {
      var queue := s.queues[sid];
      assert NoRepeats(queue) && Holds(s, InQueue(sid), e.client);
      assert e.client !in queue[1..];
      assert Holds(s, p, e.client) ==> p == InQueue(sid);
    }
  }

  lemma HoldsNext(s: State, e: SysEvent, p: Place, c: Conn)
    requires Sound(s) && OneOwner(s) && Possible(s, e) && Holds(Next(s, e), p, c)
    ensures if Moved(s, e).Some? && c == Moved(s, e).value.0 then p == Moved(s, e).value.1 else Holds(s, p, c)
  {
    match e {
      case Turn(sid, event) => HoldsAfterTurn(s, sid, event, p, c);
      case Request(f) =>
        ServeSteps(s, f);
        assert ClientOf(FRESH) == None;
        hide Serve;
      case HandOff =>
        assert Holds(s, AtDaemon, s.pc.conn);
        assert Holds(s, p, c) || p == InQueue(s.pc.sid);
      case _ =>
        assert Holds(s, p, c) ==> c < s.accepted;
        hide Serve;
    }
  }

  lemma MovedAccepted(s: State, e: SysEvent)
    requires OneOwner(s) && Possible(s, e)
    ensures s.accepted <= Next(s, e).accepted
    ensures Moved(s, e).Some? ==> Moved(s, e).value.0 < Next(s, e).accepted
  {
    match e {
      case HandOff => assert Holds(s, AtDaemon, s.pc.conn);
      case Turn(sid, event) =>
        if event.Recv? {
          assert Holds(s, InQueue(sid), event.client);
        }
      case _ =>
    }
  }

  lemma QueuesNext(s: State, e: SysEvent)
    requires Sound(s) && OneOwner(s) && Possible(s, e)
    ensures forall sid: nat :: sid in Next(s, e).queues ==> NoRepeats(Next(s, e).queues[sid])
  {
    match e {
      case HandOff =>
        assert Holds(s, AtDaemon, s.pc.conn);
        assert !Holds(s, InQueue(s.pc.sid), s.pc.conn);
      case Request(f) => ServeSteps(s, f); hide Serve;
      case _ => hide Serve, Step;
    }
  }

  lemma OneOwnerNext(s: State, e: SysEvent)
    requires Sound(s) && OneOwner(s) && Possible(s, e)
    ensures OneOwner(Next(s, e))
  {
    var after := Next(s, e);
    forall p, c: Conn | Holds(after, p, c)
      ensures c < after.accepted && forall q :: Holds(after, q, c) ==> p == q
    {
      HoldsNext(s, e, p, c);
      forall q | Holds(after, q, c) ensures p == q {
        HoldsNext(s, e, q, c);
      }
      MovedAccepted(s, e);
    }
    QueuesNext(s, e);
  }

  // ----- Conversations -----

  function TraceOf(wire: seq<Attempt>, c: Conn): seq<Frame> {
    if wire == [] then []
    else
      var n := |wire| - 1;
      TraceOf(wire[..n], c) + if wire[n].to == c then [wire[n].frame] else []
  }

  predicate Greets(request: Frame, f: Frame) {
    (request.NewSession? && f.SessionCreated?) || (request.Attach? && f.Ok?)
  }

  predicate Relayed(f: Frame) {
    f.Data? || f.Pong?
  }

  predicate Farewell(f: Frame) {
    f.Detached? || f.Exit?
  }

  /** A greeting and then only relayed frames. */
  predicate Ongoing(request: Frame, trace: seq<Frame>) {
    trace != [] && Greets(request, trace[0]) && forall i :: 1 <= i < |trace| ==> Relayed(trace[i])
  }

  /** Everything the server side ever says in answer to a request. */
  predicate Conversation(request: Frame, trace: seq<Frame>) {
    || (|trace| == 1 && trace[0].Error?)
    || (|trace| == 1 && trace[0].SessionInfo? && request.ListSessions?)
    || (|trace| == 1 && trace[0].Ok? && (request.KillSession? || request.KillServer?))
    || Ongoing(request, trace)
    || (|trace| > 1 && Ongoing(request, trace[..|trace| - 1]) && Farewell(trace[|trace| - 1]))
  }

  predicate Greeted(s: State, c: Conn) {
    c in s.requests && Ongoing(s.requests[c], TraceOf(s.wire, c)) && |TraceOf(s.wire, c)| == 1
  }

  /** How far the conversation is, by place. */
  predicate Fits(s: State, p: Place, c: Conn) {
    match p
    case AtDaemon => if s.pc.Serving? then c !in s.requests else Greeted(s, c)
    case InQueue(_) => Greeted(s, c)
    case InSlot(sid) =>
      if sid in s.sessions && s.sessions[sid].phase.ReadEnv? then Greeted(s, c)
      else c in s.requests && Ongoing(s.requests[c], TraceOf(s.wire, c))
  }

  predicate Proper(s: State, c: Conn) {
    if c in s.requests then c < s.accepted && Conversation(s.requests[c], TraceOf(s.wire, c))
    else TraceOf(s.wire, c) == []
  }

  ghost predicate Conversing(s: State) {
    && (forall p, c: Conn :: Holds(s, p, c) ==> Fits(s, p, c))
    && (forall c: Conn :: Proper(s, c))
  }

  lemma TraceAppend(wire: seq<Attempt>, more: seq<Attempt>, c: Conn)
    requires |more| <= 1
    ensures TraceOf(wire + more, c)
         == if more != [] && more[0].to == c then TraceOf(wire, c) + [more[0].frame] else TraceOf(wire, c)
  {
    if more == [] {
      assert wire + more == wire;
    } else {
      assert (wire + more)[..|wire|] == wire;
    }
  }

  predicate SameTalk(s: State, after: State, c: Conn) {
    && TraceOf(after.wire, c) == TraceOf(s.wire, c)
    && (c in after.requests <==> c in s.requests)
    && (c in s.requests ==> after.requests[c] == s.requests[c])
  }

  lemma RequestWire(s: State, f: Frame, c: Conn)
    requires Possible(s, Request(f))
    ensures
      var after, outcome := DoRequest(s, f), Serve(s.reg, f, SightOf(s)).1;
      && TraceOf(after.wire, c)
           == (if c == s.pc.conn then TraceOf(s.wire, c) + [outcome.reply] else TraceOf(s.wire, c))
      && after.requests == s.requests[s.pc.conn := f] && after.accepted == s.accepted
      && (after.pc.HandingOff? ==> outcome.handTo.Some?)
  {
    hide Serve, SightOf;
    TraceAppend(s.wire, [Attempt(None, s.pc.conn, Serve(s.reg, f, SightOf(s)).1.reply)], c);
  }

  lemma ReplyKind(reg: Registry, f: Frame, sight: Sight)
    ensures var outcome := Serve(reg, f, sight).1;
            (outcome.handTo.Some? ==> Ongoing(f, [outcome.reply])) && Conversation(f, [outcome.reply])
  {
    hide Taken, Listing, Resolve, Resolves, Reap, FromAscii, Print, Valid;
  }

  /** A reply starts the conversation of the connection the daemon serves, and touches no other. */
  lemma ServeConverses(s: State, f: Frame, c: Conn)
    requires Possible(s, Request(f)) && Proper(s, c)
    requires c == s.pc.conn ==> c !in s.requests && c < s.accepted
    ensures Proper(DoRequest(s, f), c)
    ensures c == s.pc.conn && DoRequest(s, f).pc.HandingOff? ==> Greeted(DoRequest(s, f), c)
    ensures c != s.pc.conn ==> SameTalk(s, DoRequest(s, f), c)
  {
    RequestWire(s, f, c);
    ReplyKind(s.reg, f, SightOf(s));
    var reply := Serve(s.reg, f, SightOf(s)).1.reply;
    assert [] + [reply] == [reply];
    hide Serve, SightOf, Conversation, TraceOf, Ongoing, DoRequest;
  }

  lemma RequestPc(s: State, f: Frame)
    requires Possible(s, Request(f))
    ensures var pc := DoRequest(s, f).pc; !pc.Serving? && (pc.HandingOff? ==> pc.conn == s.pc.conn)
  {
    hide Serve, SightOf;
  }

  /** A connection the request is not about: nothing changes for it. */
  lemma FitsOthers(s: State, f: Frame, p: Place, c: Conn)
    requires Possible(s, Request(f)) && c != s.pc.conn && SameTalk(s, DoRequest(s, f), c)
    requires Sound(s) && Holds(DoRequest(s, f), p, c) && Fits(s, p, c)
    ensures Fits(DoRequest(s, f), p, c)
  {
    ServeSteps(s, f);
    RequestPc(s, f);
    hide Serve, SightOf, DoRequest, Ongoing, TraceOf, WellFormed, Accounted;
  }

  lemma FitsAfterRequest(s: State, f: Frame, p: Place, c: Conn)
    requires Sound(s) && OneOwner(s) && Conversing(s) && Possible(s, Request(f))
    requires Holds(DoRequest(s, f), p, c)
    ensures Fits(DoRequest(s, f), p, c)
  {
    HoldsNext(s, Request(f), p, c);
    assert Holds(s, AtDaemon, s.pc.conn) && Fits(s, AtDaemon, s.pc.conn) && Fits(s, p, c) && Proper(s, c);
    assert c == s.pc.conn ==> p == AtDaemon;
    hide Serve, SightOf, Sound, Conversing, OneOwner, Ongoing, TraceOf, DoRequest;
    ServeConverses(s, f, c);
    RequestPc(s, f);
    if c != s.pc.conn {
      FitsOthers(s, f, p, c);
    }
  }

  /** The conversation went on by one relayed frame. */
  predicate Relays(before: seq<Frame>, after: seq<Frame>) {
    |after| == |before| + 1 && after[..|before|] == before && Relayed(after[|before|])
  }

  predicate Ends(before: seq<Frame>, after: seq<Frame>) {
    |after| == |before| + 1 && after[..|before|] == before && Farewell(after[|before|])
  }

  /** What a turn adds to a conversation: a relayed frame while it goes on, a farewell when it is over. */
  predicate TurnTalk(s: State, sid: nat, e: Event, c: Conn)
    requires TurnEnabled(s, sid, e)
  {
    var after := DoTurn(s, sid, e);
    var now, next := TraceOf(s.wire, c), TraceOf(after.wire, c);
    || next == now
    || (&& Holds(s, InSlot(sid), c) && s.sessions[sid].phase.Relay?
        && (Relays(now, next) || (Ends(now, next) && !Holds(after, InSlot(sid), c))))
  }

  lemma TurnSlot(s: State, sid: nat, e: Event, c: Conn)
    requires TurnEnabled(s, sid, e)
    ensures Holds(DoTurn(s, sid, e), InSlot(sid), c) <==> ClientOf(Step(s.sessions[sid], e).0) == Some(c)
  {
    hide Step, Enabled;
  }

  lemma TurnWire(s: State, sid: nat, e: Event, c: Conn)
    requires TurnEnabled(s, sid, e)
    ensures var sent := Step(s.sessions[sid], e).1;
            TraceOf(DoTurn(s, sid, e).wire, c)
              == if sent != [] && sent[0].to == c then TraceOf(s.wire, c) + [sent[0].frame] else TraceOf(s.wire, c)
  {
    var sent := Step(s.sessions[sid], e).1;
    StepSends(s.sessions[sid], e);
    TraceAppend(s.wire, Attempts(sid, sent), c);
    assert DoTurn(s, sid, e).wire == s.wire + Attempts(sid, sent);
    hide Step, Enabled, TraceOf, DoTurn;
  }

  lemma TalkGrows(now: seq<Frame>, f: Frame)
    ensures Relayed(f) ==> Relays(now, now + [f])
    ensures Farewell(f) ==> Ends(now, now + [f])
  {
  }

  /** A turn sends to the client in the slot: a relayed frame, or a farewell as that client leaves it. */
  lemma TurnFrame(s: State, sid: nat, e: Event)
    requires OneOwner(s) && TurnEnabled(s, sid, e)
    ensures
      var (next, sent) := Step(s.sessions[sid], e);
      sent != [] ==>
        && Holds(s, InSlot(sid), sent[0].to) && s.sessions[sid].phase.Relay?
        && (Relayed(sent[0].frame) || (Farewell(sent[0].frame) && ClientOf(next) != Some(sent[0].to)))
  {
    StepSends(s.sessions[sid], e);
    if e.Recv? {
      assert Holds(s, InQueue(sid), e.client);
      assert !Holds(s, InSlot(sid), e.client);
    }
    hide Step, Enabled, OneOwner;
  }

  lemma TurnTrace(s: State, sid: nat, e: Event, c: Conn)
    requires OneOwner(s) && TurnEnabled(s, sid, e)
    ensures TurnTalk(s, sid, e, c)
  {
    TurnFrame(s, sid, e);
    TurnSlot(s, sid, e, c);
    TurnWire(s, sid, e, c);
    hide Step, Enabled, OneOwner, TraceOf, DoTurn, TurnEnabled, Relays, Ends, Relayed, Farewell, Holds, ClientOf;
    var sent := Step(s.sessions[sid], e).1;
    if sent != [] && sent[0].to == c {
      TalkGrows(TraceOf(s.wire, c), sent[0].frame);
    }
  }

  lemma TurnKeepsRequests(s: State, sid: nat, e: Event)
    requires TurnEnabled(s, sid, e)
    ensures var after := DoTurn(s, sid, e);
            && after.requests == s.requests && after.accepted == s.accepted && after.pc == s.pc
            && after.sessions == s.sessions[sid := after.sessions[sid]]
            && (after.sessions[sid].phase.ReadEnv? ==> e.Recv?)
  {
    StepSends(s.sessions[sid], e);
    hide Step, Enabled;
  }

  lemma TurnConverses(s: State, sid: nat, e: Event, c: Conn)
    requires TurnEnabled(s, sid, e) && TurnTalk(s, sid, e, c) && Proper(s, c)
    requires Holds(s, InSlot(sid), c) ==> Fits(s, InSlot(sid), c)
    ensures Proper(DoTurn(s, sid, e), c)
  {
    TurnKeepsRequests(s, sid, e);
    hide DoTurn, TraceOf, TurnEnabled, Greets;
  }

  /** A client just taken off the channel has been greeted and no more. */
  lemma FitsTaken(s: State, sid: nat, e: Event)
    requires TurnEnabled(s, sid, e) && e.Recv? && TurnTalk(s, sid, e, e.client)
    requires Fits(s, InQueue(sid), e.client) && !Holds(s, InSlot(sid), e.client)
    ensures Fits(DoTurn(s, sid, e), InSlot(sid), e.client)
  {
    TurnKeepsRequests(s, sid, e);
    hide DoTurn, TraceOf, TurnEnabled, Ongoing;
  }

  /** Who keeps a slot without coming off the channel is past reading its Env frame. */
  lemma SlotStays(s: State, sid: nat, e: Event, c: Conn)
    requires TurnEnabled(s, sid, e) && !(e.Recv? && c == e.client)
    ensures Holds(DoTurn(s, sid, e), InSlot(sid), c) ==> !DoTurn(s, sid, e).sessions[sid].phase.ReadEnv?
  {
    StepSends(s.sessions[sid], e);
    hide Step, Enabled;
  }

  lemma FitsStays(s: State, sid: nat, e: Event, p: Place, c: Conn)
    requires TurnEnabled(s, sid, e) && !(e.Recv? && c == e.client) && TurnTalk(s, sid, e, c)
    requires Fits(s, p, c) && (p == InSlot(sid) || !Holds(s, InSlot(sid), c)) && Holds(DoTurn(s, sid, e), p, c)
    ensures Fits(DoTurn(s, sid, e), p, c)
  {
    TurnKeepsRequests(s, sid, e);
    SlotStays(s, sid, e, c);
    hide DoTurn, TraceOf, TurnEnabled;
  }

  lemma FitsAfterTurn(s: State, sid: nat, e: Event, p: Place, c: Conn)
    requires Sound(s) && OneOwner(s) && Conversing(s) && TurnEnabled(s, sid, e)
    requires Holds(DoTurn(s, sid, e), p, c)
    ensures Fits(DoTurn(s, sid, e), p, c)
  {
    HoldsAfterTurn(s, sid, e, p, c);
    TurnTrace(s, sid, e, c);
    hide DoTurn, Sound, TraceOf, TurnTalk, Fits;
    if e.Recv? && c == e.client {
      assert Holds(s, InQueue(sid), c) && !Holds(s, InSlot(sid), c);
      FitsTaken(s, sid, e);
    } else {
      assert p == InSlot(sid) || !Holds(s, InSlot(sid), c);
      FitsStays(s, sid, e, p, c);
    }
  }

  lemma QuietFits(s: State, e: SysEvent, p: Place, c: Conn)
    requires Sound(s) && OneOwner(s) && Conversing(s) && Possible(s, e) && !e.Turn? && !e.Request?
    requires Holds(Next(s, e), p, c)
    ensures Fits(Next(s, e), p, c)
  {
    HoldsNext(s, e, p, c);
    if e.HandOff? {
      assert Holds(s, AtDaemon, s.pc.conn) && Fits(s, AtDaemon, s.pc.conn);
    } else if e.Accept? {
      assert Proper(s, s.accepted);
    }
    if Holds(s, p, c) {
      assert Fits(s, p, c);
    }
    hide Serve, Ongoing, Sound;
  }

  lemma ConversingNext(s: State, e: SysEvent)
    requires Sound(s) && OneOwner(s) && Conversing(s) && Possible(s, e)
    ensures Conversing(Next(s, e))
  {
    var after := Next(s, e);
    forall p, c: Conn | Holds(after, p, c) ensures Fits(after, p, c) {
      match e {
        case Turn(sid, event) => FitsAfterTurn(s, sid, event, p, c);
        case Request(f) => FitsAfterRequest(s, f, p, c);
        case _ =>
          HoldsNext(s, e, p, c);
          QuietFits(s, e, p, c);
      }
    }
    forall c: Conn ensures Proper(after, c) {
      assert Proper(s, c);
      match e {
        case Turn(sid, event) =>
          TurnTrace(s, sid, event, c);
          TurnConverses(s, sid, event, c);
        case Request(f) =>
          assert Holds(s, AtDaemon, s.pc.conn) && Fits(s, AtDaemon, s.pc.conn);
          ServeConverses(s, f, c);
        case _ => hide Serve, Conversation;
      }
    }
  }

  /** Ownership and conversations, over every run. */
  lemma {:induction false} AlwaysConversing(events: seq<SysEvent>)
    requires Feasible(events)
    ensures OneOwner(After(events)) && Conversing(After(events))
    decreases |events|
  {
    if events == [] {
    } else {
      var before := events[..|events| - 1];
      AlwaysConversing(before);
      AlwaysSound(before);
      OneOwnerNext(After(before), events[|events| - 1]);
      ConversingNext(After(before), events[|events| - 1]);
    }
  }

  /**
   The protocol an attaching client can rely on: a single Error, or a greeting, any number of Data and
   Pong, and at most one Detached or Exit, which is last.
   */
  lemma AttachingClientSees(events: seq<SysEvent>, c: Conn)
    requires Feasible(events) && c in After(events).requests
    requires After(events).requests[c].NewSession? || After(events).requests[c].Attach?
    ensures
      var request, trace := After(events).requests[c], TraceOf(After(events).wire, c);
      || (|trace| == 1 && trace[0].Error?)
      || Ongoing(request, trace)
      || (|trace| > 1 && Ongoing(request, trace[..|trace| - 1]) && Farewell(trace[|trace| - 1]))
  {
    AlwaysConversing(events);
    assert Proper(After(events), c);
  }
}
