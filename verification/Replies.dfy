/**
 What becomes of the daemon's answers: which ones the asking client can decode, for every request, and what a
 reconnecting client makes of them.
 */
module Replies {
  import opened Wrappers
  import opened Utf8
  import opened Text
  import opened Decimal
  import opened Protocol
  import opened RoundTrip
  import opened Streaming
  import opened Server
  import opened Daemon
  import opened System
  import opened SystemLaws
  import opened Connections
  import opened SystemRuns
  import opened Availability
  import opened EndToEnd
  import Client

  // ----- One request -----

  /**
   The answer fits what the asker's decoder takes. A refusal repeats the name or target behind 29 or 17 bytes of its
   own, and a listing grows with the table, while nobody checks the limit.
   */
  ghost predicate ReplyFits(reg: Registry, request: Frame, sight: Sight) {
    match request
    case NewSession(name) => name == [] || !Taken(reg.table, name) || |name| + 29 <= MAX_FRAME_SIZE
    case Attach(target) => Granted(reg, target, sight) || |target| + 17 <= MAX_FRAME_SIZE
    case KillSession(target) =>
      Resolve(Reap(reg.table, sight.finished), target).Some? || |target| + 17 <= MAX_FRAME_SIZE
    case ListSessions =>
      var listed := reg.(table := Reap(reg.table, sight.finished));
      && |SessionText(Listing(listed, sight.metas))| <= MAX_FRAME_SIZE
      && ListsClean(listed.table, sight.metas)
    case _ => true
  }

  lemma ComplaintSize(about: Str, subject: Str)
    ensures Complaint(about, subject).Error? && |Payload(Complaint(about, subject))| == |about| + |subject|
  {
    hide Valid;
  }

  lemma ComplaintFits(about: Str, subject: Str)
    ensures Deliverable(Complaint(about, subject)) <==> |about| + |subject| <= MAX_FRAME_SIZE
  {
    ComplaintSize(about, subject);
    hide Complaint, Payload;
  }

  lemma ConstantSizes()
    ensures |NO_SUCH_SESSION| == 17 && |NAME_TAKEN| == 29 && |UNEXPECTED| == 21
  {
  }

  lemma ShortDeliverable(f: Frame)
    requires f == Ok || (f.SessionCreated? && |f.id| <= 10) || f == Error(UNEXPECTED)
    ensures Deliverable(f)
  {
    hide EnvText, SessionText, EnvClean, EntryClean, Valid, BigEndian16, BigEndian32;
    ConstantSizes();
    hide FromAscii;
  }

  lemma CreationReply(reg: Registry, name: Str, sight: Sight)
    ensures Serve(reg, NewSession(name), sight).1.reply
         == if name != [] && Taken(reg.table, name) then Complaint(NAME_TAKEN, name)
            else SessionCreated(Print(reg.nextId))
  {
    hide Taken, Complaint, Print, FromAscii, Reap;
  }

  lemma CreationDeliverable(reg: Registry, name: Str, sight: Sight)
    requires reg.nextId <= U32_MAX
    ensures Deliverable(Serve(reg, NewSession(name), sight).1.reply) <==> ReplyFits(reg, NewSession(name), sight)
  {
    hide Deliverable, Taken, Complaint, Serve, Print, FromAscii;
    CreationReply(reg, name, sight);
    ConstantSizes();
    PrintWidths(reg.nextId);
    ShortDeliverable(SessionCreated(Print(reg.nextId)));
    ComplaintFits(NAME_TAKEN, name);
  }

  lemma TargetReply(reg: Registry, request: Frame, target: Str, sight: Sight)
    requires request == Attach(target) || request == KillSession(target)
    ensures
      var found := Resolve(Reap(reg.table, sight.finished), target);
      Serve(reg, request, sight).1.reply
        == if if request.Attach? then Granted(reg, target, sight) else found.Some? then Ok
           else Complaint(NO_SUCH_SESSION, target)
  {
    hide Resolve, Resolves, Reap, Complaint, FromAscii, Valid, Print;
  }

  /** `message` is the words of `text`, and then `subject` as it was asked for. */
  predicate Says(message: seq<byte>, text: string, subject: seq<byte>) {
    && |message| == |text| + |subject| && message[|text|..] == subject
    && forall i :: 0 <= i < |text| ==> message[i] == text[i] as int
  }

  lemma ComplaintSays(about: Str, text: string, subject: Str)
    requires |about| == |text| && forall i :: 0 <= i < |text| ==> about[i] == text[i] as int
    ensures Complaint(about, subject).Error? && Says(Complaint(about, subject).message, text, subject)
  {
    hide Valid;
  }

  lemma Words()
    ensures |NAME_TAKEN| == |"session name already exists: "|
    ensures forall i :: 0 <= i < |NAME_TAKEN| ==> NAME_TAKEN[i] == "session name already exists: "[i] as int
    ensures |NO_SUCH_SESSION| == |"no such session: "|
    ensures forall i :: 0 <= i < |NO_SUCH_SESSION| ==> NO_SUCH_SESSION[i] == "no such session: "[i] as int
    ensures |UNEXPECTED| == |"unexpected frame type"|
    ensures forall i :: 0 <= i < |UNEXPECTED| ==> UNEXPECTED[i] == "unexpected frame type"[i] as int
  {
  }

  lemma SaysAlone(message: Str, text: string)
    requires |message| == |text| && forall i :: 0 <= i < |text| ==> message[i] == text[i] as int
    ensures Says(message, text, [])
  {
  }

  lemma OtherReply(reg: Registry, request: Frame, sight: Sight)
    requires !request.NewSession? && !request.Attach? && !request.KillSession?
    ensures Serve(reg, request, sight).1.reply.Error? ==> Serve(reg, request, sight).1.reply == Error(UNEXPECTED)
  {
    hide FromAscii, Listing, Reap, Resolve, Resolves, Taken, Complaint, Valid, Print;
  }

  /** What a refused asker reads: which session there is none of, or which name is taken. */
  lemma RefusalSays(reg: Registry, request: Frame, sight: Sight)
    ensures
      var reply := Serve(reg, request, sight).1.reply;
      reply.Error? ==>
        match request
        case NewSession(name) => Says(reply.message, "session name already exists: ", name)
        case Attach(target) => Says(reply.message, "no such session: ", target)
        case KillSession(target) => Says(reply.message, "no such session: ", target)
        case _ => Says(reply.message, "unexpected frame type", [])
  {
    hide FromAscii, Complaint, Taken, Granted, Resolve, Resolves, Reap, Says, Valid, Print, Serve;
    Words();
    match request {
      case NewSession(name) =>
        CreationReply(reg, name, sight);
        ComplaintSays(NAME_TAKEN, "session name already exists: ", name);
      case Attach(target) =>
        TargetReply(reg, request, target, sight);
        ComplaintSays(NO_SUCH_SESSION, "no such session: ", target);
      case KillSession(target) =>
        TargetReply(reg, request, target, sight);
        ComplaintSays(NO_SUCH_SESSION, "no such session: ", target);
      case _ =>
        OtherReply(reg, request, sight);
        SaysAlone(UNEXPECTED, "unexpected frame type");
    }
  }

  lemma TargetDeliverable(reg: Registry, request: Frame, target: Str, sight: Sight)
    requires request == Attach(target) || request == KillSession(target)
    ensures Deliverable(Serve(reg, request, sight).1.reply) <==> ReplyFits(reg, request, sight)
  {
    hide Deliverable, Resolve, Resolves, Reap, Complaint, Serve, Granted;
    hide FromAscii, Valid, Payload, SessionText, Listing, Taken, ListsClean;
    TargetReply(reg, request, target, sight);
    ConstantSizes();
    ShortDeliverable(Ok);
    ComplaintFits(NO_SUCH_SESSION, target);
  }

  lemma ListDeliverable(reg: Registry, sight: Sight)
    requires WellFormed(reg)
    ensures Deliverable(Serve(reg, ListSessions, sight).1.reply) <==> ReplyFits(reg, ListSessions, sight)
  {
    hide Serve, Deliverable, Listing, WellFormed, Reap, ListsClean, SessionText;
    ReapedWellFormed(reg, sight.finished);
    ListingReply(reg, sight);
    ListingDeliverable(reg.(table := Reap(reg.table, sight.finished)), sight.metas);
  }

  /** For every request: its answer comes back unchanged through the codec exactly if it fits. */
  lemma ReplyDeliverable(reg: Registry, request: Frame, sight: Sight)
    requires WellFormed(reg)
    ensures Deliverable(Serve(reg, request, sight).1.reply) <==> ReplyFits(reg, request, sight)
  {
    if request.NewSession? {
      CreationDeliverable(reg, request.name, sight);
    } else if request.Attach? || request.KillSession? {
      TargetDeliverable(reg, request, request.session, sight);
    } else if request.ListSessions? {
      ListDeliverable(reg, sight);
    } else {
      ShortDeliverable(Ok);
      ShortDeliverable(Error(UNEXPECTED));
    }
    hide Deliverable, Listing, WellFormed, Resolve, Reap, Taken, Granted, Complaint, Valid, FromAscii, Print;
  }

  /** The asker decodes the answer, in any reads and whatever follows it, exactly if it fits. */
  lemma ReplyArrives(reg: Registry, request: Frame, sight: Sight, later: seq<Frame>, chunks: seq<seq<byte>>)
    requires WellFormed(reg)
    requires Flatten(chunks) == EncodeAll([Serve(reg, request, sight).1.reply] + later)
    ensures FirstOf(Feed([], chunks)) == Some(Serve(reg, request, sight).1.reply) <==> ReplyFits(reg, request, sight)
  {
    ReplyDeliverable(reg, request, sight);
    hide Serve, WellFormed, Deliverable, ReplyFits, Flatten, EncodeAll, Feed;
    FirstArrives(Serve(reg, request, sight).1.reply, later, chunks);
  }

  /** A target that can be requested but not refused: 16 bytes short of the limit. */
  lemma LongTarget(sight: Sight) returns (target: Str)
    ensures |target| == MAX_FRAME_SIZE - 16
    ensures Deliverable(Attach(target)) && !Deliverable(Serve(EMPTY, Attach(target), sight).1.reply)
  {
    var s: seq<byte> := seq(MAX_FRAME_SIZE - 16, i => 97);
    AsciiValid(s);
    target := s;
    hide Valid;
    ReplyDeliverable(EMPTY, Attach(target), sight);
    assert Deliverable(Attach(target));
    assert Resolves(Reap(EMPTY.table, sight.finished), target, Resolve(Reap(EMPTY.table, sight.finished), target));
    hide Serve, Deliverable, Resolve;
  }

  // ----- Any request of any run -----

  /** Request `n` came on connection `c`, and its answer is the first frame that connection carries. */
  ghost predicate Answered(events: seq<SysEvent>, n: nat, c: Conn)
    requires Feasible(events)
  {
    && n < |events| && Feasible(events[..n]) && events[n].Request?
    && var s, trace := After(events[..n]), TraceOf(After(events).wire, c);
       && s.pc == Serving(c) && trace != []
       && trace[0] == Serve(s.reg, events[n].frame, SightOf(s)).1.reply
  }

  lemma StillAnswered(events: seq<SysEvent>, n: nat, c: Conn)
    requires Feasible(events) && events != [] && Answered(events[..|events| - 1], n, c)
    ensures Answered(events, n, c)
  {
    hide Next, Possible, Conversing, TraceOf, Serve, SightOf;
    var before := events[..|events| - 1];
    AlwaysConversing(before);
    TraceGrows(After(before), events[|events| - 1], c);
    assert before[..n] == events[..n];
  }

  lemma {:induction false} RequestAnswered(events: seq<SysEvent>, c: Conn) returns (n: nat)
    requires Feasible(events) && c in After(events).requests
    ensures Answered(events, n, c)
    decreases |events|
  {
    var last := |events| - 1;
    var before := events[..last];
    var s, e := After(before), events[last];
    AlwaysConversing(before);
    hide Next, Possible, Conversing, OneOwner, TraceOf, Serve, SightOf;
    if c in s.requests {
      n := RequestAnswered(before, c);
      StillAnswered(events, n, c);
      hide Answered, After, Feasible;
    } else {
      n := last;
      RequestsNext(s, e, c);
      FirstReply(s, e.frame, c);
      HandingOffPc(s, e.frame);
    }
  }

  /**
   Every asker of every run: if all that was attempted on its connection gets through, in any reads, the first thing
   it decodes is the daemon's answer to its request exactly if the answer fitted. A refused client is no exception.
   */
  lemma AskerLearns(events: seq<SysEvent>, c: Conn, chunks: seq<seq<byte>>) returns (n: nat)
    requires Feasible(events) && c in After(events).requests
    requires Flatten(chunks) == EncodeAll(TraceOf(After(events).wire, c))
    ensures Answered(events, n, c)
    ensures
      var s := After(events[..n]);
      FirstOf(Feed([], chunks)) == Some(Serve(s.reg, events[n].frame, SightOf(s)).1.reply) <==>
        ReplyFits(s.reg, events[n].frame, SightOf(s))
  {
    hide After, Feasible, TraceOf, Serve, SightOf, ReplyFits, Flatten, EncodeAll, Feed, WellFormed, Numbered, Accounted;
    n := RequestAnswered(events, c);
    var s, trace := After(events[..n]), TraceOf(After(events).wire, c);
    AlwaysSound(events[..n]);
    assert trace == [trace[0]] + trace[1..];
    ReplyArrives(s.reg, events[n].frame, SightOf(s), trace[1..], chunks);
  }

  // ----- Reconnecting -----

  lemma ComplaintTooLong(target: Str)
    requires |target| <= MAX_FRAME_SIZE
    ensures Complaint(NO_SUCH_SESSION, target).Error?
    ensures |Payload(Complaint(NO_SUCH_SESSION, target))| < 0x1_0000_0000
    ensures |target| + 17 > MAX_FRAME_SIZE ==> !Sendable(Complaint(NO_SUCH_SESSION, target))
  {
    ConstantSizes();
    ComplaintSize(NO_SUCH_SESSION, target);
    hide Complaint, Payload;
  }

  lemma AttachAnswer(reg: Registry, target: Str, sight: Sight)
    ensures Serve(reg, Attach(target), sight).1.reply
         == if Granted(reg, target, sight) then Ok else Complaint(NO_SUCH_SESSION, target)
  {
    hide Serve, Granted, Complaint, Resolve, Reap, FromAscii;
    TargetReply(reg, Attach(target), target, sight);
  }

  /**
   What a delivered try of the reconnect loop comes to: Reattached exactly if the target leads to a session that
   still takes clients; else it is told so, unless the refusal does not fit, when it learns nothing and tries again.
   */
  lemma TryOutcome(reg: Registry, target: Str, sight: Sight, later: seq<Frame>, chunks: seq<seq<byte>>)
    requires WellFormed(reg) && |target| <= MAX_FRAME_SIZE
    requires Flatten(chunks) == EncodeAll([Serve(reg, Attach(target), sight).1.reply] + later)
    ensures Client.Yields(Client.Try(false, true, true, FirstOf(Feed([], chunks))))
         == if Granted(reg, target, sight) then Client.Reattached
            else if |target| + 17 <= MAX_FRAME_SIZE then Client.SessionGone
            else Client.NoLuck
  {
    hide Serve, Resolve, Reap, Flatten, EncodeAll, Feed, WellFormed, Granted, Sendable, Payload, FirstOf, Complaint;
    var reply := Serve(reg, Attach(target), sight).1.reply;
    ReplyArrives(reg, Attach(target), sight, later, chunks);
    AttachAnswer(reg, target, sight);
    ComplaintTooLong(target);
    if !Granted(reg, target, sight) && |target| + 17 > MAX_FRAME_SIZE {
      TooLargeFirst(reply, later, chunks);
    }
  }

  /**
   A client that comes back by the number it was told never tries in vain: unless another session is named by the
   numeral, it is reattached to its own session if that lives and was not killed, and told that it is gone if not.
   */
  lemma NumberTry(events: seq<SysEvent>, id: nat, c: Conn, later: seq<Frame>, chunks: seq<seq<byte>>)
    requires Feasible(events) && After(events).pc == Serving(c) && id < After(events).reg.nextId
    requires !Shadowed(After(events), id)
    requires var s := After(events);
             Flatten(chunks) == EncodeAll([Serve(s.reg, Attach(Print(id)), SightOf(s)).1.reply] + later)
    ensures
      var s := After(events);
      Client.Yields(Client.Try(false, true, true, FirstOf(Feed([], chunks))))
        == if !HasEnded(s, id) && id !in s.aborting then Client.Reattached else Client.SessionGone
  {
    AlwaysSound(events);
    AlwaysListed(events);
    hide After, Feasible;
    var s := After(events);
    assert id in SightOf(s).closed <==> HasEnded(s, id);
    assert SightOf(s).finished == s.finished;
    NumberLeads(s.reg, SightOf(s), id);
    PrintWidths(id);
    hide Serve, SightOf, WellFormed, HasEnded, Granted;
    TryOutcome(s.reg, Print(id), SightOf(s), later, chunks);
  }

  /**
   A client that comes back by name is reattached, but not always to where it was: to the session it left exactly if
   that lives and was not killed, else to whatever session has the name now.
   */
  lemma NameTry(events: seq<SysEvent>, n: nat, sid: nat, name: Str, c: Conn, later: seq<Frame>, chunks: seq<seq<byte>>)
    requires Feasible(events) && n <= |events| && Feasible(events[..n])
    requires Named(After(events[..n]).reg.table, sid, name)
    requires After(events).pc == Serving(c) && |name| <= MAX_FRAME_SIZE
    requires var s := After(events);
             Flatten(chunks) == EncodeAll([Serve(s.reg, Attach(name), SightOf(s)).1.reply] + later)
    ensures
      var s := After(events);
      && (Next(s, Request(Attach(name))).pc == HandingOff(c, sid) <==> !HasEnded(s, sid) && sid !in s.aborting)
      && (!HasEnded(s, sid) && sid !in s.aborting ==>
            Client.Yields(Client.Try(false, true, true, FirstOf(Feed([], chunks)))) == Client.Reattached)
  {
    NameFinds(events, n, sid, name, c);
    AlwaysSound(events);
    var s := After(events);
    HandingOffPc(s, Attach(name));
    hide After, Feasible, Serve, SightOf, WellFormed, HasEnded, Granted, Next, DoRequest, Numbered, Accounted;
    TryOutcome(s.reg, name, SightOf(s), later, chunks);
  }

  // ----- A listing that does not come back -----

  lemma SingleText(e: SessionEntry)
    ensures SessionText([e]) == Join(Fields(e), TAB)
  {
    hide Fields;
    assert FormatEntries([e]) == [FormatEntry(e)];
  }

  lemma SmallEntry(e: SessionEntry)
    requires |e.id| <= 1 && |e.name| <= 1 && |e.ptyPath| <= 1
    ensures |SessionText([e])| <= MAX_FRAME_SIZE
  {
    FieldSizes(e, 1);
    hide Fields, Join, Weight;
    JoinWeight(Fields(e), TAB);
    WeightBound(Fields(e), 21);
    SingleText(e);
  }

  lemma TabEntry(reg: Registry, metas: Metas, name: Str)
    requires reg == Registry(map[0 := Some(name)], 1) && name == [TAB] && MetaOf(metas, 0) == None
    ensures |Listing(reg, metas)| == 1 && !EntryClean(Listing(reg, metas)[0])
    ensures |SessionText(Listing(reg, metas))| <= MAX_FRAME_SIZE
  {
    var ids := IdsBelow(reg.table, 1);
    assert IdsBelow(reg.table, 0) == [] && ids == [0];
    var e := Entry(0, Some(name), None);
    assert Listing(reg, metas) == [e];
    PrintLength(0, 1);
    hide Print, SessionText;
    SmallEntry(e);
  }

  lemma TabListing(s: State, name: Str)
    requires s.reg == Registry(map[0 := Some(name)], 1) && s.finished == {} && name == [TAB] && WellFormed(s.reg)
    requires s.sessions == map[0 := FRESH]
    ensures
      var reply := SessionInfo(Listing(s.reg.(table := Reap(s.reg.table, s.finished)), SightOf(s).metas));
      Sendable(reply) && Reread(reply) != reply
  {
    assert Reap(s.reg.table, {}) == s.reg.table;
    var metas := SightOf(s).metas;
    var reply := SessionInfo(Listing(s.reg, metas));
    TabEntry(s.reg, metas, name);
    RereadFaithful(reply);
    hide Reread, SessionText, Listing, WellFormed, EntryClean;
  }

  /** A feasible run whose one session is named by a tab: its listing fits a frame and reads back changed. */
  lemma TabRun() returns (events: seq<SysEvent>, c: Conn)
    ensures Feasible(events) && After(events).pc == Serving(c)
    ensures
      var trace := TraceOf(Next(After(events), Request(ListSessions)).wire, c);
      |trace| == 1 && trace[0].SessionInfo? && Sendable(trace[0]) && Reread(trace[0]) != trace[0]
  {
    var name: seq<byte> := [TAB];
    AsciiValid(name);
    events := OneCreated(name);
    events := ComesIn(events);
    hide Feasible, After;
    var s := After(events);
    c := s.pc.conn;
    AlwaysSound(events);
    AlwaysConversing(events);
    ServedListing(s, c);
    HandingOffPc(s, ListSessions);
    TabListing(s, name);
    hide Serve, SightOf, DoRequest, Next, WellFormed, Numbered, Accounted, Conversing, OneOwner, TraceOf, Listing;
  }
}
