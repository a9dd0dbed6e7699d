/** The layers composed: what leaves one side of a connection is what the other side decodes. */
module EndToEnd {
  import opened Wrappers
  import opened Utf8
  import opened Text
  import opened Decimal
  import opened Protocol
  import opened RoundTrip
  import opened Streaming
  import opened Server
  import opened SessionLaws
  import opened Daemon
  import opened System
  import opened SystemLaws
  import opened Connections
  import opened SystemRuns
  import Client

  // ----- Server to client -----

  /** Sizes of what the server side sends while a client is attached. */
  predicate Bounded(f: Frame) {
    match f
    case Data(bytes) => 1 <= |bytes| <= 4096
    case SessionCreated(id) => |id| <= 10
    case _ => true
  }

  lemma BoundedNext(s: State, e: SysEvent)
    requires Sound(s) && Possible(s, e) && forall k :: 0 <= k < |s.wire| ==> Bounded(s.wire[k].frame)
    ensures forall k :: 0 <= k < |Next(s, e).wire| ==> Bounded(Next(s, e).wire[k].frame)
  {
    match e {
      case Turn(sid, event) =>
        StepSends(s.sessions[sid], event);
        hide Step;
      case Request(f) =>
        PrintWidths(s.reg.nextId);
        ServeIssues(s.reg, f, SightOf(s));
        ReplyKind(s.reg, f, SightOf(s));
        assert Bounded(Serve(s.reg, f, SightOf(s)).1.reply);
        hide Serve, SightOf, Sound, Conversation;
      case _ =>
    }
  }

  lemma {:induction false} AlwaysBounded(events: seq<SysEvent>)
    requires Feasible(events)
    ensures forall k :: 0 <= k < |After(events).wire| ==> Bounded(After(events).wire[k].frame)
    decreases |events|
  {
    if events == [] {
    } else {
      var n := |events| - 1;
      AlwaysBounded(events[..n]);
      AlwaysSound(events[..n]);
      BoundedNext(After(events[..n]), events[n]);
    }
  }

  lemma {:induction false} TraceBounded(wire: seq<Attempt>, c: Conn)
    requires forall k :: 0 <= k < |wire| ==> Bounded(wire[k].frame)
    ensures forall f :: f in TraceOf(wire, c) ==> Bounded(f)
    decreases |wire|
  {
    if wire == [] {
    } else {
      TraceBounded(wire[..|wire| - 1], c);
    }
  }

  predicate Refused(trace: seq<Frame>) {
    |trace| == 1 && trace[0].Error?
  }

  lemma SmallDeliverable(f: Frame)
    requires Bounded(f) && (Relayed(f) || Farewell(f) || f.Ok? || f.SessionCreated?)
    ensures Deliverable(f)
  {
  }

  lemma ConversationDeliverable(request: Frame, trace: seq<Frame>)
    requires request.NewSession? || request.Attach?
    requires Conversation(request, trace) && !Refused(trace) && forall f :: f in trace ==> Bounded(f)
    ensures forall f :: f in trace ==> Deliverable(f)
  {
    forall k | 0 <= k < |trace| ensures Deliverable(trace[k]) {
      assert trace[k] in trace;
      SmallDeliverable(trace[k]);
    }
  }

  lemma AttachedTrace(events: seq<SysEvent>, c: Conn)
    requires Feasible(events) && c in After(events).requests
    requires After(events).requests[c].NewSession? || After(events).requests[c].Attach?
    ensures var trace := TraceOf(After(events).wire, c);
            Refused(trace) || forall f :: f in trace ==> Deliverable(f)
  {
    AlwaysConversing(events);
    assert Proper(After(events), c);
    AlwaysBounded(events);
    TraceBounded(After(events).wire, c);
    var trace := TraceOf(After(events).wire, c);
    hide After, Feasible, TraceOf, Bounded, Deliverable, Conversation, OneOwner, Conversing;
    if !Refused(trace) {
      ConversationDeliverable(After(events).requests[c], trace);
    }
  }

  /**
   An attached client decodes just what was attempted on its connection, however the bytes are cut, and
   a prefix of it if the connection breaks off. No frame is ever too large for it.
   */
  lemma AttachedClientReceives(events: seq<SysEvent>, c: Conn, chunks: seq<seq<byte>>)
    requires Feasible(events) && c in After(events).requests
    requires After(events).requests[c].NewSession? || After(events).requests[c].Attach?
    requires !Refused(TraceOf(After(events).wire, c))
    requires Flatten(chunks) <= EncodeAll(TraceOf(After(events).wire, c))
    ensures var trace, got := TraceOf(After(events).wire, c), Feed([], chunks);
            && got.end.Pending? && got.frames <= trace
            && (Flatten(chunks) == EncodeAll(trace) ==> got == Received(trace, Pending([])))
  {
    AttachedTrace(events, c);
    hide After, Feasible, TraceOf, Deliverable, Feed, EncodeAll;
    var trace := TraceOf(After(events).wire, c);
    TruncatedStream(trace, chunks);
    if Flatten(chunks) == EncodeAll(trace) {
      StreamingRoundTrip(trace, chunks);
    }
  }

  lemma EndsWithCode(l: Client.Link, script: seq<Client.ClientEvent>, i: nat, k: i32)
    requires i < |script| && script[i].what == Client.Incoming(Exit(k)) && Client.After(l, script[..i]).end.None?
    ensures Client.After(l, script).end == Some(Client.Exited(k))
  {
    assert script[..i + 1][..i] == script[..i];
    Client.EndStays(l, script, i + 1);
  }

  lemma TakenIsAttached(events: seq<SysEvent>, sid: nat, c: Conn)
    requires Feasible(events) && c in Clients(Project(events, sid))
    ensures c in After(events).requests && !Refused(TraceOf(After(events).wire, c))
    ensures After(events).requests[c].NewSession? || After(events).requests[c].Attach?
  {
    AlwaysAdmitted(events, sid, c);
    hide After, Feasible, Project, Clients, TraceOf;
  }

  /**
   The shell's exit code becomes the client's: whoever is served when the shell's end is noticed, and gets all its
   bytes, decodes the code last, and a relay still up when it reads that ends with it, whatever else is read afterwards.
   */
  lemma ExitCodeArrives(
    events: seq<SysEvent>, sid: nat, c: Conn, k: i32, chunks: seq<seq<byte>>,
    l: Client.Link, script: seq<Client.ClientEvent>, i: nat)
    requires Feasible(events) && c in Clients(Project(events, sid)) && Admissible(Project(events, sid))
    requires ExitsServing(Project(events, sid), c, k)
    requires Flatten(chunks) == EncodeAll(TraceOf(After(events).wire, c))
    ensures var frames := Feed([], chunks).frames;
            && LastWordExit(frames, k)
            && (i < |script| && Client.After(l, script[..i]).end.None?
                && script[i].what == Client.Incoming(frames[|frames| - 1]) ==>
                  Client.After(l, script).end == Some(Client.Exited(k)))
  {
    hide After, Feasible, Project, Clients, TraceOf, Feed, EncodeAll, Flatten, ExitsServing, Refused, Admissible;
    TakenIsAttached(events, sid, c);
    ExitCodeTold(events, sid, c, k);
    AttachedClientReceives(events, c, chunks);
    if i < |script| && Client.After(l, script[..i]).end.None? && script[i].what == Client.Incoming(Exit(k)) {
      EndsWithCode(l, script, i, k);
    }
  }

  lemma ShownIsPrefix(events: seq<SysEvent>, c: Conn, chunks: seq<seq<byte>>)
    requires Feasible(events) && c in After(events).requests
    requires After(events).requests[c].NewSession? || After(events).requests[c].Attach?
    requires !Refused(TraceOf(After(events).wire, c))
    requires Flatten(chunks) <= EncodeAll(TraceOf(After(events).wire, c))
    ensures DataBytes(Feed([], chunks).frames) <= DataBytes(TraceOf(After(events).wire, c))
  {
    hide Feasible, TraceOf, Feed, Flatten, EncodeAll, DataBytes, Refused;
    AttachedClientReceives(events, c, chunks);
    hide After;
    var trace, got := TraceOf(After(events).wire, c), Feed([], chunks).frames;
    DataBytesPrefix(got, trace);
  }

  lemma PrefixFirst<T>(shown: seq<T>, whole: seq<T>, rest: seq<T>)
    requires shown <= whole
    ensures whole + rest == shown + (whole[|shown|..] + rest)
  {
  }

  lemma OneTurn(clients: seq<Conn>, i: nat, wire: seq<Attempt>)
    requires i < |clients|
    ensures ShownOn(clients, wire)
         == ShownOn(clients[..i], wire) + (DataBytes(TraceOf(wire, clients[i])) + ShownOn(clients[i + 1..], wire))
  {
    hide DataBytes, TraceOf;
    assert [clients[i]][..0] == [] && ShownOn([], wire) == [];
    assert ShownOn([clients[i]], wire) == DataBytes(TraceOf(wire, clients[i]));
    hide ShownOn;
    assert clients == clients[..i] + ([clients[i]] + clients[i + 1..]);
    ShownAdd(clients[..i], [clients[i]] + clients[i + 1..], wire);
    ShownAdd([clients[i]], clients[i + 1..], wire);
  }

  /**
   Shell to screen: what the session's `i`th client decodes on its connection, however long it lasts and however its
   bytes are cut, starts exactly where what the clients before it were shown stops; if all of it gets through, the
   next client's part follows.
   */
  lemma ClientShowsPtyOutput(events: seq<SysEvent>, sid: nat, i: nat, chunks: seq<seq<byte>>) returns (rest: seq<byte>)
    requires Feasible(events) && i < |Clients(Project(events, sid))|
    requires Flatten(chunks) <= EncodeAll(TraceOf(After(events).wire, Clients(Project(events, sid))[i]))
    ensures
      var clients, wire := Clients(Project(events, sid)), After(events).wire;
      && BytesRead(Project(events, sid))
           == ShownOn(clients[..i], wire) + (DataBytes(Feed([], chunks).frames) + rest)
      && (Flatten(chunks) == EncodeAll(TraceOf(wire, clients[i])) ==> rest == ShownOn(clients[i + 1..], wire))
  {
    var clients := Clients(Project(events, sid));
    var c := clients[i];
    hide After, Feasible, Clients, Project, TraceOf, Feed, Flatten, EncodeAll, BytesRead, DataBytes, ShownOn, Refused;
    TakenIsAttached(events, sid, c);
    OutputContinuesInRun(events, sid);
    var s := After(events);
    ShownIsPrefix(events, c, chunks);
    OneTurn(clients, i, s.wire);
    var all, shown := DataBytes(TraceOf(s.wire, c)), DataBytes(Feed([], chunks).frames);
    rest := all[|shown|..] + ShownOn(clients[i + 1..], s.wire);
    PrefixFirst(shown, all, ShownOn(clients[i + 1..], s.wire));
    if Flatten(chunks) == EncodeAll(TraceOf(s.wire, c)) {
      AttachedClientReceives(events, c, chunks);
      assert all[|shown|..] + ShownOn(clients[i + 1..], s.wire) == ShownOn(clients[i + 1..], s.wire);
    }
  }

  // ----- Listing -----

  predicate Printable(s: Str) {
    TAB !in s && LF !in s
  }

  /** The listing has one entry per table id, in strictly increasing numeric order, with what the daemon knows of it. */
  lemma ListingIsTable(reg: Registry, metas: Metas)
    requires WellFormed(reg)
    ensures var entries := Listing(reg, metas);
            && (forall i, j :: 0 <= i < j < |entries| ==> Key(entries[i]) < Key(entries[j]))
            && (forall e :: e in entries ==>
                  exists id :: id in reg.table && e == Entry(id, reg.table[id], MetaOf(metas, id)))
            && (forall id :: id in reg.table ==> Entry(id, reg.table[id], MetaOf(metas, id)) in entries)
  {
    var ids := IdsBelow(reg.table, reg.nextId);
    var entries := Listing(reg, metas);
    forall k | 0 <= k < |ids|
      ensures Key(entries[k]) == ids[k] && ids[k] in reg.table
      ensures entries[k] == Entry(ids[k], reg.table[ids[k]], MetaOf(metas, ids[k]))
    {
      assert ids[k] in ids;
      KeyOfEntry(ids[k], reg.table[ids[k]], MetaOf(metas, ids[k]));
    }
    forall id | id in reg.table ensures Entry(id, reg.table[id], MetaOf(metas, id)) in entries {
      var k :| 0 <= k < |ids| && ids[k] == id;
      assert entries[k] in entries;
    }
    hide Key, Entry;
  }

  /** An entry tells the truth about a session that has lived through `script`. */
  predicate Shows(e: SessionEntry, id: nat, name: Option<Str>, s: Session, script: seq<Event>) {
    && e.id == Print(id)
    && e.name == (match name case Some(n) => n case None => [])
    && (!s.phase.Ended? ==> (e.attached <==> s.phase.Relay?))
    && if s.env.None? then e.ptyPath == [] && e.shellPid == 0 && e.createdAt == 0 && e.lastHeartbeat == 0
       else
         && |script| >= 2 && script[1].FirstFrame? && script[1].spawned.Some?
         && var spawned := script[1].spawned.value;
            && e.ptyPath == spawned.ptyPath && e.shellPid == spawned.shellPid && e.createdAt == spawned.createdAt
            && e.lastHeartbeat == LastBeat(script)
  }

  lemma EntryShows(events: seq<SysEvent>, id: nat)
    requires Feasible(events) && id in After(events).reg.table
    ensures id in After(events).sessions
    ensures var s := After(events);
            Shows(Entry(id, s.reg.table[id], MetaOf(SightOf(s).metas, id)), id, s.reg.table[id],
                  s.sessions[id], Project(events, id))
  {
    AlwaysSound(events);
    ProjectRuns(events, id);
    OneShell(Project(events, id));
    if Run(Project(events, id)).0.meta.Some? {
      MetadataExact(Project(events, id));
    }
    hide After, Feasible, Project, Run, Admissible, WellFormed, LastBeat;
  }

  lemma ListingReply(reg: Registry, sight: Sight)
    ensures Serve(reg, ListSessions, sight).1.reply
         == SessionInfo(Listing(reg.(table := Reap(reg.table, sight.finished)), sight.metas))
  {
    hide Listing, Taken, Resolve, Resolves, Complaint, Valid, FromAscii, Print;
  }

  lemma ServedListing(s: State, c: Conn)
    requires Sound(s) && Conversing(s) && s.pc == Serving(c)
    ensures TraceOf(DoRequest(s, ListSessions).wire, c)
         == [SessionInfo(Listing(s.reg.(table := Reap(s.reg.table, s.finished)), SightOf(s).metas))]
  {
    FirstReply(s, ListSessions, c);
    ListingReply(s.reg, SightOf(s));
    assert SightOf(s).finished == s.finished;
    hide Serve, Listing, Reap, SightOf, DoRequest, TraceOf, Conversing, Sound;
  }

  /**
   The answer to a listing request, in any run: exactly the listed sessions whose tasks have not finished,
   in increasing order of number, each shown as it is at that moment.
   */
  lemma ListingTruthful(events: seq<SysEvent>, c: Conn)
    requires Feasible(events) && After(events).pc == Serving(c)
    ensures
      var s := After(events);
      var trace := TraceOf(Next(s, Request(ListSessions)).wire, c);
      && |trace| == 1 && trace[0].SessionInfo?
      && (forall i, j :: 0 <= i < j < |trace[0].sessions| ==> Key(trace[0].sessions[i]) < Key(trace[0].sessions[j]))
      && (forall id: nat :: id in s.reg.table && id !in s.finished ==>
            id in s.sessions && Entry(id, s.reg.table[id], MetaOf(SightOf(s).metas, id)) in trace[0].sessions)
      && (forall e :: e in trace[0].sessions ==>
            exists id: nat :: id in s.reg.table && id !in s.finished && id in s.sessions
              && Shows(e, id, s.reg.table[id], s.sessions[id], Project(events, id)))
  {
    AlwaysSound(events);
    AlwaysConversing(events);
    var s := After(events);
    assert WellFormed(s.reg) && SightOf(s).finished == s.finished;
    hide After, Feasible, Listing, SightOf, TraceOf, Sound, Conversing, OneOwner, Shows, Entry, Key, MetaOf, WellFormed;
    hide DoRequest, Project;
    ServedListing(s, c);
    ReapedWellFormed(s.reg, s.finished);
    ReapLeaves(s.reg.table, s.finished);
    var reaped := s.reg.(table := Reap(s.reg.table, s.finished));
    hide Reap;
    ListingIsTable(reaped, SightOf(s).metas);
    forall id: nat | id in s.reg.table
      ensures id in s.sessions
      ensures Shows(Entry(id, s.reg.table[id], MetaOf(SightOf(s).metas, id)), id, s.reg.table[id],
                    s.sessions[id], Project(events, id))
    {
      EntryShows(events, id);
    }
  }

  /** No name and no PTY path the listing shows has a tab or a line feed in it. */
  ghost predicate ListsClean(table: map<nat, Option<Str>>, metas: Metas) {
    forall id :: id in table ==>
      && (table[id].Some? ==> Printable(table[id].value))
      && (MetaOf(metas, id).Some? ==> Printable(MetaOf(metas, id).value.ptyPath))
  }

  lemma EntryCleanIff(id: nat, name: Option<Str>, meta: Option<Metadata>)
    ensures EntryClean(Entry(id, name, meta)) <==>
      (name.Some? ==> Printable(name.value)) && (meta.Some? ==> Printable(meta.value.ptyPath))
  {
    assert TAB !in Print(id) && LF !in Print(id);
  }

  lemma ListingClean(reg: Registry, metas: Metas)
    requires WellFormed(reg)
    ensures (forall e :: e in Listing(reg, metas) ==> EntryClean(e)) <==> ListsClean(reg.table, metas)
  {
    ListingIsTable(reg, metas);
    hide Listing, EntryClean, Entry, MetaOf, Printable, WellFormed;
    forall id | id in reg.table
      ensures EntryClean(Entry(id, reg.table[id], MetaOf(metas, id))) <==>
        && (reg.table[id].Some? ==> Printable(reg.table[id].value))
        && (MetaOf(metas, id).Some? ==> Printable(MetaOf(metas, id).value.ptyPath))
    {
      EntryCleanIff(id, reg.table[id], MetaOf(metas, id));
    }
  }

  lemma TableDeliverable(entries: seq<SessionEntry>)
    ensures Deliverable(SessionInfo(entries)) <==>
      |SessionText(entries)| <= MAX_FRAME_SIZE && forall e :: e in entries ==> EntryClean(e)
  {
    hide SessionText, EntryClean;
  }

  lemma ListingDeliverable(reg: Registry, metas: Metas)
    requires WellFormed(reg)
    ensures Deliverable(SessionInfo(Listing(reg, metas))) <==>
      |SessionText(Listing(reg, metas))| <= MAX_FRAME_SIZE && ListsClean(reg.table, metas)
  {
    hide EntryClean, Listing, SessionText, ListsClean, WellFormed, Deliverable;
    ListingClean(reg, metas);
    TableDeliverable(Listing(reg, metas));
  }

  /**
   A client decodes the daemon's listing exactly if its text fits a frame and no listed name or PTY path has a tab
   or line feed in it.
   */
  lemma ListingArrives(reg: Registry, metas: Metas, reply: Frame)
    requires WellFormed(reg) && reply == SessionInfo(Listing(reg, metas))
    ensures DecodeOne(Encoding(reply)) == Item(reply, []) <==>
      |SessionText(Listing(reg, metas))| <= MAX_FRAME_SIZE && ListsClean(reg.table, metas)
  {
    FrameRoundTrip(reply);
    ListingDeliverable(reg, metas);
    hide DecodeOne, Encoding, Deliverable, ListsClean, Listing, SessionText, WellFormed;
  }
}
