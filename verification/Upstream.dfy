/** From the client to the server: what is typed, and the environment a session's shell starts with. */
module Upstream {
  import opened Wrappers
  import opened Utf8
  import opened Protocol
  import opened RoundTrip
  import opened Streaming
  import opened Server
  import opened SessionLaws
  import Escape
  import Client
  import ClientLaws
  import ClientTalk

  // ----- Sizes -----

  /** Reads of the keyboard fill a 4096-byte buffer at most. */
  predicate ReadsFit(script: seq<Client.ClientEvent>) {
    forall i :: 0 <= i < |script| && script[i].what.Typed? ==> |script[i].what.input| <= READ_BUFFER
  }

  predicate Plain(f: Frame) {
    (f.Data? && |f.bytes| <= READ_BUFFER + 1) || f.Resize? || f.Ping?
  }

  lemma PlainDeliverable(f: Frame)
    requires Plain(f)
    ensures Deliverable(f) && Reread(f) == f
  {
  }

  lemma {:induction false} FramesPlain(actions: seq<Escape.Action>, size: Client.Size)
    requires forall a :: a in actions && a.Data? ==> |a.bytes| <= READ_BUFFER + 1
    ensures forall f :: f in ClientTalk.FramesOf(actions, size) ==> Plain(f)
    decreases |actions|
  {
    if actions == [] {
    } else {
      assert actions[0] in actions && forall a :: a in actions[1..] ==> a in actions;
      FramesPlain(actions[1..], size);
    }
  }

  lemma SaidPlain(escape: Option<Escape.EscapeState>, e: Client.ClientEvent)
    requires e.what.Typed? ==> |e.what.input| <= READ_BUFFER
    ensures forall f :: f in ClientTalk.Said(escape, e) ==> Plain(f)
  {
    if e.what.Typed? && escape.Some? {
      Escape.ProcessMeaning(escape.value, e.what.input);
      FramesPlain(Escape.Machine(escape.value, [], e.what.input).1, e.size);
      hide Escape.Machine;
    }
  }

  lemma {:induction false} SpokenPlain(escape: Option<Escape.EscapeState>, script: seq<Client.ClientEvent>)
    requires ReadsFit(script)
    ensures forall f :: f in ClientTalk.Spoken(escape, script) ==> Plain(f)
    decreases |script|
  {
    if script == [] {
    } else {
      var n := |script| - 1;
      SpokenPlain(escape, script[..n]);
      SaidPlain(ClientTalk.StateAfter(escape, ClientLaws.Typing(script[..n])), script[n]);
      hide ClientTalk.Said, Plain;
    }
  }

  lemma Unmoved(l: Client.Link, script: seq<Client.ClientEvent>)
    requires l.end.Some?
    ensures Client.After(l, script) == l
  {
    assert Client.After(l, script[..0]) == l;
    Client.EndStays(l, script, 0);
  }

  lemma PastPrefix<T>(a: seq<T>, b: seq<T>, c: seq<T>, i: nat)
    requires b <= a + c && |a| <= i < |b|
    ensures b[i] in c
  {
    assert b[i] == (a + c)[i] == c[i - |a|];
  }

  /** Nothing a client sends after its opening is too large for the server's decoder, or comes back changed. */
  lemma ClientDeliverable(l: Client.Link, script: seq<Client.ClientEvent>)
    requires ReadsFit(script)
    ensures l.sent <= Client.After(l, script).sent
    ensures forall i :: |l.sent| <= i < |Client.After(l, script).sent| ==>
      Deliverable(Client.After(l, script).sent[i]) && Plain(Client.After(l, script).sent[i])
  {
    hide Client.After, Deliverable, ClientTalk.Spoken, Plain, ReadsFit;
    if l.end.Some? {
      Unmoved(l, script);
    } else {
      ClientTalk.ConnectionSays(l, script);
      ClientLaws.RelayExtends(l, script);
      SpokenPlain(l.escape, script);
      var sent, spoken := Client.After(l, script).sent, ClientTalk.Spoken(l.escape, script);
      forall i | |l.sent| <= i < |sent| ensures Deliverable(sent[i]) && Plain(sent[i]) {
        PastPrefix(l.sent, sent, spoken, i);
        PlainDeliverable(sent[i]);
      }
    }
  }

  // ----- What is typed -----

  /** What the text typed makes of the Data frames: itself without escapes, and what the scan outputs with them. */
  function Outgoing(escape: Option<Escape.EscapeState>, text: seq<byte>): seq<byte> {
    match escape
    case None => text
    case Some(state) => ClientLaws.Output(Escape.Scan(state, text).marks)
  }

  lemma OutgoingGrows(escape: Option<Escape.EscapeState>, a: seq<byte>, b: seq<byte>)
    ensures Outgoing(escape, a) <= Outgoing(escape, a + b)
    ensures escape.None? || !Escape.Scan(escape.value, a).detached ==>
      Outgoing(escape, a + b) == Outgoing(escape, a) + Outgoing(ClientTalk.StateAfter(escape, a), b)
  {
    if escape.Some? {
      var first := Escape.Scan(escape.value, a);
      Escape.ScanAppend(escape.value, a, b);
      ClientLaws.OutputConcat(first.marks, Escape.Scan(first.state, b).marks);
    }
  }

  lemma DataOf(f: Frame)
    ensures DataBytes([f]) == if f.Data? then f.bytes else []
  {
    assert [f][..0] == [] && DataBytes([]) == [];
  }

  lemma FirstAction(actions: seq<Escape.Action>, size: Client.Size)
    requires actions != [] && actions[0] != Escape.Action.Escape(Escape.Detach)
    ensures DataBytes(ClientTalk.FramesOf(actions, size))
         == ClientLaws.ActionBytes(actions[0]) + DataBytes(ClientTalk.FramesOf(actions[1..], size))
  {
    var rest := ClientTalk.FramesOf(actions[1..], size);
    var f := ClientLaws.FrameFor(actions[0], size);
    assert ClientTalk.FramesOf(actions, size)
        == (if actions[0] == Escape.Action.Escape(Escape.Help) then [] else [f]) + rest;
    DataOf(f);
    hide ClientTalk.FramesOf, DataBytes;
    DataBytesConcat([f], rest);
    assert [] + rest == rest && [] + DataBytes(rest) == DataBytes(rest);
  }

  lemma {:induction false} FramesData(actions: seq<Escape.Action>, size: Client.Size)
    ensures DataBytes(ClientTalk.FramesOf(actions, size)) <= ClientLaws.Output(Escape.Flat(actions))
    ensures Escape.Fired(Escape.Detach) !in Escape.Flat(actions) ==>
      DataBytes(ClientTalk.FramesOf(actions, size)) == ClientLaws.Output(Escape.Flat(actions))
    decreases |actions|
  {
    if actions == [] {
    } else if actions[0] == Escape.Action.Escape(Escape.Detach) {
      assert Escape.Flat(actions) == [Escape.Fired(Escape.Detach)] + Escape.Flat(actions[1..]);
      assert DataBytes([]) == [];
    } else {
      FramesData(actions[1..], size);
      ClientLaws.OutputFirst(actions);
      hide ClientTalk.FramesOf, Escape.Flat, DataBytes, ClientLaws.Output;
      FirstAction(actions, size);
    }
  }

  lemma SaidData(escape: Option<Escape.EscapeState>, e: Client.ClientEvent)
    ensures var typed := if e.what.Typed? then Outgoing(escape, e.what.input) else [];
            && DataBytes(ClientTalk.Said(escape, e)) <= typed
            && (!(e.what.Typed? && escape.Some? && Escape.Scan(escape.value, e.what.input).detached) ==>
                  DataBytes(ClientTalk.Said(escape, e)) == typed)
  {
    DataOf(Ping);
    DataOf(Resize(e.size.cols, e.size.rows));
    assert DataBytes([]) == [];
    if e.what.Typed? {
      DataOf(Data(e.what.input));
      if escape.Some? {
        Escape.ProcessMeaning(escape.value, e.what.input);
        ClientLaws.DetachFires(escape.value, e.what.input);
        FramesData(Escape.Machine(escape.value, [], e.what.input).1, e.size);
      }
    }
    hide DataBytes, Escape.Machine, Escape.Scan, Escape.Flat, ClientLaws.Output;
  }

  function Input(e: Client.ClientEvent): seq<byte> {
    if e.what.Typed? then e.what.input else []
  }

  /** One turn adds to the Data what the typing of the turn makes of it. */
  lemma DataTurn(l: Client.Link, e: Client.ClientEvent)
    requires l.end.None?
    requires var after, said := Client.React(l, e), ClientTalk.Said(l.escape, e);
             && after.sent <= l.sent + said && (after.end.None? ==> after.sent == l.sent + said)
    ensures var typed := DataBytes(l.sent) + Outgoing(l.escape, Input(e));
            && DataBytes(Client.React(l, e).sent) <= typed
            && (Client.React(l, e).end.None? ==> DataBytes(Client.React(l, e).sent) == typed)
  {
    var after, said := Client.React(l, e), ClientTalk.Said(l.escape, e);
    SaidData(l.escape, e);
    if after.end.None? && e.what.Typed? && l.escape.Some? {
      ClientLaws.TypedSends(l, e);
    }
    assert Outgoing(l.escape, []) == [];
    hide Client.React, ClientTalk.Said, DataBytes, Outgoing, Escape.Scan;
    DataBytesConcat(l.sent, said);
    DataBytesPrefix(after.sent, l.sent + said);
  }

  lemma Longer(a: seq<byte>, b: seq<byte>, c: seq<byte>)
    ensures a + (b + c) == (a + b) + c
  {
  }

  /** The Data sent after the opening: just what the typing makes while the link is up, a prefix if it has ended. */
  lemma {:induction false} DataSaid(l: Client.Link, script: seq<Client.ClientEvent>)
    requires l.end.None?
    ensures var typed := DataBytes(l.sent) + Outgoing(l.escape, ClientLaws.Typing(script));
            && DataBytes(Client.After(l, script).sent) <= typed
            && (Client.After(l, script).end.None? ==> DataBytes(Client.After(l, script).sent) == typed)
    decreases |script|
  {
    if script == [] {
      assert ClientLaws.Output([]) == [];
    } else {
      var n := |script| - 1;
      DataSaid(l, script[..n]);
      var before, text := Client.After(l, script[..n]), ClientLaws.Typing(script[..n]);
      OutgoingGrows(l.escape, text, Input(script[n]));
      assert ClientLaws.Typing(script) == text + Input(script[n]);
      if before.end.None? {
        ClientTalk.StillUp(l, script[..n]);
        ClientTalk.ReactExact(before, script, l.escape, l.lastPong);
        DataTurn(before, script[n]);
        assert Client.After(l, script) == Client.React(before, script[n]);
      }
      hide Client.React, Client.After, ClientTalk.Said, ClientTalk.EndedBy, Escape.Scan, ClientLaws.LastPong;
      hide DataBytes, Outgoing;
      hide ClientLaws.Typing;
      if before.end.None? {
        Longer(DataBytes(l.sent), Outgoing(l.escape, text), Outgoing(before.escape, Input(script[n])));
      }
    }
  }

  // ----- A whole connection -----

  function Head(redraw: bool): seq<byte> {
    if redraw then Client.CTRL_L else []
  }

  lemma {:induction false} OpeningData(env: seq<(Str, Str)>, size: Client.Size, redraw: bool)
    ensures DataBytes(Client.Opening(env, size, redraw)) == Head(redraw)
  {
    var first, last := if env == [] then [] else [Env(env)], if redraw then [Frame.Data(Client.CTRL_L)] else [];
    DataOf(Env(env));
    DataOf(Resize(size.cols, size.rows));
    DataOf(Frame.Data(Client.CTRL_L));
    assert DataBytes([]) == [];
    hide DataBytes;
    DataBytesConcat(first, [Resize(size.cols, size.rows)]);
    DataBytesConcat(first + [Resize(size.cols, size.rows)], last);
  }

  lemma OpeningSendable(env: seq<(Str, Str)>, size: Client.Size, redraw: bool)
    requires |EnvText(env)| <= MAX_FRAME_SIZE
    ensures forall f :: f in Client.Opening(env, size, redraw) ==> Sendable(f)
  {
    hide EnvText, BigEndian16;
  }

  lemma DeliverableSendable(f: Frame)
    requires Deliverable(f)
    ensures Sendable(f)
  {
  }

  /** The frames a connection of the client sends, one of its sends failing or not. */
  lemma ConnectionSendable(
    escape: Option<Escape.EscapeState>, env: seq<(Str, Str)>, redraw: bool, round: Client.Round)
    requires |EnvText(env)| <= MAX_FRAME_SIZE && ReadsFit(round.script)
    ensures forall f :: f in Client.Connection(escape, env, redraw, round).sent ==> Sendable(f)
  {
    var opening := Client.Opening(env, round.size, redraw);
    var first := Client.Opened(escape, opening, round.openSends, round.start);
    OpeningSendable(env, round.size, redraw);
    ClientDeliverable(first, round.script);
    hide Client.After, Sendable, ReadsFit, Client.Opening, Plain, Faithful;
    var sent := Client.After(first, round.script).sent;
    forall i | 0 <= i < |sent| ensures Sendable(sent[i]) {
      if i < |first.sent| {
        assert sent[i] == first.sent[i] == opening[i];
      } else {
        assert Deliverable(sent[i]);
        DeliverableSendable(sent[i]);
      }
    }
  }

  lemma ConnectionData(
    escape: Option<Escape.EscapeState>, env: seq<(Str, Str)>, redraw: bool, round: Client.Round)
    ensures
      var link := Client.Connection(escape, env, redraw, round);
      var typed := Head(redraw) + Outgoing(escape, ClientLaws.Typing(round.script));
      DataBytes(link.sent) <= typed && (link.end.None? ==> DataBytes(link.sent) == typed)
  {
    var opening := Client.Opening(env, round.size, redraw);
    var first := Client.Opened(escape, opening, round.openSends, round.start);
    OpeningData(env, round.size, redraw);
    DataBytesPrefix(first.sent, opening);
    hide DataBytes, Outgoing, Client.Opening;
    if first.end.None? {
      DataSaid(first, round.script);
    } else {
      Client.EndStays(first, round.script, 0);
      assert Client.After(first, []) == first && round.script[..0] == [];
    }
    hide Client.After;
  }

  lemma {:induction false} RereadData(frames: seq<Frame>)
    ensures DataBytes(RereadAll(frames)) == DataBytes(frames)
    decreases |frames|
  {
    if frames == [] {
    } else {
      var n := |frames| - 1;
      RereadData(frames[..n]);
      assert RereadAll(frames)[..n] == RereadAll(frames[..n]);
      hide EnvOfText, EnvText, EntriesOfText, SessionText;
    }
  }

  lemma DataReceived(sent: seq<Frame>, chunks: seq<seq<byte>>)
    requires (forall f :: f in sent ==> Sendable(f)) && Flatten(chunks) <= EncodeAll(sent)
    ensures Feed([], chunks).end.Pending? && DataBytes(Feed([], chunks).frames) <= DataBytes(sent)
    ensures Flatten(chunks) == EncodeAll(sent) ==>
      Feed([], chunks).end == Pending([]) && DataBytes(Feed([], chunks).frames) == DataBytes(sent)
  {
    ChunkingIndependence(chunks);
    hide Drain, Feed, Flatten, EncodeAll, RereadAll, Sendable, DataBytes;
    var k, part := DrainCut(sent, Flatten(chunks));
    RereadData(sent[..k]);
    DataBytesPrefix(sent[..k], sent);
    if Flatten(chunks) == EncodeAll(sent) {
      DrainAll(sent);
      RereadData(sent);
    }
  }

  /**
   Keyboard to server: over any connection, with any environment that fits, whatever is typed in any reads, and
   however the connection cuts or breaks off the bytes, the Data the server decodes is what the escape scan makes
   of the typing, after the redraw request if there is one: all of it while the link is up, else a prefix.
   */
  lemma TypedTextArrives(
    escape: Option<Escape.EscapeState>, env: seq<(Str, Str)>, redraw: bool, round: Client.Round,
    chunks: seq<seq<byte>>)
    requires |EnvText(env)| <= MAX_FRAME_SIZE && ReadsFit(round.script)
    requires Flatten(chunks) <= EncodeAll(Client.Connection(escape, env, redraw, round).sent)
    ensures
      var link, got := Client.Connection(escape, env, redraw, round), Feed([], chunks);
      var typed := Head(redraw) + Outgoing(escape, ClientLaws.Typing(round.script));
      && got.end.Pending? && DataBytes(got.frames) <= typed
      && (link.end.None? && Flatten(chunks) == EncodeAll(link.sent) ==>
            got.end == Pending([]) && DataBytes(got.frames) == typed)
  {
    ConnectionSendable(escape, env, redraw, round);
    ConnectionData(escape, env, redraw, round);
    hide Client.Connection, Outgoing, DataBytes, Feed, Flatten, EncodeAll, Sendable;
    DataReceived(Client.Connection(escape, env, redraw, round).sent, chunks);
  }

  /** Text typed with its line-start tildes doubled goes out as itself, and so does any text without escapes. */
  lemma PlainTextOut(text: seq<byte>)
    ensures Outgoing(Some(Escape.AfterNewline), Escape.Protect(text)) == text == Outgoing(None, text)
  {
    Escape.ProtectScans(text);
    ClientLaws.OutputBytes(text);
  }

  // ----- What reaches the PTY -----

  /** The frames a stretch of a session's events brought from its client. */
  function Brought(stretch: seq<Event>): seq<Frame> {
    if stretch == [] then []
    else
      var n := |stretch| - 1;
      Brought(stretch[..n]) + if stretch[n].ClientFrame? then [stretch[n].frame] else []
  }

  lemma {:induction false} BroughtData(stretch: seq<Event>)
    ensures InputAll(stretch) == DataBytes(Brought(stretch))
    decreases |stretch|
  {
    if stretch == [] {
    } else {
      var n := |stretch| - 1;
      BroughtData(stretch[..n]);
      var before := Brought(stretch[..n]);
      assert before + [] == before && DataBytes(before) + [] == DataBytes(before);
      if stretch[n].ClientFrame? {
        DataBytesNext(before, stretch[n].frame);
      }
      hide DataBytes;
    }
  }

  lemma DataPiece(frames: seq<Frame>, k: nat, some: seq<Frame>)
    requires k <= |frames| && some <= frames[k..]
    ensures DataBytes(frames)
         == DataBytes(frames[..k]) + (DataBytes(some) + DataBytes(frames[k..][|some|..]))
  {
    hide DataBytes;
    assert frames == frames[..k] + frames[k..] && frames[k..] == some + frames[k..][|some|..];
    DataBytesConcat(frames[..k], frames[k..]);
    DataBytesConcat(some, frames[k..][|some|..]);
  }

  /**
   Keyboard to PTY: `k` frames of a client's stream were taken before its session relayed for it, and in `stretch` the
   session takes some of those that follow. What it writes to the PTY is what was typed with some bytes left out, never
   anything else, repeated or out of order.
   */
  lemma TypedReachesPty(
    escape: Option<Escape.EscapeState>, env: seq<(Str, Str)>, redraw: bool, round: Client.Round,
    chunks: seq<seq<byte>>, k: nat, stretch: seq<Event>)
    requires |EnvText(env)| <= MAX_FRAME_SIZE && ReadsFit(round.script)
    requires Flatten(chunks) <= EncodeAll(Client.Connection(escape, env, redraw, round).sent)
    requires k <= |Feed([], chunks).frames| && Brought(stretch) <= Feed([], chunks).frames[k..]
    ensures Thinned(WrittenAll(stretch), Head(redraw) + Outgoing(escape, ClientLaws.Typing(round.script)))
  {
    hide Client.Connection, Outgoing, DataBytes, Feed, Flatten, EncodeAll, ReadsFit;
    hide Thinned, WrittenAll, InputAll, Brought;
    TypedTextArrives(escape, env, redraw, round, chunks);
    InputThinned(stretch);
    BroughtData(stretch);
    var frames, some, written := Feed([], chunks).frames, Brought(stretch), WrittenAll(stretch);
    DataPiece(frames, k, some);
    var typed, rest := Head(redraw) + Outgoing(escape, ClientLaws.Typing(round.script)), frames[k..][|some|..];
    ThinnedMore(written, DataBytes(some), DataBytes(rest));
    ThinnedWithin(written, DataBytes(frames[..k]), DataBytes(some) + DataBytes(rest));
    ThinnedMore(written, DataBytes(frames), typed[|DataBytes(frames)|..]);
    assert DataBytes(frames) + typed[|DataBytes(frames)|..] == typed;
  }

  // ----- The environment -----

  lemma OversizeSoFar(f: Frame, later: seq<byte>, cut: seq<byte>)
    requires !Sendable(f) && cut <= Encoding(f) + later
    ensures DecodeOne(cut).Item? ==> DecodeOne(cut).frame != f
  {
    hide DecodeOne, Encoding, Sendable;
    var missing := (Encoding(f) + later)[|cut|..];
    assert cut + missing == Encoding(f) + later;
    DecodeStable(cut, missing);
    OversizeFrame(f, later);
  }

  lemma SendableSoFar(f: Frame, later: seq<byte>, cut: seq<byte>)
    requires Sendable(f) && cut <= Encoding(f) + later
    ensures if |Encoding(f)| <= |cut| then DecodeOne(cut).Item? && DecodeOne(cut).frame == Reread(f)
            else DecodeOne(cut) == NeedMore
  {
    hide DecodeOne, Encoding, Sendable, Reread;
    if |Encoding(f)| <= |cut| {
      CutAfter(Encoding(f), later, cut);
      SendableDecodes(f, cut[|Encoding(f)|..]);
    } else {
      assert cut == Encoding(f)[..|cut|];
      PartOfFrame(f, cut);
    }
  }

  /** The first frame of a stream that has brought only `cut` so far. */
  lemma FirstSoFar(f: Frame, later: seq<byte>, cut: seq<byte>)
    requires cut <= Encoding(f) + later
    ensures Sendable(f) ==> FirstOf(Drain(cut)) == if |Encoding(f)| <= |cut| then Some(Reread(f)) else None
    ensures !Sendable(f) ==> FirstOf(Drain(cut)) != Some(f)
  {
    hide DecodeOne, Encoding, Sendable, Reread;
    if Sendable(f) {
      SendableSoFar(f, later, cut);
    } else {
      OversizeSoFar(f, later, cut);
    }
  }

  lemma ConnectionStarts(
    escape: Option<Escape.EscapeState>, env: seq<(Str, Str)>, redraw: bool, round: Client.Round)
    ensures
      var sent := Client.Connection(escape, env, redraw, round).sent;
      sent != [] && sent[0] == if env == [] then Resize(round.size.cols, round.size.rows) else Env(env)
  {
    var opening := Client.Opening(env, round.size, redraw);
    var first := Client.Opened(escape, opening, round.openSends, round.start);
    ClientLaws.RelayExtends(first, round.script);
    assert first.sent != [] && first.sent[0] == opening[0];
    hide Client.After, Client.Opening, Client.Opened;
  }

  lemma FirstHeard(
    escape: Option<Escape.EscapeState>, env: seq<(Str, Str)>, redraw: bool, round: Client.Round,
    early: seq<seq<byte>>)
    requires Flatten(early) <= EncodeAll(Client.Connection(escape, env, redraw, round).sent)
    ensures
      var first := FirstOf(Feed([], early));
      if env == [] then first in {None, Some(Resize(round.size.cols, round.size.rows))}
      else if |EnvText(env)| > MAX_FRAME_SIZE then first != Some(Env(env))
      else first == if |Encoding(Env(env))| <= |Flatten(early)| then Some(Env(EnvOfText(EnvText(env)))) else None
  {
    hide Client.Connection, Flatten, Feed, Drain, Encoding, EnvText, EnvOfText, Valid;
    var sent := Client.Connection(escape, env, redraw, round).sent;
    var f := if env == [] then Resize(round.size.cols, round.size.rows) else Env(env);
    ConnectionStarts(escape, env, redraw, round);
    ChunkingIndependence(early);
    FirstSoFar(f, EncodeAll(sent[1..]), Flatten(early));
  }

  /**
   The environment of a session's shell. Its first client sends `env` ahead of everything else; by the time the
   session stops waiting for it, the bytes `early` have come. The shell gets just the client's variables if there
   are none, or else exactly if they survive the text format, fit a frame, and came in time.
   */
  lemma EnvironmentArrives(
    escape: Option<Escape.EscapeState>, env: seq<(Str, Str)>, redraw: bool, round: Client.Round,
    early: seq<seq<byte>>, script: seq<Event>)
    requires Flatten(early) <= EncodeAll(Client.Connection(escape, env, redraw, round).sent)
    requires Admissible(script) && Run(script).0.env.Some? && |script| > 1
    requires script[1].FirstFrame? ==> script[1].first == FirstOf(Feed([], early))
    ensures
      Run(script).0.env == Some(env) <==>
        || env == []
        || (EnvClean(env) && |EnvText(env)| <= MAX_FRAME_SIZE && |Encoding(Env(env))| <= |Flatten(early)|)
  {
    FirstEnvOnly(script);
    hide Run, Admissible;
    FirstHeard(escape, env, redraw, round, early);
    EnvRoundTrip(env);
    hide Flatten, Feed, EncodeAll, Encoding, EnvText, EnvOfText, EnvClean, Client.Connection;
  }

  /** Without variables to send, the first frame a session takes in its wait is the window size, which is lost. */
  lemma ResizeSwallowed(
    escape: Option<Escape.EscapeState>, redraw: bool, round: Client.Round, early: seq<seq<byte>>, m: Spawned)
    requires Flatten(early) <= EncodeAll(Client.Connection(escape, [], redraw, round).sent)
    requires |Encoding(Resize(round.size.cols, round.size.rows))| <= |Flatten(early)|
    ensures
      var first := FirstOf(Feed([], early));
      && first == Some(Resize(round.size.cols, round.size.rows))
      && forall c, meta :: Step(Session(ReadEnv(c), meta, None), FirstFrame(first, Some(m)))
           == (Session(Relay(c), Some(Metadata(m.ptyPath, m.shellPid, m.createdAt, true, 0)), Some([])), [])
  {
    var sent := Client.Connection(escape, [], redraw, round).sent;
    var f := Resize(round.size.cols, round.size.rows);
    ConnectionStarts(escape, [], redraw, round);
    ChunkingIndependence(early);
    hide Client.Connection, Flatten, Feed, Drain, Encoding;
    FirstSoFar(f, EncodeAll(sent[1..]), Flatten(early));
  }
}
