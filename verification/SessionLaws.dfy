/** What holds of a session over every admissible script: PTY output, lifetime, the attached flag. */
module SessionLaws {
  import opened Wrappers
  import opened Sequences
  import opened Utf8
  import opened Protocol
  import opened Server

  // ----- PTY output -----

  /** The bytes of the Data frames sent, in sending order, whoever they went to. */
  function DataSent(sent: seq<Send>): seq<byte> {
    if sent == [] then []
    else
      var n := |sent| - 1;
      DataSent(sent[..n]) + if sent[n].frame.Data? then sent[n].frame.bytes else []
  }

  /** The frames sent to one client. */
  function SentTo(client: Conn, sent: seq<Send>): seq<Frame> {
    if sent == [] then []
    else
      var n := |sent| - 1;
      SentTo(client, sent[..n]) + if sent[n].to == client then [sent[n].frame] else []
  }

  /** The bytes read from the PTY. */
  function BytesRead(script: seq<Event>): seq<byte> {
    if script == [] then []
    else
      var n := |script| - 1;
      BytesRead(script[..n]) + if script[n].PtyOutput? then script[n].bytes else []
  }

  function ClientOf(s: Session): Option<Conn> {
    match s.phase
    case ReadEnv(c) => Some(c)
    case Relay(c) => Some(c)
    case _ => None
  }

  /** A turn sends at most one frame, always to the client it found current. */
  lemma StepSends(s: Session, e: Event)
    requires Enabled(s, e)
    ensures
      var (next, sent) := Step(s, e);
      && (sent == [] || (s.phase.Relay? && exists f :: sent == [Send(s.phase.client, f)]))
      && (sent != [] ==>
            match sent[0].frame
            case Data(bytes) => e == PtyOutput(bytes, e.sent) && (next.phase == s.phase || next.phase.Ended?)
            case Pong => next.phase == s.phase
            case Detached => e.Recv?
            case Exit(_) => next.phase.Ended?
            case _ => false)
      && (e.PtyOutput? ==> sent != [] && sent[0].frame.Data?)
      && (ClientOf(next) == None || ClientOf(next) == ClientOf(s) || e == Recv(ClientOf(next).value))
      && (e.Recv? ==> ClientOf(next) == Some(e.client))
      && (next.phase.ReadEnv? ==> e.Recv?)
  {
  }

  lemma AppendSent(sent: seq<Send>, now: seq<Send>)
    requires |now| <= 1
    ensures DataSent(sent + now) == DataSent(sent) + if now != [] && now[0].frame.Data? then now[0].frame.bytes else []
    ensures forall c :: (SentTo(c, sent + now)
      == SentTo(c, sent) + if now != [] && now[0].to == c then [now[0].frame] else [])
  {
    if now == [] {
      assert sent + now == sent;
    } else {
      assert (sent + now)[..|sent|] == sent;
    }
  }

  /** Nothing read from the PTY is lost, repeated or reordered across any disconnects and takeovers. */
  lemma {:induction false} PtyConservation(script: seq<Event>)
    requires Admissible(script)
    ensures DataSent(Run(script).1) == BytesRead(script)
    decreases |script|
  {
    if script == [] {
    } else {
      var n := |script| - 1;
      PtyConservation(script[..n]);
      var (s, sent) := Run(script[..n]);
      StepSends(s, script[n]);
      AppendSent(sent, Step(s, script[n]).1);
    }
  }

  /** The clients taken off the channel, in order. */
  function Clients(script: seq<Event>): seq<Conn> {
    if script == [] then []
    else
      var n := |script| - 1;
      Clients(script[..n]) + if script[n].Recv? then [script[n].client] else []
  }

  predicate NoRepeats(clients: seq<Conn>) {
    forall i, j :: 0 <= i < j < |clients| ==> clients[i] != clients[j]
  }

  // ----- What one client hears -----

  /**
   The exit code an event is the end of the shell with. A code polled after the loop is the shell's own and wins;
   else the end of the PTY counts as 0, and a shell that was waited for and has no code as 1.
   */
  function EndCode(e: Event): Option<i32> {
    match e
    case PtyEnd(Some(Some(k))) => Some(k)
    case PtyEnd(_) => Some(0)
    case ShellExit(Some(_), Some(Some(k))) => Some(k)
    case ShellExit(Some(Some(k)), _) => Some(k)
    case ShellExit(Some(None), _) => Some(1)
    case _ => None
  }

  /** What an event makes the client hear that is served when it happens; no state is looked at. */
  function Heard(e: Event): seq<Frame> {
    match e
    case PtyOutput(bytes, _) => [Data(bytes)]
    case ClientFrame(frame, _, _) => if frame.Ping? then [Pong] else []
    case Recv(_) => [Detached]
    case _ =>
      match EndCode(e)
      case Some(k) => [Exit(k)]
      case None => []
  }

  function HeardAll(script: seq<Event>): seq<Frame> {
    if script == [] then []
    else
      var n := |script| - 1;
      HeardAll(script[..n]) + Heard(script[n])
  }

  lemma HeardOne(before: seq<Frame>, e: Event)
    ensures DataBytes(before + Heard(e)) == DataBytes(before) + if e.PtyOutput? then e.bytes else []
  {
    if Heard(e) == [] {
      assert before + [] == before;
    } else {
      DataBytesNext(before, Heard(e)[0]);
    }
    assert DataBytes(before) + [] == DataBytes(before);
    hide DataBytes;
  }

  lemma {:induction false} HeardData(script: seq<Event>)
    ensures DataBytes(HeardAll(script)) == BytesRead(script)
    decreases |script|
  {
    if script == [] {
    } else {
      var n := |script| - 1;
      HeardData(script[..n]);
      HeardOne(HeardAll(script[..n]), script[n]);
      hide Heard, DataBytes;
    }
  }

  /** A turn sends just what it makes the current client hear. */
  lemma StepSaid(s: Session, e: Event)
    requires Enabled(s, e)
    ensures match ClientOf(s)
            case None => Step(s, e).1 == []
            case Some(client) => Step(s, e).1 == if Heard(e) == [] then [] else [Send(client, Heard(e)[0])]
    ensures |Heard(e)| <= 1
  {
  }

  lemma StepHeard(s: Session, e: Event, client: Conn, sent: seq<Send>)
    requires Enabled(s, e)
    ensures SentTo(client, sent + Step(s, e).1)
         == SentTo(client, sent) + if ClientOf(s) == Some(client) then Heard(e) else []
  {
    hide SentTo, Step, Enabled, Heard, ClientOf;
    StepSaid(s, e);
    AppendSent(sent, Step(s, e).1);
    assert SentTo(client, sent) + [] == SentTo(client, sent);
  }

  predicate ServesAt(script: seq<Event>, client: Conn, i: nat) {
    i <= |script| && Admissible(script[..i]) && ClientOf(Run(script[..i]).0) == Some(client)
  }

  predicate Stretch(script: seq<Event>, client: Conn, a: nat, b: nat) {
    && a <= b <= |script|
    && (forall i :: a <= i < b ==> ServesAt(script, client, i))
    && (ServesAt(script, client, b) ==> b == |script|)
    && (ServesAt(script, client, |script|) ==> b == |script|)
    && (if client in Clients(script) then 0 < a && script[a - 1] == Recv(client)
        else a == b && !ServesAt(script, client, |script|))
  }

  /**
   The stretch `[a, b)` of the session during which `client` was served, from the turn that took it off the
   channel to the turn that ended its service: it was sent what those events make heard, and nothing else.
   The stretch is empty for a client that never came.
   */
  predicate Served(script: seq<Event>, client: Conn, a: nat, b: nat)
    requires Admissible(script)
  {
    Stretch(script, client, a, b) && SentTo(client, Run(script).1) == HeardAll(script[a..b])
  }

  lemma ClientsPrefix(script: seq<Event>)
    requires script != [] && NoRepeats(Clients(script))
    ensures var n := |script| - 1;
            && NoRepeats(Clients(script[..n]))
            && (script[n].Recv? ==> script[n].client !in Clients(script[..n]))
            && (forall c :: c in Clients(script) <==>
                  c in Clients(script[..n]) || (script[n].Recv? && c == script[n].client))
  {
    var n := |script| - 1;
    assert forall i :: 0 <= i < |Clients(script[..n])| ==> Clients(script)[i] == Clients(script[..n])[i];
  }

  lemma TakenLast(script: seq<Event>, client: Conn)
    requires script != [] && NoRepeats(Clients(script))
    ensures var n := |script| - 1;
            && NoRepeats(Clients(script[..n]))
            && (client in Clients(script) <==> client in Clients(script[..n]) || script[n] == Recv(client))
            && (script[n] == Recv(client) ==> client !in Clients(script[..n]))
  {
    ClientsPrefix(script);
    hide Clients, NoRepeats;
  }

  lemma ServesMore(before: seq<Event>, script: seq<Event>, client: Conn, a: nat)
    requires |script| == |before| + 1 && ServesAt(script, client, |before|)
    requires forall i :: 0 <= i < |script| ==> ServesAt(before, client, i) == ServesAt(script, client, i)
    requires forall i :: a <= i < |before| ==> ServesAt(before, client, i)
    ensures forall i :: a <= i < |script| ==> ServesAt(script, client, i)
  {
    hide ServesAt;
    forall i | a <= i < |script| ensures ServesAt(script, client, i) {
      assert ServesAt(before, client, i) == ServesAt(script, client, i);
    }
  }

  lemma StretchOpen(script: seq<Event>, client: Conn, a: nat)
    requires script != [] && Stretch(script[..|script| - 1], client, a, |script| - 1)
    requires forall i ::
      0 <= i < |script| ==> ServesAt(script[..|script| - 1], client, i) == ServesAt(script, client, i)
    requires ServesAt(script, client, |script| - 1) && client in Clients(script)
    requires client in Clients(script[..|script| - 1])
    ensures Stretch(script, client, a, |script|)
  {
    hide Clients, ServesAt;
    var n := |script| - 1;
    assert script[..n][a - 1] == script[a - 1];
    ServesMore(script[..n], script, client, a);
  }

  lemma StretchTaken(script: seq<Event>, client: Conn)
    requires script != [] && script[|script| - 1] == Recv(client) && client in Clients(script)
    ensures Stretch(script, client, |script|, |script|)
  {
    hide Clients, ServesAt;
  }

  lemma StretchClosed(script: seq<Event>, client: Conn, a: nat, b: nat)
    requires script != [] && Stretch(script[..|script| - 1], client, a, b)
    requires forall i ::
      0 <= i < |script| ==> ServesAt(script[..|script| - 1], client, i) == ServesAt(script, client, i)
    requires !ServesAt(script, client, |script| - 1) && !ServesAt(script, client, |script|)
    requires client in Clients(script) <==> client in Clients(script[..|script| - 1])
    ensures Stretch(script, client, a, b)
  {
    hide Clients, ServesAt;
    var n := |script| - 1;
    var before := script[..n];
    forall i | a <= i < b ensures ServesAt(script, client, i) {
      assert ServesAt(before, client, i) == ServesAt(script, client, i);
    }
    if b < n {
      assert ServesAt(before, client, b) == ServesAt(script, client, b);
    }
    if client in Clients(script) {
      assert before[a - 1] == script[a - 1];
    }
  }

  /** A session goes on to serve only whom it served before or has just taken off the channel. */
  lemma ServiceMoves(s: Session, e: Event, client: Conn)
    requires Enabled(s, e)
    ensures ClientOf(Step(s, e).0) == Some(client) ==> ClientOf(s) == Some(client) || e == Recv(client)
    ensures e == Recv(client) ==> ClientOf(Step(s, e).0) == Some(client)
  {
    StepSends(s, e);
  }

  lemma ServesEarlier(script: seq<Event>, client: Conn)
    requires script != []
    ensures forall i :: 0 <= i < |script| ==> ServesAt(script[..|script| - 1], client, i) == ServesAt(script, client, i)
  {
    forall i | 0 <= i < |script|
      ensures ServesAt(script[..|script| - 1], client, i) == ServesAt(script, client, i)
    {
      assert script[..|script| - 1][..i] == script[..i];
    }
  }

  lemma ServesNow(script: seq<Event>, client: Conn)
    requires Admissible(script)
    ensures ServesAt(script, client, |script|) <==> ClientOf(Run(script).0) == Some(client)
  {
    assert script[..|script|] == script;
  }

  lemma StretchNext(script: seq<Event>, client: Conn, from: nat, to: nat) returns (a: nat, b: nat)
    requires script != [] && Admissible(script) && NoRepeats(Clients(script))
    requires Stretch(script[..|script| - 1], client, from, to)
    ensures Stretch(script, client, a, b)
    ensures if ClientOf(Run(script[..|script| - 1]).0) == Some(client)
            then to == |script| - 1 && a == from && b == |script|
            else (a == from && b == to) || (a == b && from == to)
  {
    var n := |script| - 1;
    var s := Run(script[..n]).0;
    AdmissiblePrefix(script, n);
    assert script[..n + 1] == script;
    TakenLast(script, client);
    ServesEarlier(script, client);
    ServesNow(script, client);
    ServesNow(script[..n], client);
    ServiceMoves(s, script[n], client);
    hide Run, Clients, NoRepeats, Admissible, ServesAt, Step, Enabled, ClientOf;
    if ClientOf(s) == Some(client) {
      a, b := from, n + 1;
      StretchOpen(script, client, a);
    } else if script[n] == Recv(client) {
      a, b := n + 1, n + 1;
      StretchTaken(script, client);
    } else {
      a, b := from, to;
      StretchClosed(script, client, a, b);
    }
  }

  lemma HeardAppend(stretch: seq<Event>, e: Event)
    ensures HeardAll(stretch + [e]) == HeardAll(stretch) + Heard(e)
  {
    hide Heard;
    assert (stretch + [e])[..|stretch|] == stretch;
  }

  lemma HearsMore(stretch: seq<Event>, e: Event, client: Conn, s: Session, sent: seq<Send>)
    requires Enabled(s, e) && SentTo(client, sent) == HeardAll(stretch)
    ensures SentTo(client, sent + Step(s, e).1)
         == if ClientOf(s) == Some(client) then HeardAll(stretch + [e]) else HeardAll(stretch)
  {
    hide Step, Enabled, SentTo, Heard, HeardAll, ClientOf;
    StepHeard(s, e, client, sent);
    HeardAppend(stretch, e);
    assert HeardAll(stretch) + [] == HeardAll(stretch);
  }

  lemma SliceGrows<T>(s: seq<T>, a: nat, b: nat)
    requires a <= b < |s|
    ensures s[..|s| - 1][a..b] == s[a..b]
    ensures b == |s| - 1 ==> s[a..b] + [s[b]] == s[a..|s|]
  {
  }

  lemma RunLast(script: seq<Event>)
    requires script != [] && Admissible(script)
    ensures var n := |script| - 1;
            && Admissible(script[..n]) && Enabled(Run(script[..n]).0, script[n])
            && Run(script).1 == Run(script[..n]).1 + Step(Run(script[..n]).0, script[n]).1
  {
  }

  lemma ServedNext(script: seq<Event>, client: Conn, from: nat, to: nat) returns (a: nat, b: nat)
    requires script != [] && Admissible(script) && NoRepeats(Clients(script))
    requires Served(script[..|script| - 1], client, from, to)
    ensures Served(script, client, a, b)
  {
    hide Run, Clients, NoRepeats, Admissible, SentTo, HeardAll, Step, Enabled, ClientOf;
    var n := |script| - 1;
    RunLast(script);
    a, b := StretchNext(script, client, from, to);
    hide Stretch;
    HearsMore(script[..n][from..to], script[n], client, Run(script[..n]).0, Run(script[..n]).1);
    SliceGrows(script, from, to);
    assert a == b ==> script[a..b] == [];
    assert from == to ==> script[from..to] == [];
  }

  /** A client hears the events of one stretch, in order, each in the way `Heard` says. */
  lemma {:induction false} ClientHears(script: seq<Event>, client: Conn) returns (a: nat, b: nat)
    requires Admissible(script) && NoRepeats(Clients(script))
    ensures Served(script, client, a, b)
    decreases |script|
  {
    if script == [] {
      a, b := 0, 0;
    } else {
      ClientsPrefix(script);
      hide Served;
      a, b := ClientHears(script[..|script| - 1], client);
      a, b := ServedNext(script, client, a, b);
    }
  }

  // ----- The exit code -----

  predicate LastWordExit(frames: seq<Frame>, k: i32) {
    frames != [] && frames[|frames| - 1] == Exit(k)
  }

  /** The script ends with the end of the shell, by code `k`, while `client` is served. */
  predicate ExitsServing(script: seq<Event>, client: Conn, k: i32)
    requires Admissible(script)
  {
    && script != [] && EndCode(script[|script| - 1]) == Some(k)
    && ClientOf(Run(script[..|script| - 1]).0) == Some(client)
  }

  lemma EndCodeEnds(s: Session, e: Event)
    requires Enabled(s, e) && EndCode(e).Some?
    ensures Step(s, e).0.phase.Ended?
  {
  }

  lemma ExitIsEnd(script: seq<Event>, client: Conn, k: i32)
    requires Admissible(script) && ExitsServing(script, client, k)
    ensures Run(script).0.phase.Ended?
  {
    EndCodeEnds(Run(script[..|script| - 1]).0, script[|script| - 1]);
    hide Step, Enabled, EndCode;
  }

  lemma LastWord(s: Session, e: Event, client: Conn, sent: seq<Send>, k: i32)
    requires Enabled(s, e)
    ensures LastWordExit(SentTo(client, sent + Step(s, e).1), k) <==>
      if ClientOf(s) == Some(client) && Heard(e) != [] then EndCode(e) == Some(k)
      else LastWordExit(SentTo(client, sent), k)
  {
    hide Step, Enabled, SentTo, ClientOf;
    StepHeard(s, e, client, sent);
    assert SentTo(client, sent) + [] == SentTo(client, sent);
  }

  /**
   A client is told an exit code exactly if it was served when the shell's end was noticed, and the code is the shell's
   as far as the session could know it. It is the last thing the client is told.
   */
  lemma {:induction false} ExitTold(script: seq<Event>, client: Conn, k: i32)
    requires Admissible(script)
    ensures LastWordExit(SentTo(client, Run(script).1), k) <==> ExitsServing(script, client, k)
    decreases |script|
  {
    if script == [] {
    } else {
      var n := |script| - 1;
      var (s, sent) := Run(script[..n]);
      ExitTold(script[..n], client, k);
      RunLast(script);
      LastWord(s, script[n], client, sent, k);
      if ExitsServing(script[..n], client, k) {
        ExitIsEnd(script[..n], client, k);
      }
      hide Run, Admissible, Step, SentTo;
    }
  }

  // ----- Taking turns -----

  /** What the given clients were shown, one after the other. */
  function Shown(clients: seq<Conn>, sent: seq<Send>): seq<byte> {
    if clients == [] then []
    else
      var n := |clients| - 1;
      Shown(clients[..n], sent) + DataBytes(SentTo(clients[n], sent))
  }

  lemma SentAppend(c: Conn, sent: seq<Send>, now: seq<Send>)
    requires |now| <= 1
    ensures DataBytes(SentTo(c, sent + now)) == DataBytes(SentTo(c, sent))
      + if now != [] && now[0].to == c && now[0].frame.Data? then now[0].frame.bytes else []
  {
    hide SentTo, DataBytes;
    AppendSent(sent, now);
    var before := SentTo(c, sent);
    assert before + [] == before && DataBytes(before) + [] == DataBytes(before);
    if now != [] {
      DataBytesNext(before, now[0].frame);
    }
  }

  /** A Data frame shows on its client's part, anything else nowhere. */
  lemma {:induction false} ShownAppend(clients: seq<Conn>, sent: seq<Send>, now: seq<Send>)
    requires |now| <= 1 && (now != [] && now[0].frame.Data? ==> now[0].to !in clients)
    ensures Shown(clients, sent + now) == Shown(clients, sent)
    decreases |clients|
  {
    if clients == [] {
    } else {
      var n := |clients| - 1;
      ShownAppend(clients[..n], sent, now);
      SentAppend(clients[n], sent, now);
      hide SentTo, DataBytes;
    }
  }

  lemma ShownLast(clients: seq<Conn>, sent: seq<Send>, now: seq<Send>)
    requires clients != [] && NoRepeats(clients)
    requires |now| == 1 && now[0].to == clients[|clients| - 1] && now[0].frame.Data?
    ensures Shown(clients, sent + now) == Shown(clients, sent) + now[0].frame.bytes
  {
    var n := |clients| - 1;
    assert clients[n] !in clients[..n];
    hide SentTo, DataBytes, NoRepeats;
    ShownAppend(clients[..n], sent, now);
    SentAppend(clients[n], sent, now);
    Assoc(Shown(clients[..n], sent), DataBytes(SentTo(clients[n], sent)), now[0].frame.bytes);
  }

  /** The client served is the one taken last. */
  lemma {:induction false} ServesLast(script: seq<Event>)
    requires Admissible(script) && ClientOf(Run(script).0).Some?
    ensures Clients(script) != [] && Clients(script)[|Clients(script)| - 1] == ClientOf(Run(script).0).value
    decreases |script|
  {
    if script == [] {
    } else {
      var n := |script| - 1;
      StepSends(Run(script[..n]).0, script[n]);
      if !script[n].Recv? {
        ServesLast(script[..n]);
      }
      hide Step, Enabled;
    }
  }

  /** Who never came was sent nothing. */
  lemma Unserved(script: seq<Event>, client: Conn)
    requires Admissible(script) && NoRepeats(Clients(script)) && client !in Clients(script)
    ensures SentTo(client, Run(script).1) == []
  {
    var a, b := ClientHears(script, client);
    hide Run, SentTo, Clients, Admissible, ServesAt;
    assert script[a..b] == [];
  }

  lemma ShownNext(clients: seq<Conn>, s: Session, e: Event, sent: seq<Send>)
    requires Enabled(s, e) && NoRepeats(clients)
    requires ClientOf(s).Some? ==> clients != [] && clients[|clients| - 1] == ClientOf(s).value
    ensures Shown(clients, sent + Step(s, e).1)
         == Shown(clients, sent) + if e.PtyOutput? then e.bytes else []
  {
    StepSends(s, e);
    var now := Step(s, e).1;
    assert Shown(clients, sent) + [] == Shown(clients, sent);
    hide Step, Enabled, Shown, NoRepeats;
    if e.PtyOutput? {
      ShownLast(clients, sent, now);
    } else {
      ShownAppend(clients, sent, now);
    }
  }

  /** A client just taken has been shown nothing yet. */
  lemma TurnStarts(clients: seq<Conn>, client: Conn, s: Session, e: Event, sent: seq<Send>)
    requires Enabled(s, e) && e.Recv? && SentTo(client, sent) == []
    ensures var after := sent + Step(s, e).1; Shown(clients + [client], after) == Shown(clients, after)
  {
    StepSends(s, e);
    var now := Step(s, e).1;
    var all := clients + [client];
    assert all[..|clients|] == clients && DataBytes([]) == [];
    hide Step, Enabled, SentTo, DataBytes;
    SentAppend(client, sent, now);
    assert Shown(clients, sent + now) + [] == Shown(clients, sent + now);
  }

  /**
   Taking turns: what the PTY gave is what its clients were shown, one after the other in the order they were
   taken. Each one picks up exactly where the one before left off.
   */
  lemma {:induction false} OutputContinues(script: seq<Event>)
    requires Admissible(script) && NoRepeats(Clients(script))
    ensures BytesRead(script) == Shown(Clients(script), Run(script).1)
    decreases |script|
  {
    if script == [] {
    } else {
      var n := |script| - 1;
      var before, clients := script[..n], Clients(script[..n]);
      ClientsPrefix(script);
      OutputContinues(before);
      RunLast(script);
      if ClientOf(Run(before).0).Some? {
        ServesLast(before);
      }
      ShownNext(clients, Run(before).0, script[n], Run(before).1);
      if script[n].Recv? {
        Unserved(before, script[n].client);
        TurnStarts(clients, script[n].client, Run(before).0, script[n], Run(before).1);
      }
      hide Run, Admissible, Step, Enabled, Shown, NoRepeats;
      assert script[n].Recv? || Clients(script) == clients + [] == clients;
      assert BytesRead(before) + [] == BytesRead(before);
    }
  }

  // ----- PTY input -----

  /** The bytes a client's Data frame brings, and those of them that one write puts into the PTY. */
  function InputOf(e: Event): seq<byte> {
    if e.ClientFrame? && e.frame.Data? then e.frame.bytes else []
  }

  function WrittenOf(e: Event): (bytes: seq<byte>)
    ensures bytes <= InputOf(e)
  {
    if e.ClientFrame? && e.frame.Data? && e.write.Written? && WriteFits(e.frame, e.write)
    then e.frame.bytes[..e.write.count]
    else []
  }

  function InputAll(script: seq<Event>): seq<byte> {
    if script == [] then [] else InputAll(script[..|script| - 1]) + InputOf(script[|script| - 1])
  }

  function WrittenAll(script: seq<Event>): seq<byte> {
    if script == [] then [] else WrittenAll(script[..|script| - 1]) + WrittenOf(script[|script| - 1])
  }

  /** `a` is `b` with some bytes left out. */
  predicate Thinned(a: seq<byte>, b: seq<byte>)
    decreases |b|
  {
    a == [] ||
    (b != [] &&
     (Thinned(a, b[..|b| - 1]) || (a[|a| - 1] == b[|b| - 1] && Thinned(a[..|a| - 1], b[..|b| - 1]))))
  }

  lemma {:induction false} ThinnedMore(a: seq<byte>, b: seq<byte>, c: seq<byte>)
    requires Thinned(a, b)
    ensures Thinned(a, b + c)
    decreases |c|
  {
    if c == [] {
      assert b + c == b;
    } else {
      ThinnedMore(a, b, c[..|c| - 1]);
      assert (b + c)[..|b + c| - 1] == b + c[..|c| - 1];
    }
  }

  /** A prefix of a further piece comes after what is left of the pieces before. */
  lemma {:induction false} ThinnedPiece(a: seq<byte>, b: seq<byte>, p: seq<byte>, q: seq<byte>)
    requires Thinned(a, b) && p <= q
    ensures Thinned(a + p, b + q)
    decreases |p|
  {
    if p == [] {
      assert a + p == a;
      ThinnedMore(a, b, q);
    } else {
      var m := |p| - 1;
      ThinnedPiece(a, b, p[..m], q[..m]);
      assert (a + p)[..|a + p| - 1] == a + p[..m] && (b + q[..m + 1])[..|b| + m] == b + q[..m];
      assert Thinned(a + p, b + q[..m + 1]);
      ThinnedMore(a + p, b + q[..m + 1], q[m + 1..]);
      assert (b + q[..m + 1]) + q[m + 1..] == b + q;
    }
  }

  lemma {:induction false} ThinnedWithin(a: seq<byte>, before: seq<byte>, b: seq<byte>)
    requires Thinned(a, b)
    ensures Thinned(a, before + b)
    decreases |b|
  {
    if a == [] {
    } else {
      var m := |b| - 1;
      assert (before + b)[..|before + b| - 1] == before + b[..m];
      if Thinned(a, b[..m]) {
        ThinnedWithin(a, before, b[..m]);
      } else {
        ThinnedWithin(a[..|a| - 1], before, b[..m]);
      }
    }
  }

  /** The whole of a Data frame was written in one go. */
  predicate WroteAll(e: Event) {
    InputOf(e) != [] ==> e.write == Written(|e.frame.bytes|)
  }

  lemma WrittenWhole(e: Event)
    ensures WrittenOf(e) == InputOf(e) <==> WroteAll(e)
  {
    assert e.ClientFrame? && e.frame.Data? ==> e.frame.bytes[..|e.frame.bytes|] == e.frame.bytes;
  }

  lemma EqualPieces(a: seq<byte>, b: seq<byte>, p: seq<byte>, q: seq<byte>)
    requires |a| <= |b| && p <= q
    ensures a + p == b + q <==> a == b && p == q
  {
    if a + p == b + q {
      assert |a| == |b| && |p| == |q|;
      assert (a + p)[..|a|] == a && (b + q)[..|b|] == b;
    }
  }

  predicate WroteEverything(script: seq<Event>) {
    forall i :: 0 <= i < |script| ==> WroteAll(script[i])
  }

  lemma WroteAllLast(script: seq<Event>)
    requires script != []
    ensures WroteEverything(script) <==>
      WroteEverything(script[..|script| - 1]) && WroteAll(script[|script| - 1])
  {
    hide WroteAll;
    var before := script[..|script| - 1];
    assert forall i :: 0 <= i < |before| ==> before[i] == script[i];
  }

  /**
   What reaches the PTY is what its clients' Data frames brought, of each one a prefix in order: nothing is made up,
   repeated or reordered. It is all of it exactly if every write took all it was given.
   */
  lemma {:induction false} InputThinned(script: seq<Event>)
    ensures Thinned(WrittenAll(script), InputAll(script)) && |WrittenAll(script)| <= |InputAll(script)|
    ensures WrittenAll(script) == InputAll(script) <==> WroteEverything(script)
    decreases |script|
  {
    if script == [] {
    } else {
      var n := |script| - 1;
      var e := script[n];
      hide WroteAll, WroteEverything, InputOf, WrittenOf, Thinned;
      InputThinned(script[..n]);
      WrittenWhole(e);
      WroteAllLast(script);
      ThinnedPiece(WrittenAll(script[..n]), InputAll(script[..n]), WrittenOf(e), InputOf(e));
      EqualPieces(WrittenAll(script[..n]), InputAll(script[..n]), WrittenOf(e), InputOf(e));
    }
  }

  // ----- Lifetime -----

  /** The shell is running from the moment the metadata is set; `attached` tells whether a client is served. */
  predicate Consistent(s: Session) {
    match s.phase
    case AwaitFirst => s.meta.None? && s.env.None?
    case ReadEnv(_) => s.meta.None? && s.env.None?
    case Relay(_) => s.meta.Some? && s.env.Some? && s.meta.value.attached
    case AwaitClient => s.meta.Some? && s.env.Some? && !s.meta.value.attached
    case Ended(_) => s.meta.Some? <==> s.env.Some?
  }

  function Spawns(script: seq<Event>): (n: nat) {
    if script == [] then 0
    else
      var n := |script| - 1;
      Spawns(script[..n]) + if script[n].FirstFrame? && script[n].spawned.Some? then 1 else 0
  }

  /** One shell per session at most, whatever its clients do; the attached flag is right at every await. */
  lemma {:induction false} OneShell(script: seq<Event>)
    requires Admissible(script)
    ensures Consistent(Run(script).0)
    ensures Spawns(script) == if Run(script).0.env.Some? then 1 else 0
    decreases |script|
  {
    if script == [] {
    } else {
      OneShell(script[..|script| - 1]);
    }
  }

  lemma {:induction false} BeforeShell(script: seq<Event>)
    requires Admissible(script)
    ensures match Run(script).0.phase
            case AwaitFirst => script == []
            case ReadEnv(_) => |script| == 1 && script[0].Recv?
            case Ended(_) => script != []
            case _ => |script| >= 2
    decreases |script|
  {
    if script == [] {
    } else {
      BeforeShell(script[..|script| - 1]);
    }
  }

  predicate EnvFirst(first: Option<Frame>) {
    first.Some? && first.value.Env?
  }

  /** The shell's environment is what the very first client sent in an Env frame, and never changes. */
  lemma {:induction false} FirstEnvOnly(script: seq<Event>)
    requires Admissible(script) && Run(script).0.env.Some?
    ensures |script| >= 2 && script[0].Recv? && script[1].FirstFrame?
    ensures Run(script).0.env == if EnvFirst(script[1].first) then Some(script[1].first.value.vars) else Some([])
    decreases |script|
  {
    var n := |script| - 1;
    OneShell(script[..n]);
    if Run(script[..n]).0.env.Some? {
      FirstEnvOnly(script[..n]);
    } else {
      BeforeShell(script[..n]);
    }
  }

  /** The clock at the last Ping, or 0 if there was none. */
  function LastBeat(script: seq<Event>): u64 {
    if script == [] then 0
    else
      var n := |script| - 1;
      if script[n].ClientFrame? && script[n].frame.Ping? then script[n].now else LastBeat(script[..n])
  }

  /** What the daemon can read of a session: the spawn's report, the last heartbeat, `attached` as in `Consistent`. */
  lemma {:induction false} MetadataExact(script: seq<Event>)
    requires Admissible(script) && Run(script).0.meta.Some?
    ensures |script| >= 2 && script[1].FirstFrame? && script[1].spawned.Some?
    ensures
      var spawned, meta := script[1].spawned.value, Run(script).0.meta.value;
      meta == Metadata(spawned.ptyPath, spawned.shellPid, spawned.createdAt, meta.attached, LastBeat(script))
    decreases |script|
  {
    var n := |script| - 1;
    var s := Run(script[..n]).0;
    if s.meta.Some? {
      MetadataExact(script[..n]);
    } else {
      OneShell(script[..n]);
      BeforeShell(script[..n]);
      assert LastBeat(script[..1]) == 0 && LastBeat([]) == 0;
    }
  }

  /**
   Who is served, told by the events alone: whoever was taken last, until it says Exit or its stream ends, or
   the session is over.
   */
  function Current(script: seq<Event>): Option<Conn> {
    if script == [] then None
    else
      var n := |script| - 1;
      match script[n]
      case Recv(c) => Some(c)
      case ClientFrame(Exit(_), _, _) => None
      case ClientFrame(Data(_), WriteFailed, _) => None
      case ClientClosed => None
      case ClientFailed => None
      case FirstFrame(_, None) => None
      case PtyOutput(_, false) => None
      case PtyEnd(_) => None
      case PtyFailed => None
      case ShellExit(_, _) => None
      case SetupFailed => None
      case Abort => None
      case _ => Current(script[..n])
  }

  lemma {:induction false} ServedNow(script: seq<Event>)
    requires Admissible(script)
    ensures ClientOf(Run(script).0) == Current(script)
    decreases |script|
  {
    if script == [] {
    } else {
      ServedNow(script[..|script| - 1]);
    }
  }

  /**
   What a session can meet, in terms of what happened: it always listens to its channel and to its shell once it has
   one, except that it reads one frame, or waits for it, right after its first client. It looks at the client's bytes
   and at the PTY only while someone is served.
   */
  predicate CanHappen(script: seq<Event>, e: Event) {
    match e
    case Abort => true
    case SetupFailed => script == []
    case FirstFrame(_, _) => |script| == 1
    case Recv(_) => |script| != 1
    case RecvClosed => |script| != 1
    case ShellExit(_, _) => |script| >= 2
    case PtyOutput(bytes, _) => |script| >= 2 && Current(script).Some? && 1 <= |bytes| <= 4096
    case ClientFrame(Data(bytes), Written(count), _) => |script| >= 2 && Current(script).Some? && count <= |bytes|
    case _ => |script| >= 2 && Current(script).Some?
  }

  lemma AdmissibleNext(script: seq<Event>, e: Event)
    requires Admissible(script)
    ensures Admissible(script + [e]) <==> Enabled(Run(script).0, e)
  {
    assert (script + [e])[..|script|] == script;
  }

  /** A session that is not over meets exactly these events; one that is over meets none. */
  lemma WhatCanHappen(script: seq<Event>, e: Event)
    requires Admissible(script)
    ensures Admissible(script + [e]) <==> !Run(script).0.phase.Ended? && CanHappen(script, e)
  {
    hide Run, Admissible, Current;
    AdmissibleNext(script, e);
    BeforeShell(script);
    ServedNow(script);
  }

  /** The events that end a session, and why. Client departures, takeovers and control frames are not among them. */
  function Fatal(phase: Phase, e: Event): Option<EndReason> {
    match e
    case Abort => Some(Aborted)
    case SetupFailed => Some(SetupError)
    case FirstFrame(_, spawned) => if spawned.None? then Some(SetupError) else None
    case RecvClosed => if phase.Relay? then None else Some(ChannelClosed)
    case ClientFrame(frame, write, _) => if frame.Data? && write.WriteFailed? then Some(IoError) else None
    case ClientFailed => Some(BadFrame)
    case PtyOutput(_, sent) => if sent then None else Some(IoError)
    case PtyEnd(_) => Some(ShellGone)
    case PtyFailed => Some(IoError)
    case ShellExit(status, _) => if status.Some? then Some(ShellGone) else Some(IoError)
    case _ => None
  }

  lemma FatalStep(s: Session, e: Event)
    requires Enabled(s, e)
    ensures var next := Step(s, e).0;
            Fatal(s.phase, e) == if next.phase.Ended? then Some(next.phase.why) else None
  {
  }

  /** A session is over, and for which reason, exactly when its last event was fatal; no earlier one ever is. */
  lemma Lifetime(script: seq<Event>, i: nat, why: EndReason)
    requires Admissible(script) && i < |script|
    ensures Admissible(script[..i])
    ensures Fatal(Run(script[..i]).0.phase, script[i]) == Some(why)
       <==> i == |script| - 1 && Run(script).0.phase == Ended(why)
  {
    AdmissiblePrefix(script, i);
    FatalStep(Run(script[..i]).0, script[i]);
    hide Fatal, Step, Enabled, Run, Admissible;
    if i == |script| - 1 {
      assert script[..i + 1] == script;
    } else if Run(script[..i + 1]).0.phase.Ended? {
      EndedIsLast(script, i + 1);
    }
  }
}
