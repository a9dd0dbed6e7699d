/**
 What losing its client does to a session. The client's bytes stop somewhere; whether the shell lives on
 depends on where, and on whether anything was being sent to the client before its end was noticed.
 */
module Survival {
  import opened Wrappers
  import opened Utf8
  import opened Protocol
  import opened RoundTrip
  import opened Streaming
  import opened Server
  import opened System
  import opened SystemRuns

  // ----- The end of a stream -----

  /** What the framed stream hands over, one at a time. */
  datatype Item = Got(frame: Frame) | Bad | Over

  /** Bytes left of an unfinished frame are an error at the end of the stream, as a bad frame is before it. */
  predicate EndsClean(end: End) {
    end == Pending([])
  }

  /** How the relay notices the end of its client's bytes. */
  function StopOf(end: End): Event {
    if EndsClean(end) then ClientClosed else ClientFailed
  }

  /** The stream of a client whose bytes stop: its frames, an error if it does not end clean, then its end repeated. */
  function ItemAt(r: Received, i: nat): Item {
    if i < |r.frames| then Got(r.frames[i])
    else if !EndsClean(r.end) && i == |r.frames| then Bad
    else Over
  }

  /** These items come next in the stream when `k` have been taken. */
  predicate ComeNext(r: Received, k: nat, items: seq<Item>) {
    forall j :: 0 <= j < |items| ==> items[j] == ItemAt(r, k + j)
  }

  /** The items an event takes off the current client's stream. */
  function Takes(e: Event): (items: seq<Item>)
    ensures |items| <= 1
  {
    match e
    case ClientFrame(frame, _, _) => [Got(frame)]
    case ClientFailed => [Bad]
    case ClientClosed => [Over]
    case _ => []
  }

  function TakesAll(events: seq<Event>): seq<Item> {
    if events == [] then []
    else TakesAll(events[..|events| - 1]) + Takes(events[|events| - 1])
  }

  // ----- A session that goes on for as long as it can -----

  /** Turns of a session, for as long as it takes part in them. */
  function Proceed(s: Session, events: seq<Event>): Session {
    if events == [] then s
    else
      var n := |events| - 1;
      var before := Proceed(s, events[..n]);
      if Enabled(before, events[n]) then Step(before, events[n]).0 else before
  }

  /** Those of the turns that the session takes part in. */
  function LivePart(s: Session, events: seq<Event>): seq<Event> {
    if events == [] then []
    else
      var n := |events| - 1;
      LivePart(s, events[..n]) + if Enabled(Proceed(s, events[..n]), events[n]) then [events[n]] else []
  }

  /** It is the session machine at work. */
  lemma {:induction false} ProceedRuns(script: seq<Event>, events: seq<Event>)
    requires Admissible(script)
    ensures var all := script + LivePart(Run(script).0, events);
            Admissible(all) && Run(all).0 == Proceed(Run(script).0, events)
    decreases |events|
  {
    var s := Run(script).0;
    if events == [] {
      assert script + [] == script;
    } else {
      var n := |events| - 1;
      var live := LivePart(s, events[..n]);
      ProceedRuns(script, events[..n]);
      hide Step, Enabled, Run, Admissible;
      if Enabled(Proceed(s, events[..n]), events[n]) {
        RunNext(script + live, events[n]);
        assert script + (live + [events[n]]) == (script + live) + [events[n]];
      } else {
        assert live + [] == live;
      }
    }
  }

  /** What can happen while a client is served that neither leaves, nor is displaced, nor sees the shell end. */
  predicate Meanwhile(e: Event) {
    || (e.ClientFrame? && !e.frame.Exit? && WriteFits(e.frame, e.write))
    || (e.PtyOutput? && 0 < |e.bytes| <= READ_BUFFER)
    || e.PtyNotReady? || e.RecvClosed?
  }

  /** A chunk that could not be sent to the client, or input that could not be written to the PTY. */
  predicate Failing(e: Event) {
    (e.PtyOutput? && !e.sent) || (e.ClientFrame? && e.frame.Data? && e.write.WriteFailed?)
  }

  lemma MeanwhileStep(s: Session, e: Event)
    requires s.phase.Relay? && Meanwhile(e)
    ensures Enabled(s, e)
    ensures Step(s, e).0.env == s.env
    ensures Step(s, e).0.phase == if Failing(e) then Ended(IoError) else s.phase
  {
  }

  lemma FailingLast(during: seq<Event>)
    requires during != []
    ensures var n := |during| - 1;
            (exists i :: 0 <= i < |during| && Failing(during[i]))
              <==> Failing(during[n]) || exists i :: 0 <= i < n && Failing(during[..n][i])
  {
    hide Failing;
    var n := |during| - 1;
    if i :| 0 <= i < |during| && Failing(during[i]) {
      assert i < n ==> Failing(during[..n][i]);
    }
  }

  lemma EndedDisabled(s: Session, e: Event)
    requires s.phase.Ended?
    ensures !Enabled(s, e)
  {
  }

  lemma {:induction false} MeanwhileProceeds(s: Session, during: seq<Event>)
    requires s.phase.Relay? && forall i :: 0 <= i < |during| ==> Meanwhile(during[i])
    ensures Proceed(s, during).env == s.env
    ensures Proceed(s, during).phase
         == if exists i :: 0 <= i < |during| && Failing(during[i]) then Ended(IoError) else s.phase
    decreases |during|
  {
    if during == [] {
    } else {
      var n := |during| - 1;
      MeanwhileProceeds(s, during[..n]);
      var before := Proceed(s, during[..n]);
      hide Meanwhile, Failing, Step, Enabled;
      FailingLast(during);
      if before.phase.Relay? {
        MeanwhileStep(before, during[n]);
      } else {
        EndedDisabled(before, during[n]);
      }
    }
  }

  lemma {:induction false} TakesGot(during: seq<Event>)
    requires forall i :: 0 <= i < |during| ==> Meanwhile(during[i])
    ensures forall i :: 0 <= i < |TakesAll(during)| ==> TakesAll(during)[i].Got?
    decreases |during|
  {
    if during == [] {
    } else {
      TakesGot(during[..|during| - 1]);
    }
  }

  /** The first thing that is not a frame, after `k` items were taken. */
  lemma FirstStop(r: Received, k: nat, taken: seq<Item>, last: Item)
    requires ComeNext(r, k, taken + [last])
    requires (forall i :: 0 <= i < |taken| ==> taken[i].Got?) && !last.Got?
    ensures last == if EndsClean(r.end) || k > |r.frames| then Over else Bad
  {
    var all, n := taken + [last], |taken|;
    assert all[n] == last == ItemAt(r, k + n);
    if n > 0 {
      assert all[n - 1] == taken[n - 1] == ItemAt(r, k + (n - 1));
    }
  }

  /** A clean end frees the session for the next client; an error ends it. */
  lemma StopStep(s: Session, stop: Event)
    requires s.phase.Relay? && (stop.ClientClosed? || stop.ClientFailed?)
    ensures Enabled(s, stop) && Step(s, stop).0.env == s.env
    ensures Step(s, stop).0.phase == if stop.ClientClosed? then AwaitClient else Ended(BadFrame)
  {
  }

  /** The client's bytes stop; `k` items of its stream were taken before `during`, and `stop` is noticed after it. */
  predicate Lost(chunks: seq<seq<byte>>, k: nat, during: seq<Event>, stop: Event) {
    && (forall i :: 0 <= i < |during| ==> Meanwhile(during[i]))
    && (stop.ClientClosed? || stop.ClientFailed?)
    && ComeNext(Feed([], chunks), k, TakesAll(during) + Takes(stop))
  }

  /** Nothing failed, and the bytes stop between two frames, or their broken end was taken before. */
  predicate LostWell(chunks: seq<seq<byte>>, k: nat, during: seq<Event>) {
    && (forall i :: 0 <= i < |during| ==> !Failing(during[i]))
    && (EndsClean(Feed([], chunks).end) || k > |Feed([], chunks).frames|)
  }

  /**
   A session that loses its client, by an end noticed before any other client takes over. Its bytes, in any
   reads, stop; `k` items of its stream were taken before the relay (1 if the session's first client spoke, or
   was gone, in time). The shell lives on, waiting for the next client, exactly if nothing failed to be sent or
   written before the end was noticed, and the bytes stop between two frames, or the broken end was itself what
   was taken before the relay.
   */
  lemma LostClient(s: Session, chunks: seq<seq<byte>>, k: nat, during: seq<Event>, stop: Event)
    requires s.phase.Relay? && Lost(chunks, k, during, stop)
    ensures
      var after := Proceed(s, during + [stop]);
      && after.env == s.env && (after.phase == AwaitClient || after.phase.Ended?)
      && (after.phase == AwaitClient <==> LostWell(chunks, k, during))
  {
    hide ItemAt, ComeNext, Feed, TakesAll, Meanwhile, Failing, Step, Enabled, EndsClean;
    MeanwhileProceeds(s, during);
    TakesGot(during);
    FirstStop(Feed([], chunks), k, TakesAll(during), Takes(stop)[0]);
    assert (during + [stop])[..|during|] == during;
    var before := Proceed(s, during);
    if before.phase.Relay? {
      StopStep(before, stop);
    } else {
      EndedDisabled(before, stop);
    }
  }

  /** The relay notices the end just as the stream stands, unless that was taken before: then only the end is left. */
  lemma LostClientStop(chunks: seq<seq<byte>>, k: nat, during: seq<Event>, stop: Event)
    requires Lost(chunks, k, during, stop)
    ensures stop == if k <= |Feed([], chunks).frames| then StopOf(Feed([], chunks).end) else ClientClosed
  {
    hide ItemAt, ComeNext, Feed, TakesAll, Meanwhile;
    TakesGot(during);
    FirstStop(Feed([], chunks), k, TakesAll(during), Takes(stop)[0]);
  }

  /**
   The same, in terms of what the client sent: a client whose transport breaks, or that dies while sending, leaves
   its session alive exactly if the bytes that got through end between two of its frames, or their broken end was
   taken before the relay, and nothing the session had for it or from it failed.
   */
  lemma BrokenOff(s: Session, sent: seq<Frame>, chunks: seq<seq<byte>>, k: nat, during: seq<Event>, stop: Event)
    requires s.phase.Relay? && forall f :: f in sent ==> Sendable(f)
    requires Flatten(chunks) <= EncodeAll(sent) && Lost(chunks, k, during, stop)
    ensures
      Proceed(s, during + [stop]).phase == AwaitClient <==>
        && (OnBoundary(sent, Flatten(chunks)) || k > |Feed([], chunks).frames|)
        && forall i :: 0 <= i < |during| ==> !Failing(during[i])
  {
    CutOnBoundary(sent, chunks);
    hide OnBoundary, EncodeAll, Flatten, Feed, Lost, Failing, Proceed, Sendable;
    LostClient(s, chunks, k, during, stop);
  }

  /** The same of any session that can be reached: its run goes on by the turns it takes part in. */
  lemma LostClientRun(script: seq<Event>, chunks: seq<seq<byte>>, k: nat, during: seq<Event>, stop: Event)
    requires Admissible(script) && Run(script).0.phase.Relay? && Lost(chunks, k, during, stop)
    ensures
      var all := script + LivePart(Run(script).0, during + [stop]);
      && Admissible(all) && Run(all).0.env == Run(script).0.env
      && (Run(all).0.phase == AwaitClient <==> LostWell(chunks, k, during))
      && (Run(all).0.phase != AwaitClient ==> Run(all).0.phase.Ended?)
  {
    hide Run, Admissible, Lost, LostWell, Proceed, LivePart;
    ProceedRuns(script, during + [stop]);
    LostClient(Run(script).0, chunks, k, during, stop);
  }

  /**
   The same in any run of the system, whatever else goes on in between: if session `sid`, relaying after `m` steps,
   then takes just these turns of its own, it ends up waiting for its next client, or over, accordingly.
   */
  lemma LostClientInRun(
    events: seq<SysEvent>, m: nat, sid: nat, chunks: seq<seq<byte>>, k: nat, during: seq<Event>, stop: Event)
    requires Feasible(events) && m <= |events| && Feasible(events[..m])
    requires sid in After(events[..m]).sessions && After(events[..m]).sessions[sid].phase.Relay?
    requires Lost(chunks, k, during, stop)
    requires Project(events, sid)
          == Project(events[..m], sid) + LivePart(After(events[..m]).sessions[sid], during + [stop])
    ensures sid in After(events).sessions
    ensures
      var before, after := After(events[..m]).sessions[sid], After(events).sessions[sid];
      && after.env == before.env
      && (after.phase == AwaitClient <==> LostWell(chunks, k, during))
      && (after.phase != AwaitClient ==> after.phase.Ended?)
  {
    ProjectRuns(events[..m], sid);
    ProjectRuns(events, sid);
    hide After, Feasible, Project, Run, Admissible, Lost, LostWell, LivePart;
    LostClientRun(Project(events[..m], sid), chunks, k, during, stop);
  }

  // ----- Two ways to lose the shell with the client -----

  lemma OneByte()
    ensures Feed([], [[0x01]]).end == Pending([0x01])
  {
    var chunks: seq<seq<byte>> := [[0x01]];
    assert [] + chunks[0] == [0x01] && chunks[1..] == [];
    assert DecodeOne([0x01]) == NeedMore;
    assert Drain([0x01]) == Received([], Pending([0x01]));
    hide DecodeOne, Drain;
    assert Feed([0x01], []) == Received([], Pending([0x01]));
  }

  lemma AfterSpawn(m: Spawned, e: Event)
    ensures
      var s := Session(Relay(0), Some(Metadata(m.ptyPath, m.shellPid, m.createdAt, true, 0)), Some([]));
      var script := [Recv(0), FirstFrame(None, Some(m)), e];
      Enabled(s, e) ==> Admissible(script) && Run(script).0 == Step(s, e).0
  {
    var one, two, script := [Recv(0)], [Recv(0), FirstFrame(None, Some(m))], [Recv(0), FirstFrame(None, Some(m)), e];
    assert one[..0] == [] && two[..1] == one && script[..2] == two;
    assert Run([]) == (FRESH, []) && Admissible(one) && Run(one).0 == Session(ReadEnv(0), None, None);
    assert Admissible(two);
  }

  /** One byte of a header and then nothing: the session ends, and its shell with it. */
  lemma ByteThenGone(m: Spawned)
    ensures
      var script := [Recv(0), FirstFrame(None, Some(m)), StopOf(Feed([], [[0x01]]).end)];
      Admissible(script) && Run(script).0.phase == Ended(BadFrame)
  {
    OneByte();
    AfterSpawn(m, ClientFailed);
    hide Feed, Run, Admissible;
  }

  /** The shell prints one byte and the client is not there to take it: the session ends likewise. */
  lemma PrintedToNoOne(m: Spawned)
    ensures
      var script := [Recv(0), FirstFrame(None, Some(m)), PtyOutput([65], false)];
      Admissible(script) && Run(script).0.phase == Ended(IoError)
  {
    AfterSpawn(m, PtyOutput([65], false));
  }
}
