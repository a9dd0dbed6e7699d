/**
 What one connection of the client says and how it ends, told without the relay's state: each event is
 judged by the text typed, and the pongs received, before it. And the escape processor over a whole life.
 */
module ClientTalk {
  import opened Wrappers
  import opened Utf8
  import opened Protocol
  import opened Escape
  import opened Text
  import opened Client
  import opened ClientLaws

  /** The frames a read's actions stand for, up to a detach. */
  function FramesOf(actions: seq<Action>, size: Size): seq<Frame> {
    if actions == [] || actions[0] == Escape(Detach) then []
    else
      (match actions[0]
       case Data(bytes) => [Frame.Data(bytes)]
       case Escape(c) => if c.Suspend? then [Resize(size.cols, size.rows)] else []) + FramesOf(actions[1..], size)
  }

  /** Where the escape processor stands after `text`, if there is one. */
  function StateAfter(escape: Option<EscapeState>, text: seq<byte>): Option<EscapeState> {
    match escape
    case None => None
    case Some(state) => Some(Scan(state, text).state)
  }

  /** What an event makes the client say if all its sends succeed. */
  function Said(escape: Option<EscapeState>, e: ClientEvent): seq<Frame> {
    match e.what
    case Typed(input, _) =>
      (match escape
       case None => [Frame.Data(input)]
       case Some(state) => FramesOf(Machine(state, [], input).1, e.size))
    case WindowChanged(_) => [Resize(e.size.cols, e.size.rows)]
    case Tick(_) => [Ping]
    case _ => []
  }

  function Spoken(escape: Option<EscapeState>, script: seq<ClientEvent>): seq<Frame> {
    if script == [] then []
    else
      var n := |script| - 1;
      Spoken(escape, script[..n]) + Said(StateAfter(escape, Typing(script[..n])), script[n])
  }

  /** How event `i` ends a relay that was up until then, if it does. */
  function EndedBy(escape: Option<EscapeState>, start: nat, script: seq<ClientEvent>, i: nat): Option<Ending>
    requires i < |script|
  {
    var e := script[i];
    var state := StateAfter(escape, Typing(script[..i]));
    match e.what
    case Typed(input, sends) =>
      if sends < |Said(state, e)| then Some(Lost(false))
      else if state.Some? && Scan(state.value, input).detached then Some(Exited(0))
      else None
    case InputEof => Some(Exited(0))
    case InputFailed => Some(InputError)
    case InputNotReady => None
    case Incoming(frame) =>
      (match frame
       case Exit(code) => Some(Exited(code))
       case Detached => Some(Exited(0))
       case _ => None)
    case Disconnected => Some(Lost(false))
    case WindowChanged(sends) => if sends == 0 then Some(Lost(false)) else None
    case Tick(sends) =>
      if e.time > LastPong(start, script[..i]) + FIFTEEN_SECONDS then Some(Lost(true))
      else if sends == 0 then Some(Lost(false))
      else None
  }

  /** From `l`, the frames in `said` were sent as far as sends succeed; a detach counts only if they all do. */
  predicate Performed(l: Link, after: Link, said: seq<Frame>, detaches: bool, sends: nat) {
    && after.sent == l.sent + (if sends < |said| then said[..sends + 1] else said)
    && after.end == (if sends < |said| then Some(Lost(false)) else if detaches then Some(Exited(0)) else None)
  }

  lemma OneMore(sent: seq<Frame>, f: Frame, rest: seq<Frame>, k: nat)
    ensures (sent + [f]) + rest == sent + ([f] + rest)
    ensures k < |rest| ==> (sent + [f]) + rest[..k + 1] == sent + ([f] + rest)[..k + 2]
  {
  }

  lemma PerformedMore(l: Link, f: Frame, after: Link, rest: seq<Frame>, detaches: bool, sends: nat)
    requires sends > 0 && Performed(Attempted(l, f, true), after, rest, detaches, sends - 1)
    ensures Performed(l, after, [f] + rest, detaches, sends)
  {
    OneMore(l.sent, f, rest, sends - 1);
  }

  lemma PerformedNot(l: Link, f: Frame, rest: seq<Frame>, detaches: bool)
    ensures Performed(l, Attempted(l, f, false), [f] + rest, detaches, 0)
  {
    assert ([f] + rest)[..1] == [f];
  }

  lemma {:induction false} PerformExact(l: Link, actions: seq<Action>, size: Size, sends: nat)
    requires l.end.None?
    ensures Performed(
      l, Perform(l, actions, size, sends), FramesOf(actions, size), Fired(Detach) in Flat(actions), sends)
    decreases |actions|
  {
    if actions == [] {
      assert l.sent + [] == l.sent;
    } else if actions[0] == Escape(Detach) {
      assert l.sent + [] == l.sent;
      assert Flat(actions) == [Fired(Detach)] + Flat(actions[1..]);
    } else {
      hide Performed, Output;
      OutputFirst(actions);
      var rest, detaches := FramesOf(actions[1..], size), Fired(Detach) in Flat(actions);
      if actions[0] == Escape(Help) {
        assert FramesOf(actions, size) == [] + rest == rest;
        PerformExact(l, actions[1..], size, sends);
        hide FramesOf, Flat;
      } else {
        var f := FrameFor(actions[0], size);
        assert FramesOf(actions, size) == [f] + rest;
        hide FramesOf, Flat;
        PerformFirst(l, actions, size, sends);
        hide Perform;
        if sends == 0 {
          PerformedNot(l, f, rest, detaches);
        } else {
          PerformExact(Attempted(l, f, true), actions[1..], size, sends - 1);
          PerformedMore(l, f, Perform(Attempted(l, f, true), actions[1..], size, sends - 1), rest, detaches, sends);
        }
      }
    }
  }

  /** One turn of the relay, without its state. */
  lemma ReactExact(l: Link, script: seq<ClientEvent>, escape: Option<EscapeState>, start: nat)
    requires script != [] && l.end.None?
    requires l.escape == StateAfter(escape, Typing(script[..|script| - 1]))
    requires l.lastPong == LastPong(start, script[..|script| - 1])
    ensures
      var n := |script| - 1;
      var after, said := React(l, script[n]), Said(l.escape, script[n]);
      && after.end == EndedBy(escape, start, script, n)
      && l.sent <= after.sent <= l.sent + said
      && (after.end.None? ==> after.sent == l.sent + said)
      && after.escape == (if script[n].what.Typed? then StateAfter(l.escape, script[n].what.input) else l.escape)
  {
    var n := |script| - 1;
    var e := script[n];
    assert l.sent + [] == l.sent;
    if e.what.Typed? && l.escape.Some? {
      var state := l.escape.value;
      var (next, actions) := Machine(state, [], e.what.input);
      ProcessMeaning(state, e.what.input);
      DetachFires(state, e.what.input);
      PerformExact(l.(escape := Some(next)), actions, e.size, e.what.sends);
      PerformKeepsPong(l.(escape := Some(next)), actions, e.size, e.what.sends);
      hide Machine, Scan, Flat, FramesOf, Perform, Typing, LastPong;
    } else {
      hide Machine, Scan, Flat, FramesOf, Perform, Typing, LastPong;
    }
  }

  lemma ScanReads(state: EscapeState, a: seq<byte>, b: seq<byte>)
    requires !Scan(state, a).detached
    ensures Scan(state, a + b).state == Scan(Scan(state, a).state, b).state
    ensures Scan(state, a + b).detached == Scan(Scan(state, a).state, b).detached
  {
    ScanAppend(state, a, b);
  }

  lemma {:induction false} NoEscape(l: Link, script: seq<ClientEvent>)
    requires l.escape.None?
    ensures After(l, script).escape.None?
    decreases |script|
  {
    if script == [] {
    } else {
      NoEscape(l, script[..|script| - 1]);
    }
  }

  /** A relay still up has detached nowhere, stands where the text leads, and knows the last pong. */
  lemma StillUp(l: Link, script: seq<ClientEvent>)
    requires l.end.None? && After(l, script).end.None?
    ensures After(l, script).escape == StateAfter(l.escape, Typing(script))
    ensures After(l, script).lastPong == LastPong(l.lastPong, script)
    ensures l.escape.Some? ==> !Scan(l.escape.value, Typing(script)).detached
  {
    LastPongTracked(l, script);
    if l.escape.Some? {
      KeystrokesSent(l, script);
    } else {
      NoEscape(l, script);
    }
  }

  /** A relay ends with an event, and in a way, exactly as the event and what was typed and heard before it demand. */
  lemma RelayEnds(l: Link, script: seq<ClientEvent>, i: nat)
    requires l.end.None? && i < |script| && After(l, script[..i]).end.None?
    ensures After(l, script[..i + 1]).end == EndedBy(l.escape, l.lastPong, script, i)
  {
    var now := script[..i + 1];
    assert now[..i] == script[..i] && now[i] == script[i];
    StillUp(l, script[..i]);
    ReactExact(After(l, script[..i]), now, l.escape, l.lastPong);
    hide React, Typing, LastPong, Said, StateAfter, Scan;
    assert EndedBy(l.escape, l.lastPong, now, i) == EndedBy(l.escape, l.lastPong, script, i);
  }

  lemma SaysNext(opening: seq<Frame>, spoken: seq<Frame>, said: seq<Frame>, before: seq<Frame>, after: seq<Frame>)
    ensures before <= opening + spoken ==> before <= opening + (spoken + said)
    ensures before == opening + spoken && after <= before + said ==> after <= opening + (spoken + said)
    ensures before == opening + spoken && after == before + said ==> after == opening + (spoken + said)
  {
    assert (opening + spoken) + said == opening + (spoken + said);
  }

  /**
   Everything a connection says, in order: after its opening, what each event stands for given the text typed
   before it. A connection that ended said a prefix of that.
   */
  lemma {:induction false} ConnectionSays(l: Link, script: seq<ClientEvent>)
    requires l.end.None?
    ensures After(l, script).sent <= l.sent + Spoken(l.escape, script)
    ensures After(l, script).end.None? ==> After(l, script).sent == l.sent + Spoken(l.escape, script)
    decreases |script|
  {
    if script == [] {
    } else {
      var n := |script| - 1;
      ConnectionSays(l, script[..n]);
      var before := After(l, script[..n]);
      var spoken, said := Spoken(l.escape, script[..n]), Said(StateAfter(l.escape, Typing(script[..n])), script[n]);
      if before.end.None? {
        StillUp(l, script[..n]);
        ReactExact(before, script, l.escape, l.lastPong);
      }
      hide React, Typing, LastPong, Said, StateAfter, Scan, EndedBy;
      assert before.end.Some? ==> After(l, script) == before;
      hide After, Spoken;
      SaysNext(l.sent, spoken, said, before.sent, After(l, script).sent);
    }
  }

  // ----- The escape processor over a whole life -----

  /** The events a connection lived to handle, the one that ended it included. */
  function Lived(l: Link, script: seq<ClientEvent>): seq<ClientEvent> {
    if script == [] then []
    else
      var n := |script| - 1;
      if After(l, script[..n]).end.Some? then Lived(l, script[..n]) else Lived(l, script[..n]) + [script[n]]
  }

  lemma {:induction false} LivedAll(l: Link, script: seq<ClientEvent>)
    requires After(l, script).end.None?
    ensures Lived(l, script) == script
    decreases |script|
  {
    if script == [] {
    } else {
      LivedAll(l, script[..|script| - 1]);
    }
  }

  lemma EndedNever(l: Link, script: seq<ClientEvent>)
    requires After(l, script).end.None?
    ensures l.end.None?
  {
    if l.end.Some? {
      EndStays(l, script, 0);
    }
  }

  /** Whatever ends a connection, the processor has scanned all of the text its reads brought. */
  lemma {:induction false} EscapeKept(l: Link, script: seq<ClientEvent>)
    ensures After(l, script).escape == StateAfter(l.escape, Typing(Lived(l, script)))
    decreases |script|
  {
    if script == [] {
    } else {
      var n := |script| - 1;
      EscapeKept(l, script[..n]);
      var before := After(l, script[..n]);
      if before.end.None? {
        EndedNever(l, script[..n]);
        StillUp(l, script[..n]);
        LivedAll(l, script[..n]);
        assert Lived(l, script) == script;
        ReactExact(before, script, l.escape, l.lastPong);
        if l.escape.Some? && script[n].what.Typed? {
          ScanReads(l.escape.value, Typing(script[..n]), script[n].what.input);
        } else {
          assert Typing(script[..n]) + [] == Typing(script[..n]);
        }
      }
    }
  }

  function ConnectionTyping(escape: Option<EscapeState>, env: seq<(Str, Str)>, redraw: bool, round: Round): seq<byte> {
    Typing(Lived(Opened(escape, Opening(env, round.size, redraw), round.openSends, round.start), round.script))
  }

  predicate GoesOn(escape: Option<EscapeState>, env: seq<(Str, Str)>, redraw: bool, round: Round) {
    match Connection(escape, env, redraw, round).end
    case Some(Lost(_)) => Settled(round.tries) == Some(Reattached)
    case _ => false
  }

  /** All the text read in a life, over all its connections. */
  function LifeTyping(escape: Option<EscapeState>, env: seq<(Str, Str)>, redraw: bool, rounds: seq<Round>): seq<byte>
    decreases |rounds|
  {
    if rounds == [] then []
    else
      var text := ConnectionTyping(escape, env, redraw, rounds[0]);
      if GoesOn(escape, env, redraw, rounds[0])
      then text + LifeTyping(Connection(escape, env, redraw, rounds[0]).escape, [], true, rounds[1..])
      else text
  }

  lemma LiveEscape(escape: Option<EscapeState>, env: seq<(Str, Str)>, redraw: bool, rounds: seq<Round>)
    requires rounds != []
    ensures var link := Connection(escape, env, redraw, rounds[0]);
            Live(escape, env, redraw, rounds).escape
              == if GoesOn(escape, env, redraw, rounds[0]) then Live(link.escape, [], true, rounds[1..]).escape
                 else link.escape
    ensures Connection(escape, env, redraw, rounds[0]).escape
         == StateAfter(escape, ConnectionTyping(escape, env, redraw, rounds[0]))
  {
    var round := rounds[0];
    EscapeKept(Opened(escape, Opening(env, round.size, redraw), round.openSends, round.start), round.script);
    hide After, StateAfter, Lived, Typing;
  }

  /**
   One escape processor for a whole life: as long as no detach was typed, reconnecting does not disturb it;
   an escape may begin on one connection and end on the next.
   */
  lemma {:induction false} EscapeSpansConnections(
    state: EscapeState, env: seq<(Str, Str)>, redraw: bool, rounds: seq<Round>)
    requires !Scan(state, LifeTyping(Some(state), env, redraw, rounds)).detached
    ensures Live(Some(state), env, redraw, rounds).escape
         == Some(Scan(state, LifeTyping(Some(state), env, redraw, rounds)).state)
    decreases |rounds|
  {
    if rounds == [] {
    } else {
      LiveEscape(Some(state), env, redraw, rounds);
      var text := ConnectionTyping(Some(state), env, redraw, rounds[0]);
      var next := Scan(state, text).state;
      hide Scan, Connection, ConnectionTyping, Live;
      if GoesOn(Some(state), env, redraw, rounds[0]) {
        ScanAppend(state, text, LifeTyping(Some(next), [], true, rounds[1..]));
        EscapeSpansConnections(next, [], true, rounds[1..]);
      }
    }
  }

  lemma CrTildeDot()
    ensures Machine(Normal, [], [CR, TILDE, DOT]) == (AfterTilde, [Action.Data([CR]), Escape(Detach)])
    ensures Machine(AfterTilde, [], [DOT]).1 == [Escape(Detach)]
  {
    hide Scan;
    assert Flush([]) + [Escape(Detach)] == [Escape(Detach)] && [] + [CR] == [CR];
    assert [CR, TILDE, DOT][1..] == [TILDE, DOT] && [TILDE, DOT][1..] == [DOT];
    assert Machine(AfterTilde, [], [DOT]) == (AfterTilde, [Escape(Detach)]);
    assert Machine(AfterNewline, [CR], [TILDE, DOT]) == (AfterTilde, [Action.Data([CR])] + [Escape(Detach)]);
    assert Machine(Normal, [], [CR, TILDE, DOT]) == (AfterTilde, [] + ([Action.Data([CR])] + [Escape(Detach)]));
    assert [] + ([Action.Data([CR])] + [Escape(Detach)]) == [Action.Data([CR]), Escape(Detach)];
  }

  /**
   A detach can be lost: when a send fails before it in the same read, the connection counts as lost and the
   client reconnects, with the processor left behind the tilde, so that a single dot then detaches.
   */
  lemma DetachLost(l: Link, time: nat, size: Size)
    requires l.end.None? && l.escape == Some(Normal)
    ensures
      var text := [CR, TILDE, DOT];
      var after := React(l, At(time, size, Typed(text, 0)));
      && Fired(Detach) in Scan(Normal, text).marks && after.end == Some(Lost(false))
      && after.escape == Some(AfterTilde) && Machine(AfterTilde, [], [DOT]).1 == [Escape(Detach)]
  {
    CrTildeDot();
    ProcessMeaning(Normal, [CR, TILDE, DOT]);
    hide Machine, Scan, Flat;
    PerformExact(l.(escape := Some(AfterTilde)), [Action.Data([CR]), Escape(Detach)], size, 0);
    assert Fired(Detach) in Flat([Action.Data([CR]), Escape(Detach)]) by {
      FlatCommand([CR], Detach);
      assert Flush([CR]) + [Escape(Detach)] == [Action.Data([CR]), Escape(Detach)];
    }
  }
}
