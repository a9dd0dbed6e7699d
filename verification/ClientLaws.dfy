/** What holds of the client over every script: the heartbeat's timing, keystrokes, and what a connection opens with. */
module ClientLaws {
  import opened Wrappers
  import opened Sequences
  import opened Utf8
  import opened Protocol
  import opened Escape
  import opened Client

  // ----- Heartbeat -----

  const FIVE_SECONDS: nat := 5_000_000_000
  const FIFTEEN_SECONDS: nat := 15_000_000_000

  predicate PongAt(script: seq<ClientEvent>, k: nat)
    requires k < |script|
  {
    script[k].what == Incoming(Pong)
  }

  function LastPong(start: nat, script: seq<ClientEvent>): nat {
    if script == [] then start
    else
      var n := |script| - 1;
      if PongAt(script, n) then script[n].time else LastPong(start, script[..n])
  }

  function Ticks(script: seq<ClientEvent>): nat {
    if script == [] then 0
    else Ticks(script[..|script| - 1]) + if script[|script| - 1].what.Tick? then 1 else 0
  }

  predicate InOrder(start: nat, script: seq<ClientEvent>) {
    && (forall i :: 0 <= i < |script| ==> start <= script[i].time)
    && (forall i, j :: 0 <= i < j < |script| ==> script[i].time <= script[j].time)
  }

  /** The interval timer never drifts: tick `m` comes at `start + 5 m` seconds. */
  predicate IdealTicks(start: nat, script: seq<ClientEvent>) {
    forall i :: 0 <= i < |script| && script[i].what.Tick? ==>
      script[i].time == start + (Ticks(script[..i]) + 1) * FIVE_SECONDS
  }

  /** Every ping is answered within 15 seconds, as far as the script goes. */
  ghost predicate Answered(script: seq<ClientEvent>) {
    forall i, j ::
      0 <= i < j < |script| && script[i].what.Tick? && script[j].time >= script[i].time + FIFTEEN_SECONDS ==>
      exists k :: i < k < j && PongAt(script, k) && script[k].time < script[i].time + FIFTEEN_SECONDS
  }

  lemma {:induction false} FindTick(script: seq<ClientEvent>, m: nat) returns (i: nat)
    requires m < Ticks(script)
    ensures i < |script| && script[i].what.Tick? && Ticks(script[..i]) == m
    decreases |script|
  {
    var n := |script| - 1;
    if script[n].what.Tick? && Ticks(script[..n]) == m {
      i := n;
    } else {
      i := FindTick(script[..n], m);
      assert script[..n][..i] == script[..i];
    }
  }

  lemma InOrderPrefix(start: nat, script: seq<ClientEvent>, n: nat)
    requires InOrder(start, script) && n <= |script|
    ensures InOrder(start, script[..n])
  {
  }

  lemma {:induction false} LastPongEarlier(start: nat, script: seq<ClientEvent>)
    requires InOrder(start, script)
    ensures start <= LastPong(start, script)
    ensures script != [] ==> LastPong(start, script) <= script[|script| - 1].time
    decreases |script|
  {
    if script == [] {
    } else {
      InOrderPrefix(start, script, |script| - 1);
      LastPongEarlier(start, script[..|script| - 1]);
    }
  }

  lemma {:induction false} LastPongBounds(start: nat, script: seq<ClientEvent>, n: nat)
    requires InOrder(start, script) && n <= |script|
    ensures start <= LastPong(start, script[..n]) <= LastPong(start, script)
    ensures n < |script| && PongAt(script, n) ==> script[n].time <= LastPong(start, script)
    decreases |script|
  {
    InOrderPrefix(start, script, n);
    LastPongEarlier(start, script[..n]);
    if n == |script| {
      assert script[..n] == script;
    } else {
      var last := |script| - 1;
      InOrderPrefix(start, script, last);
      assert script[last].time >= script[n].time && (n < last ==> script[..last][n] == script[n]);
      LastPongEarlier(start, script);
      LastPongEarlier(start, script[..last]);
      hide InOrder;
      LastPongBounds(start, script[..last], n);
      TakeTake(script, last, n);
    }
  }

  lemma {:induction false} PerformKeepsPong(l: Link, actions: seq<Action>, size: Size, sends: nat)
    ensures var after := Perform(l, actions, size, sends);
            && after.lastPong == l.lastPong && after.escape == l.escape
            && (l.end != Some(Lost(true)) ==> after.end != Some(Lost(true)))
    decreases |actions|
  {
    if actions == [] {
    } else {
      var act := actions[0];
      var f := if act.Data? then Frame.Data(act.bytes) else Resize(size.cols, size.rows);
      PerformKeepsPong(l, actions[1..], size, sends);
      if sends > 0 {
        PerformKeepsPong(Attempted(l, f, true), actions[1..], size, sends - 1);
      }
    }
  }

  /** A running relay remembers the last pong of its script. */
  lemma {:induction false} LastPongTracked(l: Link, script: seq<ClientEvent>)
    requires After(l, script).end.None?
    ensures After(l, script).lastPong == LastPong(l.lastPong, script)
    decreases |script|
  {
    if script == [] {
    } else {
      var n := |script| - 1;
      LastPongTracked(l, script[..n]);
      var before := After(l, script[..n]);
      if script[n].what.Typed? && before.escape.Some? {
        var actions := Machine(before.escape.value, [], script[n].what.input).1;
        var next := before.(escape := Some(Machine(before.escape.value, [], script[n].what.input).0));
        PerformKeepsPong(next, actions, script[n].size, script[n].what.sends);
      }
    }
  }

  /** The heartbeat drops a connection only on a tick more than 15 seconds after the last pong. */
  lemma DroppedByTick(l: Link, script: seq<ClientEvent>, n: nat)
    requires n < |script| && l.end.None? && After(l, script[..n]).end.None?
    ensures After(l, script[..n + 1]).end == Some(Lost(true))
       <==> script[n].what.Tick? && script[n].time > LastPong(l.lastPong, script[..n]) + FIFTEEN_SECONDS
  {
    assert script[..n + 1][..n] == script[..n];
    LastPongTracked(l, script[..n]);
    var before, e := After(l, script[..n]), script[n];
    if e.what.Typed? && before.escape.Some? {
      var (next, actions) := Machine(before.escape.value, [], e.what.input);
      PerformKeepsPong(before.(escape := Some(next)), actions, e.size, e.what.sends);
    }
  }

  lemma AnsweredBy(start: nat, script: seq<ClientEvent>, i: nat, j: nat)
    requires InOrder(start, script) && Answered(script)
    requires i < j < |script| && script[i].what.Tick? && script[j].time >= script[i].time + FIFTEEN_SECONDS
    ensures LastPong(start, script[..j]) >= script[i].time
  {
    var k :| i < k < j && PongAt(script, k);
    hide Answered, LastPong;
    InOrderPrefix(start, script, j);
    assert PongAt(script[..j], k);
    assert script[k].time >= script[i].time;
    hide InOrder;
    LastPongBounds(start, script[..j], k);
  }

  lemma TickInTime(start: nat, script: seq<ClientEvent>, j: nat)
    requires InOrder(start, script) && IdealTicks(start, script) && Answered(script)
    requires j < |script| && script[j].what.Tick?
    ensures script[j].time <= LastPong(start, script[..j]) + FIFTEEN_SECONDS
  {
    var m := Ticks(script[..j]);
    InOrderPrefix(start, script, j);
    LastPongEarlier(start, script[..j]);
    hide LastPong, Ticks, InOrder, Answered;
    if m >= 3 {
      var i := FindTick(script[..j], m - 3);
      assert script[..j][..i] == script[..i];
      assert script[j].time == script[i].time + FIFTEEN_SECONDS;
      AnsweredBy(start, script, i, j);
    }
  }

  /** Soundness: as long as every ping is answered in under 15 seconds, the heartbeat drops nothing. */
  lemma {:induction false} HeartbeatSound(l: Link, script: seq<ClientEvent>, n: nat)
    requires l.end.None? && InOrder(l.lastPong, script) && IdealTicks(l.lastPong, script) && Answered(script)
    requires n <= |script|
    ensures After(l, script[..n]).end != Some(Lost(true))
    decreases n
  {
    if n == 0 {
      assert script[..0] == [];
    } else {
      HeartbeatSound(l, script, n - 1);
      assert script[..n][..n - 1] == script[..n - 1];
      if After(l, script[..n - 1]).end.None? {
        hide After, LastPong, InOrder, IdealTicks, Answered;
        DroppedByTick(l, script, n - 1);
        if script[n - 1].what.Tick? {
          TickInTime(l.lastPong, script, n - 1);
        }
      } else {
        hide React;
      }
    }
  }

  /** A tick the relay lived through was at most 15 seconds after the pong before it, and so after the latest. */
  lemma PassedTick(l: Link, script: seq<ClientEvent>, i: nat)
    requires l.end.None? && InOrder(l.lastPong, script) && After(l, script).end.None?
    requires i < |script| && script[i].what.Tick?
    ensures script[i].time <= LastPong(l.lastPong, script) + FIFTEEN_SECONDS
  {
    if After(l, script[..i]).end.Some? {
      EndStays(l, script, i);
    }
    if After(l, script[..i + 1]).end.Some? {
      EndStays(l, script, i + 1);
    }
    DroppedByTick(l, script, i);
    LastPongBounds(l.lastPong, script, i);
  }

  /** When the heartbeat does drop a connection, the last pong is more than 15 and at most 20 seconds back. */
  lemma DropWindow(l: Link, script: seq<ClientEvent>, n: nat)
    requires l.end.None? && InOrder(l.lastPong, script) && IdealTicks(l.lastPong, script)
    requires n < |script| && After(l, script[..n]).end.None? && After(l, script[..n + 1]).end == Some(Lost(true))
    ensures var p := LastPong(l.lastPong, script[..n]);
            p + FIFTEEN_SECONDS < script[n].time <= p + FIFTEEN_SECONDS + FIVE_SECONDS
  {
    DroppedByTick(l, script, n);
    LastPongBounds(l.lastPong, script[..n], 0);
    var m := Ticks(script[..n]);
    if m > 0 {
      var i := FindTick(script[..n], m - 1);
      assert script[..n][..i] == script[..i];
      PassedTick(l, script[..n], i);
    }
  }

  /** All ticks due before the last event have been delivered. */
  ghost predicate TicksDelivered(start: nat, script: seq<ClientEvent>) {
    script != [] ==>
      forall m: nat :: start + m * FIVE_SECONDS < script[|script| - 1].time ==> m <= Ticks(script)
  }

  /** Detection: a relay that is still up heard a pong within the last 20 seconds. */
  lemma HeartbeatDetects(l: Link, script: seq<ClientEvent>)
    requires l.end.None? && InOrder(l.lastPong, script) && IdealTicks(l.lastPong, script)
    requires TicksDelivered(l.lastPong, script) && script != [] && After(l, script).end.None?
    ensures script[|script| - 1].time
         <= LastPong(l.lastPong, script) + FIFTEEN_SECONDS + FIVE_SECONDS
  {
    var start, p := l.lastPong, LastPong(l.lastPong, script);
    LastPongBounds(start, script, 0);
    var limit := p + FIFTEEN_SECONDS + FIVE_SECONDS;
    var m := (limit - start) / FIVE_SECONDS;
    assert limit - FIVE_SECONDS < start + m * FIVE_SECONDS <= limit;
    if script[|script| - 1].time > limit {
      assert m <= Ticks(script);
      var i := FindTick(script, m - 1);
      PassedTick(l, script, i);
    }
  }

  /** A tick in time, answered or not, leaves the relay up. */
  lemma QuietTick(l: Link, script: seq<ClientEvent>, e: ClientEvent)
    requires After(l, script).end.None? && After(l, script).lastPong == 0
    requires e.what == Tick(1) && e.time <= FIFTEEN_SECONDS
    ensures After(l, script + [e]).end.None? && After(l, script + [e]).lastPong == 0
  {
    assert (script + [e])[..|script|] == script;
  }

  lemma LastTwo(l: Link, script: seq<ClientEvent>, quiet: ClientEvent, tick: ClientEvent)
    requires After(l, script).end.None? && After(l, script).lastPong == 0
    requires quiet.what == InputNotReady && tick.what == Tick(1) && tick.time > FIFTEEN_SECONDS
    ensures After(l, script + [quiet]).end.None?
    ensures After(l, script + [quiet] + [tick]).end == Some(Lost(true))
  {
    assert (script + [quiet])[..|script|] == script;
    assert (script + [quiet] + [tick])[..|script| + 1] == script + [quiet];
  }

  /** Ticks at 5, 10, 15 and 20 seconds, and nothing at 16. */
  function SilentScript(size: Size): (script: seq<ClientEvent>)
    ensures |script| == 5
  {
    [At(5_000_000_000, size, Tick(1)), At(10_000_000_000, size, Tick(1)), At(15_000_000_000, size, Tick(1)),
     At(16_000_000_000, size, InputNotReady), At(20_000_000_000, size, Tick(1))]
  }

  lemma TickCount(start: nat, script: seq<ClientEvent>, n: nat)
    requires n < |script|
    ensures Ticks(script[..n + 1]) == Ticks(script[..n]) + if script[n].what.Tick? then 1 else 0
    ensures !PongAt(script, n) ==> LastPong(start, script[..n + 1]) == LastPong(start, script[..n])
  {
    assert script[..n + 1][..n] == script[..n];
  }

  lemma SilentTimes(size: Size)
    ensures var script := SilentScript(size);
            InOrder(0, script) && IdealTicks(0, script) && LastPong(0, script) == 0
  {
    var script := SilentScript(size);
    assert Ticks([]) == 0 && LastPong(0, []) == 0;
    hide Ticks, LastPong;
    assert script[..0] == [] && script[..5] == script;
    TickCount(0, script, 0);
    TickCount(0, script, 1);
    TickCount(0, script, 2);
    TickCount(0, script, 3);
    TickCount(0, script, 4);
  }

  /** Sixteen seconds after its last pong a relay may still be up; the tick at exactly twenty drops it. */
  lemma SilentRelay(size: Size) returns (l: Link, script: seq<ClientEvent>)
    ensures l.end.None? && InOrder(l.lastPong, script) && IdealTicks(l.lastPong, script) && |script| == 5
    ensures LastPong(l.lastPong, script) == 0
    ensures script[3].time == 16_000_000_000 && After(l, script[..4]).end.None?
    ensures script[4].time == 20_000_000_000 && After(l, script).end == Some(Lost(true))
  {
    l, script := Link(None, 0, [], None), SilentScript(size);
    SilentTimes(size);
    assert script[..0] == [] && script[..1] == [] + [script[0]] && script[..2] == script[..1] + [script[1]];
    assert script[..3] == script[..2] + [script[2]] && script[..4] == script[..3] + [script[3]];
    assert script == script[..3] + [script[3]] + [script[4]];
    assert After(l, []) == l;
    hide After, LastPong, React, InOrder, IdealTicks;
    QuietTick(l, [], script[0]);
    QuietTick(l, script[..1], script[1]);
    QuietTick(l, script[..2], script[2]);
    LastTwo(l, script[..3], script[3], script[4]);
  }

  // ----- Keystrokes -----

  function Typing(script: seq<ClientEvent>): seq<byte> {
    if script == [] then []
    else
      var n := |script| - 1;
      Typing(script[..n]) + if script[n].what.Typed? then script[n].what.input else []
  }

  function Output(marks: seq<Mark>): seq<byte> {
    if marks == [] then []
    else (if marks[0].Byte? then [marks[0].b] else []) + Output(marks[1..])
  }

  lemma {:induction false} OutputConcat(a: seq<Mark>, b: seq<Mark>)
    ensures Output(a + b) == Output(a) + Output(b)
    decreases |a|
  {
    if a == [] {
      assert a + b == b;
    } else {
      assert (a + b)[0] == a[0] && (a + b)[1..] == a[1..] + b;
      OutputConcat(a[1..], b);
      var first := if a[0].Byte? then [a[0].b] else [];
      assert first + (Output(a[1..]) + Output(b)) == (first + Output(a[1..])) + Output(b);
    }
  }

  lemma {:induction false} OutputBytes(s: seq<byte>)
    ensures Output(Bytes(s)) == s
    decreases |s|
  {
    if s == [] {
    } else {
      assert Bytes(s)[1..] == Bytes(s[1..]);
      OutputBytes(s[1..]);
    }
  }

  function ActionBytes(action: Action): seq<byte> {
    if action.Data? then action.bytes else []
  }

  lemma OutputMarks(action: Action)
    ensures Output(MarksOf(action)) == ActionBytes(action)
  {
    if action.Data? {
      OutputBytes(action.bytes);
    } else {
      assert Output([]) == [];
    }
  }

  lemma OutputFirst(actions: seq<Action>)
    requires actions != []
    ensures Output(Flat(actions)) == ActionBytes(actions[0]) + Output(Flat(actions[1..]))
    ensures Fired(Detach) in Flat(actions) <==> actions[0] == Escape(Detach) || Fired(Detach) in Flat(actions[1..])
  {
    var first, rest := MarksOf(actions[0]), Flat(actions[1..]);
    assert Flat(actions) == first + rest;
    assert Fired(Detach) in first <==> actions[0] == Escape(Detach);
    OutputMarks(actions[0]);
    hide Flat, Output, MarksOf;
    OutputConcat(first, rest);
  }

  /** The first action, when it is one that sends: its frame goes out or the connection is lost. */
  function FrameFor(action: Action, size: Size): Frame {
    if action.Data? then Frame.Data(action.bytes) else Resize(size.cols, size.rows)
  }

  lemma PerformFirst(l: Link, actions: seq<Action>, size: Size, sends: nat)
    requires actions != [] && actions[0] != Escape(Detach) && actions[0] != Escape(Help)
    ensures Perform(l, actions, size, sends)
         == if sends == 0 then Attempted(l, FrameFor(actions[0], size), false)
            else Perform(Attempted(l, FrameFor(actions[0], size), true), actions[1..], size, sends - 1)
  {
  }

  lemma SendThen(l: Link, f: Frame, after: Link, bytes: seq<byte>, rest: seq<byte>)
    requires DataBytes(after.sent) == DataBytes(Attempted(l, f, true).sent) + rest
    requires bytes == if f.Data? then f.bytes else []
    ensures DataBytes(after.sent) == DataBytes(l.sent) + (bytes + rest)
  {
    DataBytesNext(l.sent, f);
    hide DataBytes;
    var before := DataBytes(l.sent);
    assert (before + bytes) + rest == before + (bytes + rest);
    assert before + [] == before;
  }

  lemma {:induction false} PerformNoDetach(l: Link, actions: seq<Action>, size: Size, sends: nat)
    requires l.end.None? && Perform(l, actions, size, sends).end.None?
    ensures Fired(Detach) !in Flat(actions)
    decreases |actions|
  {
    if actions == [] {
    } else {
      OutputFirst(actions);
      hide Flat, Output;
      if actions[0] == Escape(Help) {
        PerformNoDetach(l, actions[1..], size, sends);
      } else if actions[0] != Escape(Detach) {
        PerformFirst(l, actions, size, sends);
        hide Perform;
        PerformNoDetach(Attempted(l, FrameFor(actions[0], size), true), actions[1..], size, sends - 1);
      }
    }
  }

  /** Actions performed to the end: their bytes were sent. */
  lemma {:induction false} PerformSends(l: Link, actions: seq<Action>, size: Size, sends: nat)
    requires l.end.None? && Perform(l, actions, size, sends).end.None?
    ensures DataBytes(Perform(l, actions, size, sends).sent) == DataBytes(l.sent) + Output(Flat(actions))
    decreases |actions|
  {
    if actions == [] {
      assert DataBytes(l.sent) + [] == DataBytes(l.sent);
    } else {
      OutputFirst(actions);
      hide Flat, Output, DataBytes;
      var rest := Output(Flat(actions[1..]));
      if actions[0] == Escape(Help) {
        PerformSends(l, actions[1..], size, sends);
        assert [] + rest == rest;
      } else if actions[0] != Escape(Detach) {
        PerformFirst(l, actions, size, sends);
        hide Perform;
        var f := FrameFor(actions[0], size);
        var next := Attempted(l, f, true);
        PerformSends(next, actions[1..], size, sends - 1);
        SendThen(l, f, Perform(next, actions[1..], size, sends - 1), ActionBytes(actions[0]), rest);
      }
    }
  }

  lemma {:induction false} DetachFires(state: EscapeState, input: seq<byte>)
    ensures Scan(state, input).detached <==> Fired(Detach) in Scan(state, input).marks
    decreases |input|
  {
    if input == [] {
    } else {
      DetachFires(Step(state, input[0]).state, input[1..]);
    }
  }

  lemma TypedSends(l: Link, e: ClientEvent)
    requires l.end.None? && l.escape.Some? && e.what.Typed? && React(l, e).end.None?
    ensures
      var scan := Scan(l.escape.value, e.what.input);
      && !scan.detached && React(l, e).escape == Some(scan.state)
      && DataBytes(React(l, e).sent) == DataBytes(l.sent) + Output(scan.marks)
  {
    var (next, actions) := Machine(l.escape.value, [], e.what.input);
    ProcessMeaning(l.escape.value, e.what.input);
    DetachFires(l.escape.value, e.what.input);
    PerformSends(l.(escape := Some(next)), actions, e.size, e.what.sends);
    PerformNoDetach(l.(escape := Some(next)), actions, e.size, e.what.sends);
    PerformKeepsPong(l.(escape := Some(next)), actions, e.size, e.what.sends);
    hide Machine, Scan, Flat, Perform, Output, DataBytes;
  }

  lemma QuietSends(l: Link, e: ClientEvent)
    requires l.end.None? && !e.what.Typed? && React(l, e).end.None?
    ensures DataBytes(React(l, e).sent) == DataBytes(l.sent) && React(l, e).escape == l.escape
  {
    DataBytesNext(l.sent, Resize(e.size.cols, e.size.rows));
    DataBytesNext(l.sent, Ping);
  }

  /** From `l` on, `text` was typed, and what the escape processor makes of it was sent. */
  predicate Keyed(l: Link, after: Link, text: seq<byte>)
    requires l.escape.Some?
  {
    var scan := Scan(l.escape.value, text);
    && !scan.detached && after.escape == Some(scan.state)
    && DataBytes(after.sent) == DataBytes(l.sent) + Output(scan.marks)
  }

  lemma KeyedTyped(l: Link, before: Link, text: seq<byte>, e: ClientEvent)
    requires l.escape.Some? && Keyed(l, before, text)
    requires before.end.None? && e.what.Typed? && React(before, e).end.None?
    ensures Keyed(l, React(before, e), text + e.what.input)
  {
    hide React, Scan, Output, DataBytes;
    TypedSends(before, e);
    ScanAppend(l.escape.value, text, e.what.input);
    var first := Scan(l.escape.value, text);
    var second := Scan(first.state, e.what.input);
    OutputConcat(first.marks, second.marks);
    assert DataBytes(l.sent) + (Output(first.marks) + Output(second.marks))
        == (DataBytes(l.sent) + Output(first.marks)) + Output(second.marks);
  }

  /**
   On a link that is still up, the Data frames sent carry exactly what the escape processor makes of
   everything typed, whatever else happened in between.
   */
  lemma {:induction false} KeystrokesSent(l: Link, script: seq<ClientEvent>)
    requires l.end.None? && l.escape.Some? && After(l, script).end.None?
    ensures Keyed(l, After(l, script), Typing(script))
    decreases |script|
  {
    if script == [] {
      assert Scan(l.escape.value, []).marks == [] && Output([]) == [];
      assert DataBytes(l.sent) + [] == DataBytes(l.sent);
    } else {
      var n := |script| - 1;
      KeystrokesSent(l, script[..n]);
      var before := After(l, script[..n]);
      if script[n].what.Typed? {
        hide Keyed, React;
        KeyedTyped(l, before, Typing(script[..n]), script[n]);
      } else {
        QuietSends(before, script[n]);
        hide React, Scan, Output, DataBytes;
        assert Typing(script[..n]) + [] == Typing(script[..n]);
      }
    }
  }

  // ----- Connections -----

  lemma {:induction false} PerformExtends(l: Link, actions: seq<Action>, size: Size, sends: nat)
    ensures var after := Perform(l, actions, size, sends);
            l.sent <= after.sent && forall i :: |l.sent| <= i < |after.sent| ==> !after.sent[i].Env?
    decreases |actions|
  {
    if actions == [] {
    } else {
      var act := actions[0];
      var f := if act.Data? then Frame.Data(act.bytes) else Resize(size.cols, size.rows);
      PerformExtends(l, actions[1..], size, sends);
      if sends > 0 {
        PerformExtends(Attempted(l, f, true), actions[1..], size, sends - 1);
      }
    }
  }

  /** The relay only adds to what was sent, and never an environment. */
  lemma {:induction false} RelayExtends(l: Link, script: seq<ClientEvent>)
    ensures l.sent <= After(l, script).sent
    ensures forall i :: |l.sent| <= i < |After(l, script).sent| ==> !After(l, script).sent[i].Env?
    decreases |script|
  {
    if script == [] {
    } else {
      var n := |script| - 1;
      RelayExtends(l, script[..n]);
      var before, e := After(l, script[..n]), script[n];
      if e.what.Typed? && before.escape.Some? {
        var (next, actions) := Machine(before.escape.value, [], e.what.input);
        PerformExtends(before.(escape := Some(next)), actions, e.size, e.what.sends);
      }
    }
  }

  /**
   A connection's frames are its opening, cut short if a send failed, and then whatever was said; an environment comes
   first or not at all.
   */
  predicate OpensWith(opening: seq<Frame>, sends: nat, sent: seq<Frame>) {
    && (if sends < |opening| then sent == opening[..sends + 1] else opening <= sent)
    && forall i :: 0 <= i < |sent| && sent[i].Env? ==> i == 0 && [sent[0]] <= opening
  }

  lemma ConnectionOpens(escape: Option<EscapeState>, env: seq<(Str, Str)>, redraw: bool, round: Round)
    ensures OpensWith(Opening(env, round.size, redraw), round.openSends, Connection(escape, env, redraw, round).sent)
  {
    var opening := Opening(env, round.size, redraw);
    var first := Opened(escape, opening, round.openSends, round.start);
    var link := Connection(escape, env, redraw, round);
    RelayExtends(first, round.script);
    if first.end.Some? {
      EndStays(first, round.script, 0);
    }
    hide After;
  }

  lemma LaterOpening(size: Size, sends: nat, sent: seq<Frame>)
    requires OpensWith(Opening([], size, true), sends, sent)
    ensures forall i :: 0 <= i < |sent| ==> !sent[i].Env?
  {
  }

  lemma {:induction false} LiveLength(
    escape: Option<EscapeState>, env: seq<(Str, Str)>, redraw: bool, rounds: seq<Round>)
    ensures |Live(escape, env, redraw, rounds).connections| <= |rounds|
    decreases |rounds|
  {
    if rounds == [] {
    } else {
      hide Connection;
      LiveLength(Connection(escape, env, redraw, rounds[0]).escape, [], true, rounds[1..]);
    }
  }

  /** The later connections of a life are those of the life that goes on. */
  lemma LiveOne(escape: Option<EscapeState>, env: seq<(Str, Str)>, redraw: bool, rounds: seq<Round>)
    requires rounds != []
    ensures
      var link := Connection(escape, env, redraw, rounds[0]);
      var all := Live(escape, env, redraw, rounds).connections;
      all == [link.sent] || all == [link.sent] + Live(link.escape, [], true, rounds[1..]).connections
  {
    hide Connection;
  }

  lemma LiveNone(escape: Option<EscapeState>, env: seq<(Str, Str)>, redraw: bool)
    ensures Live(escape, env, redraw, []).connections == []
  {
  }

  lemma LiveLater(
    escape: Option<EscapeState>, env: seq<(Str, Str)>, redraw: bool, rounds: seq<Round>, k: nat)
    requires k < |Live(escape, env, redraw, rounds).connections|
    ensures rounds != []
    ensures
      var link := Connection(escape, env, redraw, rounds[0]);
      var rest := Live(link.escape, [], true, rounds[1..]).connections;
      if k == 0 then Live(escape, env, redraw, rounds).connections[0] == link.sent
      else k - 1 < |rest| && Live(escape, env, redraw, rounds).connections[k] == rest[k - 1]
  {
    hide Connection, Live;
    LiveNone(escape, env, redraw);
    LiveOne(escape, env, redraw, rounds);
  }

  /**
   Every connection opens with its opening frames, as many as could be sent, and only the first one of
   a client's life carries the environment, at most once and before anything else.
   */
  lemma {:induction false} EnvironmentOnce(
    escape: Option<EscapeState>, env: seq<(Str, Str)>, redraw: bool, rounds: seq<Round>, k: nat)
    requires k < |Live(escape, env, redraw, rounds).connections|
    ensures |Live(escape, env, redraw, rounds).connections| <= |rounds|
    ensures
      var sent := Live(escape, env, redraw, rounds).connections[k];
      && OpensWith(
           Opening(if k == 0 then env else [], rounds[k].size, k > 0 || redraw), rounds[k].openSends, sent)
      && (k > 0 ==> forall i :: 0 <= i < |sent| ==> !sent[i].Env?)
    decreases |rounds|
  {
    LiveLength(escape, env, redraw, rounds);
    LiveLater(escape, env, redraw, rounds, k);
    hide Connection, OpensWith, Live, Opening;
    if k == 0 {
      ConnectionOpens(escape, env, redraw, rounds[0]);
    } else {
      var next := Connection(escape, env, redraw, rounds[0]).escape;
      EnvironmentOnce(next, [], true, rounds[1..], k - 1);
      if k == 1 {
        LaterOpening(rounds[1].size, rounds[1].openSends, Live(next, [], true, rounds[1..]).connections[0]);
      }
    }
  }

  /**
   What every connection of a life starts with, frame by frame: the environment, on the first one if there is any; the
   window size; and a form feed, if a redraw was asked for or it is not the first. It breaks off there only where a send
   failed.
   */
  lemma ConnectionStarts(
    escape: Option<EscapeState>, env: seq<(Str, Str)>, redraw: bool, rounds: seq<Round>, k: nat)
    requires k < |Live(escape, env, redraw, rounds).connections|
    ensures k < |rounds|
    ensures
      var sent := Live(escape, env, redraw, rounds).connections[k];
      var withEnv, withRedraw := k == 0 && env != [], k > 0 || redraw;
      var at := if withEnv then 1 else 0;
      var whole := at + if withRedraw then 2 else 1;
      && (if rounds[k].openSends < whole then |sent| == rounds[k].openSends + 1 else |sent| >= whole)
      && (withEnv ==> sent[0] == Env(env))
      && (|sent| > at ==> sent[at] == Resize(rounds[k].size.cols, rounds[k].size.rows))
      && (withRedraw && |sent| > at + 1 ==> sent[at + 1] == Frame.Data([0x0C]))
  {
    EnvironmentOnce(escape, env, redraw, rounds, k);
    hide Live;
  }

  // ----- How a life goes on and ends -----

  /** A try that settles the matter: Ctrl-C, or an Ok or Error in answer to a request that could be sent. */
  predicate Settles(t: Try) {
    t.ctrlC || (t.connects && t.sends && t.answer.Some? && (t.answer.value.Ok? || t.answer.value.Error?))
  }

  /** Try `k` is the first that settles the matter, with an Ok and no Ctrl-C. */
  predicate ComesBack(tries: seq<Try>, k: nat) {
    && k < |tries| && (forall i :: 0 <= i < k ==> !Settles(tries[i]))
    && !tries[k].ctrlC && tries[k].connects && tries[k].sends && tries[k].answer == Some(Ok)
  }

  /** Try `k` is the first that settles the matter, with a Ctrl-C or an Error. */
  predicate GivesUp(tries: seq<Try>, k: nat) {
    && k < |tries| && (forall i :: 0 <= i < k ==> !Settles(tries[i]))
    && (tries[k].ctrlC
        || (tries[k].connects && tries[k].sends && tries[k].answer.Some? && tries[k].answer.value.Error?))
  }

  ghost predicate CameBack(tries: seq<Try>) {
    exists k: nat :: ComesBack(tries, k)
  }

  ghost predicate GaveUp(tries: seq<Try>) {
    exists k: nat :: GivesUp(tries, k)
  }

  lemma YieldsExactly(t: Try)
    ensures Settles(t) <==> Yields(t) != NoLuck
    ensures Yields(t) == Reattached <==> !t.ctrlC && t.connects && t.sends && t.answer == Some(Ok)
    ensures Yields(t) in {Interrupted, SessionGone} <==>
      t.ctrlC || (t.connects && t.sends && t.answer.Some? && t.answer.value.Error?)
  {
  }

  lemma {:induction false} FirstSettled(tries: seq<Try>) returns (k: nat)
    requires Settled(tries).Some?
    ensures SettledAt(tries, k)
    decreases |tries|
  {
    hide Yields;
    if Yields(tries[0]) == NoLuck {
      var later := FirstSettled(tries[1..]);
      k := later + 1;
      assert forall i :: 0 < i <= k ==> tries[i] == tries[1..][i - 1];
    } else {
      k := 0;
    }
  }

  lemma SettlesExactly(tries: seq<Try>)
    ensures Settled(tries) == Some(Reattached) <==> CameBack(tries)
    ensures Settled(tries) in {Some(Interrupted), Some(SessionGone)} <==> GaveUp(tries)
    ensures Settled(tries) != Some(NoLuck)
  {
    forall t: Try
      ensures Settles(t) <==> Yields(t) != NoLuck
      ensures Yields(t) == Reattached <==> !t.ctrlC && t.connects && t.sends && t.answer == Some(Ok)
      ensures Yields(t) in {Interrupted, SessionGone} <==>
        t.ctrlC || (t.connects && t.sends && t.answer.Some? && t.answer.value.Error?)
    {
      YieldsExactly(t);
    }
    hide Yields, Settles, Settled;
    forall k: nat ensures ComesBack(tries, k) <==> SettledAt(tries, k) && Yields(tries[k]) == Reattached {}
    forall k: nat
      ensures GivesUp(tries, k) <==> SettledAt(tries, k) && Yields(tries[k]) in {Interrupted, SessionGone}
    {}
    hide ComesBack, GivesUp;
    if Settled(tries).Some? {
      var k := FirstSettled(tries);
      assert Settled(tries) == Some(Yields(tries[k])) && SettledAt(tries, k);
    }
  }

  /** The relay of connection `k`, with the escape processor the earlier ones left behind. */
  function LinkAt(escape: Option<EscapeState>, env: seq<(Str, Str)>, redraw: bool, rounds: seq<Round>, k: nat): Link
    requires k < |rounds|
    decreases k
  {
    var link := Connection(escape, env, redraw, rounds[0]);
    if k == 0 then link else LinkAt(link.escape, [], true, rounds[1..], k - 1)
  }

  /** How a client stands after its last connection. */
  ghost predicate Stands(status: Status, end: Option<Ending>, tries: seq<Try>) {
    match end
    case None => status == Ongoing
    case Some(Exited(code)) => status == Finished(code)
    case Some(InputError) => status == Broken
    case Some(Lost(_)) =>
      if GaveUp(tries) then status == Finished(1) else status == Ongoing
  }

  /** A client that has come back, and stops there, is still at it. */
  lemma LiveStands(
    escape: Option<EscapeState>, env: seq<(Str, Str)>, redraw: bool, rounds: seq<Round>, tries: seq<Try>)
    requires Live(escape, env, redraw, rounds).connections == [] && !GaveUp(tries)
    ensures Stands(Live(escape, env, redraw, rounds).status, Some(Lost(false)), tries)
    ensures Stands(Live(escape, env, redraw, rounds).status, Some(Lost(true)), tries)
  {
    hide Connection, Settled, GaveUp;
  }

  lemma LifeStep(escape: Option<EscapeState>, env: seq<(Str, Str)>, redraw: bool, rounds: seq<Round>)
    requires rounds != []
    ensures
      var link, life := Connection(escape, env, redraw, rounds[0]), Live(escape, env, redraw, rounds);
      if link.end.Some? && link.end.value.Lost? && CameBack(rounds[0].tries) then
        var rest := Live(link.escape, [], true, rounds[1..]);
        life.connections == [link.sent] + rest.connections && life.status == rest.status
        && !GaveUp(rounds[0].tries)
      else life.connections == [link.sent] && Stands(life.status, link.end, rounds[0].tries)
  {
    hide Settled, CameBack, GaveUp, Connection;
    SettlesExactly(rounds[0].tries);
    match Connection(escape, env, redraw, rounds[0]).end {
      case Some(Lost(_)) =>
        match Settled(rounds[0].tries) {
          case Some(Reattached) =>
          case _ =>
        }
      case _ =>
    }
  }

  /**
   A life, exactly: it goes on to another connection only when one was lost and a try came back, and it ends as its last
   connection did, or with code 1 when the client gave that up.
   */
  lemma {:induction false} LifeExactly(
    escape: Option<EscapeState>, env: seq<(Str, Str)>, redraw: bool, rounds: seq<Round>, k: nat)
    requires k < |Live(escape, env, redraw, rounds).connections|
    ensures k < |rounds|
    ensures
      var life, link := Live(escape, env, redraw, rounds), LinkAt(escape, env, redraw, rounds, k);
      && life.connections[k] == link.sent
      && (if k + 1 < |life.connections|
          then link.end.Some? && link.end.value.Lost? && CameBack(rounds[k].tries)
          else Stands(life.status, link.end, rounds[k].tries))
    decreases |rounds|
  {
    hide Connection, CameBack, GaveUp, Live, Stands;
    LiveLength(escape, env, redraw, rounds);
    var link := Connection(escape, env, redraw, rounds[0]);
    assert k > 0 ==> LinkAt(escape, env, redraw, rounds, k) == LinkAt(link.escape, [], true, rounds[1..], k - 1);
    LifeStep(escape, env, redraw, rounds);
    if k > 0 {
      hide LinkAt;
      LifeExactly(link.escape, [], true, rounds[1..], k - 1);
    } else if |Live(escape, env, redraw, rounds).connections| == 1 && link.end in {Some(Lost(false)), Some(Lost(true))}
      && CameBack(rounds[0].tries)
    {
      LiveStands(link.escape, [], true, rounds[1..], rounds[0].tries);
    }
  }
}
