/**
 The client of src/client.rs: the relay of one connection, with its heartbeat, and the loop that
 reconnects. `React` is one turn of the relay's select; `Relay` and `RunClient` are the loops.
 */
module Client {
  import opened Wrappers
  import opened Utf8
  import opened Protocol
  import opened Escape

  /** Times are nanoseconds of the monotonic clock. */
  const HEARTBEAT_TIMEOUT: nat := 15_000_000_000

  datatype Size = Size(cols: u16, rows: u16)

  /** `sends` is how many sends succeed in this turn before one fails or times out. */
  datatype What =
    | Typed(input: seq<byte>, sends: nat)
    | InputEof
    | InputFailed
    | InputNotReady
    | Incoming(frame: Frame)
    | Disconnected
    | WindowChanged(sends: nat)
    | Tick(sends: nat)

  datatype ClientEvent = At(time: nat, size: Size, what: What)

  /** A lost connection is retried; the other endings are final. */
  datatype Ending = Exited(code: i32) | Lost(timedOut: bool) | InputError

  /** `escape` is absent with `--no-escape`. */
  datatype Link = Link(escape: Option<EscapeState>, lastPong: nat, sent: seq<Frame>, end: Option<Ending>)

  function Attempted(l: Link, f: Frame, ok: bool): Link {
    l.(sent := l.sent + [f], end := if ok then None else Some(Lost(false)))
  }

  /** The actions of one read, in order, until one ends the relay. */
  function Perform(l: Link, actions: seq<Action>, size: Size, sends: nat): Link
    decreases |actions|
  {
    if actions == [] then l
    else
      var act := actions[0];
      if act == Escape(Detach) then l.(end := Some(Exited(0)))
      else if act == Escape(Help) then Perform(l, actions[1..], size, sends)
      else
        var f := if act.Data? then Frame.Data(act.bytes) else Resize(size.cols, size.rows);
        if sends == 0 then Attempted(l, f, false)
        else Perform(Attempted(l, f, true), actions[1..], size, sends - 1)
  }

  function React(l: Link, e: ClientEvent): Link {
    match e.what
    case Typed(input, sends) =>
      (match l.escape
       case None => Attempted(l, Frame.Data(input), sends > 0)
       case Some(state) =>
         var (next, actions) := Machine(state, [], input);
         Perform(l.(escape := Some(next)), actions, e.size, sends))
    case InputEof => l.(end := Some(Exited(0)))
    case InputFailed => l.(end := Some(InputError))
    case InputNotReady => l
    case Incoming(frame) =>
      (match frame
       case Pong => l.(lastPong := e.time)
       case Exit(code) => l.(end := Some(Exited(code)))
       case Detached => l.(end := Some(Exited(0)))
       case _ => l)
    case Disconnected => l.(end := Some(Lost(false)))
    case WindowChanged(sends) => Attempted(l, Resize(e.size.cols, e.size.rows), sends > 0)
    case Tick(sends) =>
      if e.time > l.lastPong + HEARTBEAT_TIMEOUT then l.(end := Some(Lost(true)))
      else Attempted(l, Ping, sends > 0)
  }

  /** The relay over a script of events, stopping where it ends. */
  function After(l: Link, script: seq<ClientEvent>): Link
    decreases |script|
  {
    if script == [] then l
    else
      var before := After(l, script[..|script| - 1]);
      if before.end.Some? then before else React(before, script[|script| - 1])
  }

  lemma {:induction false} EndStays(l: Link, script: seq<ClientEvent>, n: nat)
    requires n <= |script| && After(l, script[..n]).end.Some?
    ensures After(l, script) == After(l, script[..n])
    decreases |script|
  {
    if n == |script| {
      assert script[..n] == script;
    } else {
      assert script[..|script| - 1][..n] == script[..n];
      EndStays(l, script[..|script| - 1], n);
    }
  }

  // ----- The opening of a connection -----

  const CTRL_L: seq<byte> := [12]

  /** The environment first, so that it is there before the shell is spawned; then the window size. */
  function Opening(env: seq<(Str, Str)>, size: Size, redraw: bool): (frames: seq<Frame>)
    ensures 1 <= |frames| <= 3
  {
    (if env == [] then [] else [Env(env)])
    + [Resize(size.cols, size.rows)]
    + if redraw then [Frame.Data(CTRL_L)] else []
  }

  /** The link once `sends` of the opening frames went out; `start` is when the heartbeat starts. */
  function Opened(escape: Option<EscapeState>, frames: seq<Frame>, sends: nat, start: nat): Link {
    if sends < |frames| then Link(escape, start, frames[..sends + 1], Some(Lost(false)))
    else Link(escape, start, frames, None)
  }

  function StateOf(escape: EscapeProcessor?): Option<EscapeState>
    reads if escape == null then {} else {escape}
  {
    if escape == null then None else Some(escape.state)
  }

  lemma EndStaysOr(l: Link, script: seq<ClientEvent>, n: nat)
    requires n <= |script| && (n == |script| || After(l, script[..n]).end.Some?)
    ensures After(l, script) == After(l, script[..n])
  {
    if n == |script| {
      assert script[..n] == script;
    } else {
      EndStays(l, script, n);
    }
  }

  /** The loop over one read's actions. */
  method PerformActions(actions: seq<Action>, size: Size, sends: nat, soFar: seq<Frame>,
                        ghost state: Option<EscapeState>, ghost lastPong: nat)
    returns (end: Option<Ending>, sent: seq<Frame>)
    ensures Link(state, lastPong, sent, end) == Perform(Link(state, lastPong, soFar, None), actions, size, sends)
  {
    sent := soFar;
    var budget := sends;
    var i := 0;
    while i < |actions|
      invariant i <= |actions|
      invariant Perform(Link(state, lastPong, sent, None), actions[i..], size, budget)
             == Perform(Link(state, lastPong, soFar, None), actions, size, sends)
    {
      var act := actions[i];
      assert actions[i..][0] == act && actions[i..][1..] == actions[i + 1..];
      i := i + 1;
      match act {
        case Escape(Detach) => return Some(Exited(0)), sent;
        case Escape(Help) => continue;
        case Escape(Suspend) => sent := sent + [Resize(size.cols, size.rows)];
        case Data(bytes) => sent := sent + [Frame.Data(bytes)];
      }
      if budget == 0 {
        return Some(Lost(false)), sent;
      }
      budget := budget - 1;
    }
    end := None;
  }

  /** `relay`: the opening, then the select loop. The processor is shared with the other connections. */
  method Relay(env: seq<(Str, Str)>, size: Size, redraw: bool, openSends: nat, start: nat,
               script: seq<ClientEvent>, escape: EscapeProcessor?)
    returns (end: Option<Ending>, sent: seq<Frame>)
    modifies if escape == null then {} else {escape}
    ensures var link := After(Opened(old(StateOf(escape)), Opening(env, size, redraw), openSends, start), script);
            end == link.end && sent == link.sent && StateOf(escape) == link.escape
  {
    ghost var link := Opened(StateOf(escape), Opening(env, size, redraw), openSends, start);
    sent := [];
    var budget := openSends;
    if env != [] {
      sent := sent + [Env(env)];
      if budget == 0 {
        EndStays(link, script, 0);
        return Some(Lost(false)), sent;
      }
      budget := budget - 1;
    }
    sent := sent + [Resize(size.cols, size.rows)];
    if budget == 0 {
      EndStays(link, script, 0);
      return Some(Lost(false)), sent;
    }
    budget := budget - 1;
    if redraw {
      sent := sent + [Frame.Data(CTRL_L)];
      if budget == 0 {
        EndStays(link, script, 0);
        return Some(Lost(false)), sent;
      }
    }
    var lastPong: nat := start;
    var i := 0;
    end := None;
    while i < |script| && end.None?
      invariant i <= |script| && After(link, script[..i]) == Link(StateOf(escape), lastPong, sent, end)
    {
      var e := script[i];
      assert script[..i + 1][..i] == script[..i];
      i := i + 1;
      match e.what {
        case Typed(input, sends) =>
          if escape == null {
            sent := sent + [Frame.Data(input)];
            end := if sends > 0 then None else Some(Lost(false));
          } else {
            var actions := escape.Process(input);
            end, sent := PerformActions(actions, e.size, sends, sent, StateOf(escape), lastPong);
          }
        case InputEof => end := Some(Exited(0));
        case InputFailed => end := Some(InputError);
        case InputNotReady => continue;
        case Incoming(frame) =>
          match frame {
            case Pong => lastPong := e.time;
            case Exit(code) => end := Some(Exited(code));
            case Detached => end := Some(Exited(0));
            case _ =>
          }
        case Disconnected => end := Some(Lost(false));
        case WindowChanged(sends) =>
          sent := sent + [Resize(e.size.cols, e.size.rows)];
          end := if sends > 0 then None else Some(Lost(false));
        case Tick(sends) =>
          if e.time > lastPong + HEARTBEAT_TIMEOUT {
            end := Some(Lost(true));
          } else {
            sent := sent + [Ping];
            end := if sends > 0 then None else Some(Lost(false));
          }
      }
    }
    EndStaysOr(link, script, i);
  }

  // ----- Reconnecting -----

  /**
   One try per second: whether Ctrl-C was read, whether connecting and sending the Attach request succeeded,
   and the first frame decoded from the answer, if the answer was not a bad frame or the end of the stream.
   */
  datatype Try = Try(ctrlC: bool, connects: bool, sends: bool, answer: Option<Frame>)

  datatype Retry = Interrupted | NoLuck | Reattached | SessionGone

  /** What a try comes to. Only Ok and Error are answers. */
  function Yields(t: Try): Retry {
    if t.ctrlC then Interrupted
    else if !t.connects || !t.sends then NoLuck
    else
      match t.answer
      case Some(Ok) => Reattached
      case Some(Error(_)) => SessionGone
      case _ => NoLuck
  }

  /** Try `k` is the first that settles the matter. */
  predicate SettledAt(tries: seq<Try>, k: nat) {
    k < |tries| && Yields(tries[k]) != NoLuck && forall i :: 0 <= i < k ==> Yields(tries[i]) == NoLuck
  }

  /** What comes of the first try that settles the matter. */
  function Settled(tries: seq<Try>): (r: Option<Retry>)
    ensures forall k: nat :: SettledAt(tries, k) ==> r == Some(Yields(tries[k]))
    ensures r.None? <==> forall k :: 0 <= k < |tries| ==> Yields(tries[k]) == NoLuck
  {
    if tries == [] then None
    else if Yields(tries[0]) == NoLuck then
      assert forall k: nat :: SettledAt(tries, k) ==> k > 0 && SettledAt(tries[1..], k - 1);
      assert forall k :: 0 < k < |tries| ==> tries[k] == tries[1..][k - 1];
      Settled(tries[1..])
    else Some(Yields(tries[0]))
  }

  /** One connection and, should it be lost, the tries that follow. */
  datatype Round = Round(size: Size, openSends: nat, start: nat, script: seq<ClientEvent>, tries: seq<Try>)

  datatype Status = Ongoing | Finished(code: i32) | Broken

  function Connection(escape: Option<EscapeState>, env: seq<(Str, Str)>, redraw: bool, round: Round): Link {
    After(Opened(escape, Opening(env, round.size, redraw), round.openSends, round.start), round.script)
  }

  /** How the client ends, what it sent on each connection, and the escape state it is left with. */
  datatype Life = Life(status: Status, connections: seq<seq<Frame>>, escape: Option<EscapeState>)

  function Live(escape: Option<EscapeState>, env: seq<(Str, Str)>, redraw: bool, rounds: seq<Round>): Life
    decreases |rounds|
  {
    if rounds == [] then Life(Ongoing, [], escape)
    else
      var link := Connection(escape, env, redraw, rounds[0]);
      match link.end
      case None => Life(Ongoing, [link.sent], link.escape)
      case Some(Exited(code)) => Life(Finished(code), [link.sent], link.escape)
      case Some(InputError) => Life(Broken, [link.sent], link.escape)
      case Some(Lost(_)) =>
        match Settled(rounds[0].tries)
        case None => Life(Ongoing, [link.sent], link.escape)
        case Some(Reattached) =>
          var rest := Live(link.escape, [], true, rounds[1..]);
          rest.(connections := [link.sent] + rest.connections)
        case Some(_) => Life(Finished(1), [link.sent], link.escape)
  }

  /** Having finished `done` connections, the client still has to live from round `k` on to give `whole`. */
  ghost predicate LivesOn(
    whole: Life, done: seq<seq<Frame>>, escape: Option<EscapeState>, env: seq<(Str, Str)>, redraw: bool,
    rounds: seq<Round>, k: nat)
    requires k <= |rounds|
  {
    var rest := Live(escape, env, redraw, rounds[k..]);
    whole == rest.(connections := done + rest.connections)
  }

  lemma LivesOnNext(
    whole: Life, done: seq<seq<Frame>>, escape: Option<EscapeState>, env: seq<(Str, Str)>, redraw: bool,
    rounds: seq<Round>, k: nat)
    requires k <= |rounds| && LivesOn(whole, done, escape, env, redraw, rounds, k)
    ensures
      if k == |rounds| then whole == Life(Ongoing, done, escape)
      else
        var link := Connection(escape, env, redraw, rounds[k]);
        var now := done + [link.sent];
        match link.end
        case None => whole == Life(Ongoing, now, link.escape)
        case Some(Exited(code)) => whole == Life(Finished(code), now, link.escape)
        case Some(InputError) => whole == Life(Broken, now, link.escape)
        case Some(Lost(_)) =>
          match Settled(rounds[k].tries)
          case None => whole == Life(Ongoing, now, link.escape)
          case Some(Reattached) => LivesOn(whole, now, link.escape, [], true, rounds, k + 1)
          case Some(_) => whole == Life(Finished(1), now, link.escape)
  {
    hide Connection;
    if k == |rounds| {
      assert done + [] == done;
    } else {
      assert rounds[k..][0] == rounds[k] && rounds[k..][1..] == rounds[k + 1..];
      var link := Connection(escape, env, redraw, rounds[k]);
      var later := Live(link.escape, [], true, rounds[k + 1..]).connections;
      assert done + ([link.sent] + later) == (done + [link.sent]) + later;
    }
  }

  /** The inner loop, one try per second, ends with the first try that settles the matter. */
  method Reconnect(tries: seq<Try>) returns (settled: Option<Retry>, k: nat)
    ensures match settled
            case Some(r) => SettledAt(tries, k) && r == Yields(tries[k])
            case None => k == |tries| && forall i :: 0 <= i < |tries| ==> Yields(tries[i]) == NoLuck
  {
    k := 0;
    while k < |tries|
      invariant k <= |tries| && forall i :: 0 <= i < k ==> Yields(tries[i]) == NoLuck
    {
      var t := tries[k];
      if t.ctrlC {
        return Some(Interrupted), k;
      }
      if t.connects && t.sends {
        match t.answer {
          case Some(Ok) => return Some(Reattached), k;
          case Some(Error(_)) => return Some(SessionGone), k;
          case _ =>
        }
      }
      k := k + 1;
    }
    return None, k;
  }

  /** `run`: the outer loop over connections. The environment is for the first one only. */
  method RunClient(env: seq<(Str, Str)>, redraw: bool, rounds: seq<Round>, escape: EscapeProcessor?)
    returns (status: Status, connections: seq<seq<Frame>>)
    modifies if escape == null then {} else {escape}
    ensures Life(status, connections, StateOf(escape)) == Live(old(StateOf(escape)), env, redraw, rounds)
  {
    var currentEnv, currentRedraw := env, redraw;
    connections := [];
    ghost var whole := Live(StateOf(escape), env, redraw, rounds);
    var k := 0;
    assert rounds[0..] == rounds && [] + whole.connections == whole.connections;
    assert LivesOn(whole, connections, StateOf(escape), currentEnv, currentRedraw, rounds, 0);
    hide Live, LivesOn, After, Opened, Opening;
    while k < |rounds|
      invariant k <= |rounds| && LivesOn(whole, connections, StateOf(escape), currentEnv, currentRedraw, rounds, k)
    {
      var round := rounds[k];
      LivesOnNext(whole, connections, StateOf(escape), currentEnv, currentRedraw, rounds, k);
      var end, sent := Relay(currentEnv, round.size, currentRedraw, round.openSends, round.start, round.script, escape);
      connections := connections + [sent];
      k := k + 1;
      match end {
        case None => return Ongoing, connections;
        case Some(Exited(code)) => return Finished(code), connections;
        case Some(InputError) => return Broken, connections;
        case Some(Lost(_)) =>
          currentEnv := [];
          var settled, at := Reconnect(round.tries);
          assert settled == Settled(round.tries);
          if settled.None? {
            return Ongoing, connections;
          }
          if settled != Some(Reattached) {
            return Finished(1), connections;
          }
          currentRedraw := true;
      }
    }
    LivesOnNext(whole, connections, StateOf(escape), currentEnv, currentRedraw, rounds, k);
    status := Ongoing;
  }
}
