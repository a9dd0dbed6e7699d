/**
 The session task of src/server.rs. `Step` is one turn of one of its awaits, as a state machine over
 events; `RunTask` is the task itself, with its nested accept and relay loops, driven by a script of
 events. What holds of every admissible script is proved in `SessionLaws`.

 Connections are numbers. The connection handed over by the channel is part of the `Recv` event.
 */
module Server {
  import opened Wrappers
  import opened Utf8
  import opened Protocol

  type Conn = nat

  const READ_BUFFER: nat := 4096

  /** What the daemon reads from the shared `SessionMetadata`. */
  datatype Metadata = Metadata(
    ptyPath: Str, shellPid: u32, createdAt: u64, attached: bool, lastHeartbeat: u64)

  datatype EndReason = ChannelClosed | ShellGone | SetupError | IoError | BadFrame | Aborted

  datatype Phase =
    | AwaitFirst                 // no client yet, no shell
    | ReadEnv(client: Conn)      // first client connected, its Env frame may come
    | Relay(client: Conn)
    | AwaitClient                // shell runs, nobody attached
    | Ended(why: EndReason)

  /** `env` is the environment the shell was spawned with, once it was. */
  datatype Session = Session(phase: Phase, meta: Option<Metadata>, env: Option<seq<(Str, Str)>>)

  /** An attempted send: the frame is handed to the connection whether or not the peer gets it. */
  datatype Send = Send(to: Conn, frame: Frame)

  /** What one write of a client's Data to the PTY came to: how much of it was taken, nothing, or an error. */
  datatype Write = Written(count: nat) | WouldBlock | WriteFailed

  datatype Spawned = Spawned(ptyPath: Str, shellPid: u32, createdAt: u64)

  /** `polled` is what `try_wait` says after the relay loop: no status yet, or the child's exit code if it has one. */
  datatype Event =
    | SetupFailed
    | Recv(client: Conn)
    | RecvClosed
    | FirstFrame(first: Option<Frame>, spawned: Option<Spawned>)
    | ClientFrame(frame: Frame, write: Write, now: u64)
    | ClientClosed
    | ClientFailed
    | PtyOutput(bytes: seq<byte>, sent: bool)
    | PtyNotReady
    | PtyEnd(polled: Option<Option<i32>>)
    | PtyFailed
    | ShellExit(status: Option<Option<i32>>, polled: Option<Option<i32>>)
    | Abort

  predicate WriteFits(frame: Frame, write: Write) {
    frame.Data? && write.Written? ==> write.count <= |frame.bytes|
  }

  predicate Enabled(s: Session, e: Event) {
    match s.phase
    case AwaitFirst => e.SetupFailed? || e.Recv? || e.RecvClosed? || e.Abort?
    case ReadEnv(_) => e.FirstFrame? || e.Abort?
    case Relay(_) =>
      || e.Recv? || e.RecvClosed? || e.ClientClosed? || e.ClientFailed?
      || (e.ClientFrame? && WriteFits(e.frame, e.write))
      || (e.PtyOutput? && 0 < |e.bytes| <= READ_BUFFER)
      || e.PtyNotReady? || e.PtyEnd? || e.PtyFailed? || e.ShellExit? || e.Abort?
    case AwaitClient => e.Recv? || e.RecvClosed? || e.ShellExit? || e.Abort?
    case Ended(_) => false
  }

  /** Anything but an Env frame in time leaves the environment alone, and is lost. */
  function EnvOf(first: Option<Frame>): seq<(Str, Str)> {
    match first
    case Some(Env(vars)) => vars
    case _ => []
  }

  function CodeOr(code: Option<i32>, default: i32): i32 {
    match code
    case Some(c) => c
    case None => default
  }

  /** The code in the Exit frame: a status polled after the loop wins over the loop's own. */
  function FinalCode(code: i32, polled: Option<Option<i32>>): i32 {
    match polled
    case Some(c) => CodeOr(c, code)
    case None => code
  }

  function End(s: Session, why: EndReason): Session {
    s.(phase := Ended(why))
  }

  function Mark(s: Session, attached: bool): Option<Metadata> {
    match s.meta
    case Some(m) => Some(m.(attached := attached))
    case None => None
  }

  function Beat(s: Session, now: u64): Option<Metadata> {
    match s.meta
    case Some(m) => Some(m.(lastHeartbeat := now))
    case None => None
  }

  /** One frame from the current client. */
  function Handle(s: Session, client: Conn, e: Event): (Session, seq<Send>)
    requires e.ClientFrame?
  {
    match e.frame
    case Data(_) => (if e.write.WriteFailed? then End(s, IoError) else s, [])
    case Ping => (s.(meta := Beat(s, e.now)), [Send(client, Pong)])
    case Exit(_) => (s.(phase := AwaitClient, meta := Mark(s, false)), [])
    case _ => (s, [])
  }

  function Step(s: Session, e: Event): (Session, seq<Send>)
    requires Enabled(s, e)
  {
    if e.Abort? then (End(s, Aborted), [])
    else
      match s.phase
      case AwaitFirst =>
        if e.Recv? then (s.(phase := ReadEnv(e.client)), [])
        else if e.RecvClosed? then (End(s, ChannelClosed), [])
        else (End(s, SetupError), [])
      case ReadEnv(client) =>
        (match e.spawned
         case None => (End(s, SetupError), [])
         case Some(m) =>
           (Session(Relay(client), Some(Metadata(m.ptyPath, m.shellPid, m.createdAt, true, 0)),
                    Some(EnvOf(e.first))), []))
      case Relay(client) =>
        (match e
         case Recv(next) => (s.(phase := Relay(next)), [Send(client, Detached)])
         case ClientFrame(_, _, _) => Handle(s, client, e)
         case ClientClosed => (s.(phase := AwaitClient, meta := Mark(s, false)), [])
         case ClientFailed => (End(s, BadFrame), [])
         case PtyOutput(bytes, sent) => (if sent then s else End(s, IoError), [Send(client, Data(bytes))])
         case PtyEnd(polled) => (End(s, ShellGone), [Send(client, Exit(FinalCode(0, polled)))])
         case PtyFailed => (End(s, IoError), [])
         case ShellExit(status, polled) =>
           (match status
            case None => (End(s, IoError), [])
            case Some(code) =>
              (End(s, ShellGone), [Send(client, Exit(FinalCode(CodeOr(code, 1), polled)))]))
         case _ => (s, []))
      case AwaitClient =>
        if e.Recv? then (s.(phase := Relay(e.client), meta := Mark(s, true)), [])
        else if e.RecvClosed? then (End(s, ChannelClosed), [])
        else if e.ShellExit? && e.status.Some? then (End(s, ShellGone), [])
        else (End(s, IoError), [])
      case Ended(_) => (s, [])
  }

  const FRESH: Session := Session(AwaitFirst, None, None)

  /** Every event was possible when it happened. */
  predicate Admissible(script: seq<Event>)
    decreases |script|, 0
  {
    script == [] ||
    (Admissible(script[..|script| - 1]) && Enabled(Run(script[..|script| - 1]).0, script[|script| - 1]))
  }

  function Run(script: seq<Event>): (Session, seq<Send>)
    requires Admissible(script)
    decreases |script|, 1
  {
    if script == [] then (FRESH, [])
    else
      var n := |script| - 1;
      var (s, sent) := Run(script[..n]);
      var (next, now) := Step(s, script[n]);
      (next, sent + now)
  }

  lemma {:induction false} AdmissiblePrefix(script: seq<Event>, n: nat)
    requires Admissible(script) && n <= |script|
    ensures Admissible(script[..n])
    ensures n < |script| ==>
      var (s, sent) := Run(script[..n]);
      && Enabled(s, script[n]) && Admissible(script[..n + 1])
      && Run(script[..n + 1]) == (Step(s, script[n]).0, sent + Step(s, script[n]).1)
    decreases |script| - n
  {
    if n == |script| {
      assert script[..n] == script;
    } else {
      AdmissiblePrefix(script, n + 1);
      assert script[..n + 1][..n] == script[..n];
    }
  }

  // ----- The task -----

  /** Shared with the daemon through an `Arc`; both flags are stored in place. */
  class SessionMetadata {
    const ptyPath: Str
    const shellPid: u32
    const createdAt: u64
    var attached: bool
    var lastHeartbeat: u64

    constructor (m: Spawned)
      ensures ptyPath == m.ptyPath && shellPid == m.shellPid && createdAt == m.createdAt
      ensures !attached && lastHeartbeat == 0
    {
      ptyPath, shellPid, createdAt := m.ptyPath, m.shellPid, m.createdAt;
      attached, lastHeartbeat := false, 0;
    }

    function Snapshot(): Metadata
      reads this
    {
      Metadata(ptyPath, shellPid, createdAt, attached, lastHeartbeat)
    }
  }

  datatype RelayExit =
    | ClientGone
    | ShellExited(code: i32, polled: Option<Option<i32>>)
    | Suspended
    | Stopped(why: EndReason)

  /**
   The inner loop: relays for `framed` until the client is gone, the shell has exited or something fails.
   `Suspended` means the script ran out while waiting.
   */
  method RelayLoop(script: seq<Event>, start: nat, first: Conn, meta: SessionMetadata,
                   env: seq<(Str, Str)>, soFar: seq<Send>)
    returns (exit: RelayExit, framed: Conn, i: nat, sent: seq<Send>)
    requires Admissible(script) && start <= |script| && Admissible(script[..start])
    requires Run(script[..start]) == (Session(Relay(first), Some(meta.Snapshot()), Some(env)), soFar)
    modifies meta
    ensures start <= i <= |script| && Admissible(script[..i])
    ensures meta.attached == old(meta.attached)
    ensures !exit.Suspended? ==> start < i
    ensures
      var view := Some(meta.Snapshot());
      match exit
      case Suspended => i == |script| && Run(script[..i]) == (Session(Relay(framed), view, Some(env)), sent)
      case ClientGone =>
        Run(script[..i]) == (Session(AwaitClient, Some(meta.Snapshot().(attached := false)), Some(env)), sent)
      case ShellExited(code, polled) =>
        Run(script[..i])
          == (Session(Ended(ShellGone), view, Some(env)), sent + [Send(framed, Exit(FinalCode(code, polled)))])
      case Stopped(why) => Run(script[..i]) == (Session(Ended(why), view, Some(env)), sent)
  {
    framed, i, sent := first, start, soFar;
    hide Run, Admissible, WriteFits;
    while i < |script|
      invariant start <= i <= |script| && Admissible(script[..i])
      invariant meta.attached == old(meta.attached)
      invariant Run(script[..i]) == (Session(Relay(framed), Some(meta.Snapshot()), Some(env)), sent)
    {
      AdmissiblePrefix(script, i);
      var e := script[i];
      i := i + 1;
      assert sent + [] == sent;
      match e {
        case ClientFrame(frame, write, now) =>
          match frame {
            case Data(_) =>
              match write {
                case Written(_) =>
                case WriteFailed => return Stopped(IoError), framed, i, sent;
                case WouldBlock => continue;
              }
            case Ping =>
              meta.lastHeartbeat := now;
              sent := sent + [Send(framed, Pong)];
            case Exit(_) => return ClientGone, framed, i, sent;
            case _ =>
          }
        case ClientClosed => return ClientGone, framed, i, sent;
        case ClientFailed => return Stopped(BadFrame), framed, i, sent;
        case PtyOutput(bytes, ok) =>
          sent := sent + [Send(framed, Data(bytes))];
          if !ok {
            return Stopped(IoError), framed, i, sent;
          }
        case PtyNotReady => continue;
        case PtyEnd(polled) => return ShellExited(0, polled), framed, i, sent;
        case PtyFailed => return Stopped(IoError), framed, i, sent;
        case Recv(next) =>
          sent := sent + [Send(framed, Detached)];
          framed := next;
        case RecvClosed =>
        case ShellExit(status, polled) =>
          if status.None? {
            return Stopped(IoError), framed, i, sent;
          }
          return ShellExited(CodeOr(status.value, 1), polled), framed, i, sent;
        case _ => return Stopped(Aborted), framed, i, sent;
      }
    }
    exit := Suspended;
  }

  /** Nothing happens after the end. */
  lemma EndedIsLast(script: seq<Event>, n: nat)
    requires Admissible(script) && n <= |script| && Admissible(script[..n]) && Run(script[..n]).0.phase.Ended?
    ensures n == |script| && script[..n] == script
  {
    AdmissiblePrefix(script, n);
  }

  /** The outer loop: the shell outlives its clients. The first client is already connected. */
  method AcceptLoop(script: seq<Event>, start: nat, first: Conn, meta: SessionMetadata, env: seq<(Str, Str)>)
    returns (session: Session, sent: seq<Send>)
    requires Admissible(script) && start <= |script| && Admissible(script[..start]) && meta.attached
    requires Run(script[..start]) == (Session(Relay(first), Some(meta.Snapshot()), Some(env)), [])
    modifies meta
    ensures (session, sent) == Run(script)
  {
    hide Run, Admissible;
    var framed, i, firstClient := first, start, true;
    sent := [];
    while true
      invariant i <= |script| && Admissible(script[..i])
      invariant meta.attached == firstClient
      invariant Run(script[..i])
             == (Session(if firstClient then Relay(framed) else AwaitClient, Some(meta.Snapshot()), Some(env)), sent)
      decreases |script| - i, firstClient
    {
      if !firstClient {
        if i == |script| {
          assert script[..i] == script;
          return Session(AwaitClient, Some(meta.Snapshot()), Some(env)), sent;
        }
        AdmissiblePrefix(script, i);
        assert sent + [] == sent;
        i := i + 1;
        var e := script[i - 1];
        if !e.Recv? {
          EndedIsLast(script, i);
          return Session(Ended(if e.RecvClosed? then ChannelClosed
                               else if e.Abort? then Aborted
                               else if e.ShellExit? && e.status.Some? then ShellGone else IoError),
                         Some(meta.Snapshot()), Some(env)), sent;
        }
        framed := e.client;
        meta.attached := true;
      }
      firstClient := false;

      var exit;
      exit, framed, i, sent := RelayLoop(script, i, framed, meta, env, sent);
      match exit {
        case Suspended =>
          assert script[..i] == script;
          return Session(Relay(framed), Some(meta.Snapshot()), Some(env)), sent;
        case ClientGone =>
          meta.attached := false;
        case ShellExited(code, polled) =>
          sent := sent + [Send(framed, Exit(FinalCode(code, polled)))];
          EndedIsLast(script, i);
          return Session(Ended(ShellGone), Some(meta.Snapshot()), Some(env)), sent;
        case Stopped(why) =>
          EndedIsLast(script, i);
          return Session(Ended(why), Some(meta.Snapshot()), Some(env)), sent;
      }
    }
  }

  /** The whole task. It does on every script what the state machine does. */
  method RunTask(script: seq<Event>) returns (session: Session, sent: seq<Send>)
    requires Admissible(script)
    ensures (session, sent) == Run(script)
  {
    assert script[..0] == [] && Run([]) == (FRESH, []);
    AdmissiblePrefix(script, 0);
    hide Run, Admissible;
    if |script| == 0 {
      return FRESH, [];
    }
    // Wait for the first client before spawning the shell.
    assert [] + Step(FRESH, script[0]).1 == [];
    var e := script[0];
    if !e.Recv? {
      EndedIsLast(script, 1);
      return End(FRESH, if e.RecvClosed? then ChannelClosed else if e.Abort? then Aborted else SetupError), [];
    }
    var framed := e.client;
    assert Run(script[..1]) == (Session(ReadEnv(framed), None, None), []);
    AdmissiblePrefix(script, 1);
    if |script| == 1 {
      assert script[..1] == script;
      return Session(ReadEnv(framed), None, None), [];
    }
    e := script[1];
    assert [] + Step(Run(script[..1]).0, e).1 == [];
    if e.Abort? || e.spawned.None? {
      EndedIsLast(script, 2);
      return End(FRESH, if e.Abort? then Aborted else SetupError), [];
    }
    var env := [];
    match e.first {
      case Some(Env(vars)) => env := vars;
      case _ =>
    }
    var meta := new SessionMetadata(e.spawned.value);
    meta.attached := true;
    session, sent := AcceptLoop(script, 2, framed, meta, env);
  }
}
