/**
 The daemon and its session tasks together. Requests, session turns, disconnects, shell exits and
 aborts interleave freely; `wire` is the global log of every frame attempted on any connection.
 */
module System {
  import opened Wrappers
  import opened Decimal
  import opened Protocol
  import opened Server
  import opened Daemon

  /** Where the daemon's loop stands. `HandingOff` is the await of the reply before the connection is passed on. */
  datatype Pc =
    | Reaping
    | Listening
    | Serving(conn: Conn)
    | HandingOff(conn: Conn, sid: nat)
    | Down

  /** A frame attempted on connection `to`, by the daemon (`None`) or by a session. */
  datatype Attempt = Attempt(from: Option<nat>, to: Conn, frame: Frame)

  datatype State = State(
    pc: Pc,
    reg: Registry,
    sessions: map<nat, Session>,    // every session ever spawned, by id
    queues: map<nat, seq<Conn>>,    // the channels
    finished: set<nat>,             // tasks whose handle reports completion
    aborting: set<nat>,             // tasks the daemon has asked to stop
    accepted: nat,                  // connections are numbered as they are accepted
    requests: map<Conn, Frame>,
    wire: seq<Attempt>)

  const INITIAL: State := State(Reaping, EMPTY, map[], map[], {}, {}, 0, map[], [])

  datatype SysEvent =
    | ReapTable
    | Accept(trusted: bool)
    | NoRequest                       // the connection closed or sent garbage first
    | Request(frame: Frame)
    | HandOff
    | Signal
    | ListenerFailed
    | Turn(sid: nat, event: Event)
    | TaskDone(sid: nat)

  predicate HasEnded(s: State, sid: nat) {
    sid in s.sessions && s.sessions[sid].phase.Ended?
  }

  function SightOf(s: State): Sight {
    Sight(s.finished,
          set sid | sid in s.sessions && s.sessions[sid].phase.Ended?,
          map sid | sid in s.sessions :: s.sessions[sid].meta)
  }

  /** The channel yields its first connection; it is closed once the daemon has dropped the sender and it is empty. */
  predicate TurnEnabled(s: State, sid: nat, e: Event) {
    && sid in s.sessions && sid in s.queues && Enabled(s.sessions[sid], e)
    && (e.Recv? ==> s.queues[sid] != [] && s.queues[sid][0] == e.client)
    && (e.RecvClosed? ==> s.queues[sid] == [] && sid !in s.reg.table)
    && (e.Abort? ==> sid in s.aborting)
  }

  predicate Possible(s: State, e: SysEvent) {
    match e
    case ReapTable => s.pc.Reaping?
    case Accept(_) => s.pc.Listening?
    case NoRequest => s.pc.Serving?
    case Request(f) => s.pc.Serving? && (f.NewSession? ==> s.reg.nextId < U32_MAX)
    case HandOff => s.pc.HandingOff?
    case Signal => s.pc.Listening?
    case ListenerFailed => s.pc.Listening?
    case Turn(sid, event) => TurnEnabled(s, sid, event)
    case TaskDone(sid) => HasEnded(s, sid) && sid !in s.finished
  }

  ghost function DoRequest(s: State, f: Frame): State
    requires s.pc.Serving?
  {
    var conn := s.pc.conn;
    var (reg, outcome) := Serve(s.reg, f, SightOf(s));
    var created := outcome.reply.SessionCreated?;
    s.(pc := if outcome.stop then Down
             else match outcome.handTo
               case Some(sid) => HandingOff(conn, sid)
               case None => Reaping,
       reg := reg,
       sessions := if created then s.sessions[s.reg.nextId := FRESH] else s.sessions,
       queues := if created then s.queues[s.reg.nextId := []] else s.queues,
       aborting := s.aborting + outcome.aborted,
       requests := s.requests[conn := f],
       wire := s.wire + [Attempt(None, conn, outcome.reply)])
  }

  /** Passing a connection to a session that is gone drops it. */
  function DoHandOff(s: State): State
    requires s.pc.HandingOff?
  {
    var sid := s.pc.sid;
    if sid !in s.queues || HasEnded(s, sid) then s.(pc := Reaping)
    else s.(pc := Reaping, queues := s.queues[sid := s.queues[sid] + [s.pc.conn]])
  }

  function Attempts(sid: nat, sent: seq<Send>): (r: seq<Attempt>)
    ensures |r| == |sent|
    ensures forall i :: 0 <= i < |sent| ==> r[i] == Attempt(Some(sid), sent[i].to, sent[i].frame)
  {
    seq(|sent|, i requires 0 <= i < |sent| => Attempt(Some(sid), sent[i].to, sent[i].frame))
  }

  /** A finished task drops its channel with everything in it. */
  function DoTurn(s: State, sid: nat, e: Event): State
    requires TurnEnabled(s, sid, e)
  {
    var (next, sent) := Step(s.sessions[sid], e);
    var queue := if next.phase.Ended? then [] else if e.Recv? then s.queues[sid][1..] else s.queues[sid];
    s.(sessions := s.sessions[sid := next],
       queues := s.queues[sid := queue],
       wire := s.wire + Attempts(sid, sent))
  }

  ghost function Next(s: State, e: SysEvent): State
    requires Possible(s, e)
  {
    match e
    case ReapTable => s.(pc := Listening, reg := s.reg.(table := Reap(s.reg.table, s.finished)))
    case Accept(trusted) => s.(pc := if trusted then Serving(s.accepted) else Reaping, accepted := s.accepted + 1)
    case NoRequest => s.(pc := Reaping)
    case Request(f) => DoRequest(s, f)
    case HandOff => DoHandOff(s)
    case Signal => s.(pc := Down, reg := s.reg.(table := map[]), aborting := s.aborting + s.reg.table.Keys)
    case ListenerFailed => s.(pc := Down, reg := s.reg.(table := map[]))
    case Turn(sid, event) => DoTurn(s, sid, event)
    case TaskDone(sid) => s.(finished := s.finished + {sid})
  }

  ghost predicate Feasible(events: seq<SysEvent>)
    decreases |events|, 0
  {
    events == [] ||
    (Feasible(events[..|events| - 1]) && Possible(After(events[..|events| - 1]), events[|events| - 1]))
  }

  ghost function After(events: seq<SysEvent>): State
    requires Feasible(events)
    decreases |events|, 1
  {
    if events == [] then INITIAL
    else Next(After(events[..|events| - 1]), events[|events| - 1])
  }
}
