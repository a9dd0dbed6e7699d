/**
 src/connect.rs: the destination parser and its printer, and the monitor that respawns the tunnel
 until it fails too fast.
 */
module Connect {
  import opened Wrappers
  import opened Sequences
  import opened Utf8
  import opened Text
  import opened Decimal
  import opened Protocol

  // ----- Destinations -----

  const AT: byte := 64
  const COLON: byte := 58

  datatype Destination = Destination(user: Option<Str>, host: Str, port: Option<u16>)

  datatype DestinationError = EmptyDestination | EmptyUser | InvalidPort | EmptyHost

  function ParseHost(user: Option<Str>, remainder: Str): (r: Result<Destination, DestinationError>) {
    var end := FindLast(remainder, COLON);
    if end > 0 then
      ValidSplit(remainder, end - 1);
      match Parse(remainder[end..], U16_MAX)
      case None => Failure(InvalidPort)
      case Some(p) =>
        var host := remainder[..end - 1];
        if host == [] then Failure(EmptyHost) else Success(Destination(user, host, Some(p)))
    else if remainder == [] then Failure(EmptyHost)
    else Success(Destination(user, remainder, None))
  }

  function ParseDestination(s: Str): (r: Result<Destination, DestinationError>) {
    if s == [] then Failure(EmptyDestination)
    else
      var at := Find(s, AT);
      if at < |s| then
        ValidSplit(s, at);
        if at == 0 then Failure(EmptyUser) else ParseHost(Some(s[..at]), s[at + 1..])
      else ParseHost(None, s)
  }

  /** `user@host`, or just `host`: what ssh is given. */
  function SshDest(d: Destination): (s: Str) {
    match d.user
    case Some(u) =>
      AsciiValid([AT]);
      ValidConcat(u, [AT]);
      ValidConcat(u + [AT], d.host);
      u + [AT] + d.host
    case None => d.host
  }

  const PORT_FLAG: seq<byte> := [45, 112]

  /** `-p <port>`, if there is a port. */
  function PortArgs(d: Destination): (args: seq<Str>)
    ensures |args| == if d.port.Some? then 2 else 0
  {
    AsciiValid(PORT_FLAG);
    match d.port
    case Some(p) => [PORT_FLAG, Print(p)]
    case None => []
  }

  /** The destination as a user would write it. */
  function Render(d: Destination): (s: Str) {
    var args := PortArgs(d);
    if d.port.None? then SshDest(d)
    else
      AsciiValid([COLON]);
      ValidConcat(SshDest(d), [COLON]);
      ValidConcat(SshDest(d) + [COLON], args[1]);
      SshDest(d) + [COLON] + args[1]
  }

  /** `rest` is the host, and a colon and the port's number if there is one; it is cut at the last colon. */
  predicate HostPart(rest: seq<byte>, d: Destination) {
    && d.host != []
    && match d.port
       case None => rest == d.host && 0x3A !in rest
       case Some(p) =>
         var n := |d.host|;
         && |rest| > n && rest[..n] == d.host && rest[n] == 0x3A
         && 0x3A !in rest[n + 1..] && Numeral(rest[n + 1..], p)
  }

  /** `s` says `d`: the user before the first `@`, not empty, if there is an `@`, and the host part after it. */
  predicate Describes(s: seq<byte>, d: Destination) {
    match d.user
    case Some(u) =>
      var n := |u|;
      && n > 0 && 0x40 !in u && |s| > n && s[..n] == u && s[n] == 0x40 && HostPart(s[n + 1..], d)
    case None => 0x40 !in s && HostPart(s, d)
  }

  lemma HostExactly(user: Option<Str>, rest: Str, d: Destination)
    ensures ParseHost(user, rest) == Success(d) <==> d.user == user && HostPart(rest, d)
  {
    hide Valid, Numeral, Parse, Value, FindLast;
    var end := FindLast(rest, COLON);
    if end > 0 {
      ValidSplit(rest, end - 1);
      if d.port.Some? {
        ParseExact(rest[end..], U16_MAX, d.port.value);
        if HostPart(rest, d) {
          Around(rest, |d.host|);
          FindLastUnique(d.host, COLON, rest[|d.host| + 1..]);
        }
      }
    }
  }

  lemma NoUser(s: Str, d: Destination)
    requires AT !in s
    ensures ParseDestination(s) == Success(d) <==> Describes(s, d)
  {
    assert !HostPart([], d);
    hide ParseHost, HostPart, Valid;
    HostExactly(None, s, d);
  }

  lemma UserIsFirst(s: seq<byte>, u: seq<byte>, v: seq<byte>)
    requires |u| < |s| && s[..|u|] == u && s[|u|] == AT && AT !in u
    requires |v| < |s| && s[..|v|] == v && s[|v|] == AT && AT !in v
    ensures u == v
  {
    hide Find;
    Around(s, |u|);
    Around(s, |v|);
    FindUnique(u, AT, s[|u| + 1..]);
    FindUnique(v, AT, s[|v| + 1..]);
  }

  lemma SaysUser(s: seq<byte>, u: Str, d: Destination)
    requires |u| < |s| && s[..|u|] == u && s[|u|] == AT && AT !in u
    ensures Describes(s, d) <==> u != [] && d.user == Some(u) && HostPart(s[|u| + 1..], d)
  {
    hide HostPart, Valid;
    if d.user.Some? && Describes(s, d) {
      UserIsFirst(s, u, d.user.value);
    }
  }

  lemma CutAtUser(s: Str, u: Str, rest: Str)
    requires AT !in u && s == u + [AT] + rest
    ensures ParseDestination(s) == if u == [] then Failure(EmptyUser) else ParseHost(Some(u), rest)
  {
    hide ParseHost, Valid;
    FindUnique(u, AT, rest);
    assert s[..|u|] == u && s[|u| + 1..] == rest;
  }

  lemma SomeUser(s: Str, d: Destination)
    requires AT in s
    ensures ParseDestination(s) == Success(d) <==> Describes(s, d)
  {
    hide ParseHost, HostPart, Valid, Describes, ParseDestination;
    var at := Find(s, AT);
    ValidSplit(s, at);
    var u, rest := s[..at], s[at + 1..];
    Around(s, at);
    CutAtUser(s, u, rest);
    SaysUser(s, u, d);
    HostExactly(Some(u), rest, d);
  }

  /** Exactly the strings that say a destination are accepted, as that destination. */
  lemma ParseExactly(s: Str, d: Destination)
    ensures ParseDestination(s) == Success(d) <==> Describes(s, d)
  {
    hide ParseDestination, Describes, Valid;
    if AT in s {
      SomeUser(s, d);
    } else {
      NoUser(s, d);
    }
  }

  /** `s` is written as `front`, and a colon with text for the port if there is one. */
  predicate WrittenAs(s: seq<byte>, front: seq<byte>, port: Option<u16>, text: seq<byte>) {
    match port
    case None => s == front
    case Some(p) => s == front + [0x3A] + text && Numeral(text, p)
  }

  /** `-p` and the port in digits, if there is one. */
  predicate NamesPort(args: seq<Str>, port: Option<u16>) {
    match port
    case None => args == []
    case Some(p) =>
      && |args| == 2 && args[0] == [0x2D, 0x70]
      && (forall b :: b in args[1] ==> 0x30 <= b <= 0x39) && Numeral(args[1], p)
  }

  lemma PortNamed(d: Destination)
    ensures NamesPort(PortArgs(d), d.port)
  {
    hide Numeral;
    if d.port.Some? {
      PrintExact(d.port.value);
    }
  }

  lemma HostWritten(rest: seq<byte>, d: Destination) returns (text: seq<byte>)
    requires HostPart(rest, d)
    ensures WrittenAs(rest, d.host, d.port, text)
  {
    hide Numeral, Valid;
    text := [];
    if d.port.Some? {
      text := rest[|d.host| + 1..];
      Around(rest, |d.host|);
    }
  }

  lemma WrittenAfter(prefix: seq<byte>, s: seq<byte>, front: seq<byte>, port: Option<u16>, text: seq<byte>)
    requires WrittenAs(s, front, port, text)
    ensures WrittenAs(prefix + s, prefix + front, port, text)
  {
    hide Numeral;
    assert port.Some? ==> prefix + s == prefix + front + [0x3A] + text;
  }

  lemma DescribedWritten(s: seq<byte>, d: Destination) returns (text: seq<byte>)
    requires Describes(s, d)
    ensures WrittenAs(s, SshDest(d), d.port, text)
  {
    hide HostPart, WrittenAs, Valid;
    match d.user {
      case None => text := HostWritten(s, d);
      case Some(u) =>
        text := HostWritten(s[|u| + 1..], d);
        WrittenAfter(u + [AT], s[|u| + 1..], d.host, d.port, text);
        Around(s, |u|);
    }
  }

  /**
   An accepted string is its ssh destination and, if there is a port, a colon and text that means it; ssh is given that
   destination and that port.
   */
  lemma ParseSound(s: Str)
    requires ParseDestination(s).Success?
    ensures var d := ParseDestination(s).value;
            NamesPort(PortArgs(d), d.port) && exists text :: WrittenAs(s, SshDest(d), d.port, text)
  {
    var d := ParseDestination(s).value;
    hide ParseDestination, Describes, WrittenAs, Valid, NamesPort, PortArgs;
    PortNamed(d);
    ParseExactly(s, d);
    var text := DescribedWritten(s, d);
  }

  /** Text that no port has: not a number, or one over 65535. */
  predicate NoPort(text: seq<byte>) {
    forall p :: 0 <= p <= 65535 ==> !Numeral(text, p)
  }

  lemma NoPortExactly(text: seq<byte>)
    ensures NoPort(text) <==> Parse(text, U16_MAX) == None
  {
    hide Numeral, Parse;
    forall p: nat ensures Parse(text, U16_MAX) == Some(p) <==> Numeral(text, p) && p <= 65535 {
      ParseExact(text, U16_MAX, p);
    }
    if Parse(text, U16_MAX).Some? {
      assert Numeral(text, Parse(text, U16_MAX).value);
    }
  }

  lemma LastColon(rest: seq<byte>, i: nat)
    requires i < |rest| && rest[i] == 0x3A && 0x3A !in rest[i + 1..]
    ensures FindLast(rest, COLON) == i + 1
  {
    hide FindLast;
    Around(rest, i);
    FindLastUnique(rest[..i], COLON, rest[i + 1..]);
  }

  lemma HostRefused(user: Option<Str>, rest: Str)
    ensures ParseHost(user, rest) == Failure(InvalidPort) <==>
      exists i :: 0 <= i < |rest| && rest[i] == 0x3A && 0x3A !in rest[i + 1..] && NoPort(rest[i + 1..])
    ensures ParseHost(user, rest) == Failure(EmptyHost) <==>
      rest == [] || (rest[0] == 0x3A && 0x3A !in rest[1..] && !NoPort(rest[1..]))
    ensures ParseHost(user, rest).Failure? ==> ParseHost(user, rest).error in {InvalidPort, EmptyHost}
  {
    hide Valid, Parse, FindLast, NoPort;
    NoPortExactly(rest[FindLast(rest, COLON)..]);
    forall i | 0 <= i < |rest| && rest[i] == 0x3A && 0x3A !in rest[i + 1..] ensures FindLast(rest, COLON) == i + 1 {
      LastColon(rest, i);
    }
  }

  /** Why anything else is refused, given where its user ends. The port is looked at before the host. */
  lemma WhyRefused(s: Str, user: Option<Str>, rest: Str)
    requires match user case Some(u) => 0x40 !in u && s == u + [0x40] + rest case None => 0x40 !in s && s == rest
    ensures ParseDestination(s) == Failure(EmptyDestination) <==> s == []
    ensures ParseDestination(s) == Failure(EmptyUser) <==> user == Some([])
    ensures s != [] && user != Some([]) ==>
      && (ParseDestination(s) == Failure(InvalidPort) <==>
            exists i :: 0 <= i < |rest| && rest[i] == 0x3A && 0x3A !in rest[i + 1..] && NoPort(rest[i + 1..]))
      && (ParseDestination(s) == Failure(EmptyHost) <==>
            rest == [] || (rest[0] == 0x3A && 0x3A !in rest[1..] && !NoPort(rest[1..])))
  {
    hide Valid, NoPort, ParseHost;
    HostRefused(user, rest);
    if user.Some? {
      hide ParseDestination;
      CutAtUser(s, user.value, rest);
    }
  }

  predicate Writable(d: Destination) {
    && d.host != []
    && (match d.user case Some(u) => u != [] && AT !in u case None => AT !in d.host)
    && (d.port.None? ==> COLON !in d.host)
  }

  lemma PortTextLacks(port: Option<u16>)
    ensures port.Some? ==> COLON !in Print(port.value) && AT !in Print(port.value)
  {
  }

  /** What follows the user. */
  function HostText(d: Destination): Str {
    Render(d.(user := None))
  }

  lemma RenderSplits(d: Destination)
    ensures Render(d) == match d.user case Some(u) => u + [AT] + HostText(d) case None => HostText(d)
    ensures AT !in d.host ==> AT !in HostText(d)
    ensures d.host != [] ==> HostText(d) != []
  {
    PortTextLacks(d.port);
    hide Valid, Print;
  }

  lemma HostParses(d: Destination)
    requires d.host != [] && (d.port.None? ==> COLON !in d.host)
    ensures ParseHost(d.user, HostText(d)) == Success(d)
  {
    var remainder := HostText(d);
    if d.port.Some? {
      var text := Print(d.port.value);
      PortTextLacks(d.port);
      FindLastUnique(d.host, COLON, text);
      assert remainder[..|d.host|] == d.host && remainder[|d.host| + 1..] == text;
      ParsePrint(d.port.value, U16_MAX);
    }
  }

  lemma WritableParses(d: Destination)
    requires Writable(d)
    ensures ParseDestination(Render(d)) == Success(d)
  {
    HostParses(d);
    RenderSplits(d);
    hide ParseHost, HostText, Render, Valid;
    if d.user.Some? {
      hide ParseDestination;
      CutAtUser(Render(d), d.user.value, HostText(d));
    } else {
      assert Find(Render(d), AT) == |Render(d)|;
    }
  }

  lemma ParsedIsWritable(s: Str)
    requires ParseDestination(s).Success?
    ensures Writable(ParseDestination(s).value)
  {
    var at := Find(s, AT);
    var remainder := if at < |s| then s[at + 1..] else s;
    var end := FindLast(remainder, COLON);
    assert forall b :: end > 0 && b in remainder[..end - 1] ==> b in remainder;
  }

  /** Exactly the writable destinations are recovered from their printed form, colons in the host included. */
  lemma RenderParses(d: Destination)
    ensures ParseDestination(Render(d)) == Success(d) <==> Writable(d)
  {
    hide ParseDestination, Render, Writable, Valid;
    if Writable(d) {
      WritableParses(d);
    } else if ParseDestination(Render(d)) == Success(d) {
      ParsedIsWritable(Render(d));
    }
  }

  // ----- The tunnel monitor -----

  /** Times are nanoseconds of the monotonic clock. */
  const WINDOW: nat := 10_000_000_000
  const MAX_EXITS: nat := 5

  /** What ends one wait for the ssh child: its exit (with a code, or killed by a signal) and what follows. */
  datatype Wakeup =
    | Cancelled
    | WaitFailed
    | Exited(code: Option<int>, time: nat, stoppedBefore: bool, stoppedAfter: bool, respawned: bool)

  datatype Verdict = Running | Stopped | WaitError | NotRetried(code: int) | TooFast | RespawnFailed

  predicate Retryable(w: Wakeup) {
    w.Exited? && !w.stoppedBefore && (w.code.None? || w.code == Some(255))
  }

  /** The exits of `times` less than ten seconds before `now`. */
  function Recent(times: seq<nat>, now: nat): (r: seq<nat>)
    ensures |r| <= |times|
  {
    if times == [] then []
    else if now < times[0] + WINDOW then [times[0]] + Recent(times[1..], now)
    else Recent(times[1..], now)
  }

  /** The full history of retryable exits. */
  function Exits(script: seq<Wakeup>): (times: seq<nat>) {
    if script == [] then []
    else
      var n := |script| - 1;
      Exits(script[..n]) + if Retryable(script[n]) then [script[n].time] else []
  }

  /** What the monitor decides on its last wakeup, judged against the whole history. */
  function Judge(history: seq<nat>, w: Wakeup): Verdict {
    match w
    case Cancelled => Stopped
    case WaitFailed => WaitError
    case Exited(code, now, stoppedBefore, stoppedAfter, respawned) =>
      if stoppedBefore then Stopped
      else if code.Some? && code.value != 255 then NotRetried(code.value)
      else if |Recent(history, now)| >= MAX_EXITS then TooFast
      else if stoppedAfter then Stopped
      else if !respawned then RespawnFailed
      else Running
  }

  /** The clock is monotonic: exit times do not decrease. */
  predicate Clocked(script: seq<Wakeup>) {
    forall i, j :: 0 <= i < j < |script| && script[i].Exited? && script[j].Exited? ==> script[i].time <= script[j].time
  }

  /** The monitor is still alive after every wakeup of `script`. */
  predicate Survives(script: seq<Wakeup>) {
    forall i :: 0 <= i < |script| ==> Judge(Exits(script[..i + 1]), script[i]) == Running
  }

  function LastExit(script: seq<Wakeup>): nat {
    if script == [] then 0
    else
      var w := script[|script| - 1];
      if w.Exited? then w.time else LastExit(script[..|script| - 1])
  }

  /** Everything later decisions can need: for every later time, the pruned stamps give the recent exits. */
  ghost predicate Summarizes(exitTimes: seq<nat>, script: seq<Wakeup>) {
    forall now :: LastExit(script) <= now ==> Recent(exitTimes, now) == Recent(Exits(script), now)
  }

  lemma {:induction false} RecentConcat(a: seq<nat>, b: seq<nat>, now: nat)
    ensures Recent(a + b, now) == Recent(a, now) + Recent(b, now)
    decreases |a|
  {
    if a == [] {
      assert a + b == b;
    } else {
      assert (a + b)[1..] == a[1..] + b;
      RecentConcat(a[1..], b, now);
    }
  }

  /** What is old stays old. */
  lemma {:induction false} RecentTwice(times: seq<nat>, now: nat, later: nat)
    requires now <= later
    ensures Recent(Recent(times, now), later) == Recent(times, later)
    decreases |times|
  {
    if times == [] {
    } else {
      RecentTwice(times[1..], now, later);
    }
  }

  lemma {:induction false} LastExitBound(script: seq<Wakeup>, w: Wakeup)
    requires Clocked(script + [w]) && w.Exited?
    ensures LastExit(script) <= w.time
    decreases |script|
  {
    if script == [] {
    } else {
      var n := |script| - 1;
      var s := script + [w];
      assert s[n] == script[n] && s[n + 1] == w;
      if !script[n].Exited? {
        assert Clocked(script[..n] + [w]) by {
          var t := script[..n] + [w];
          forall i, j | 0 <= i < j < |t| && t[i].Exited? && t[j].Exited? ensures t[i].time <= t[j].time {
            assert t[i] == s[i] && t[j] == s[if j == n then n + 1 else j];
          }
        }
        LastExitBound(script[..n], w);
      }
    }
  }

  lemma PruneStep(exitTimes: seq<nat>, before: seq<Wakeup>, w: Wakeup)
    requires Clocked(before + [w]) && Retryable(w) && Summarizes(exitTimes, before)
    ensures var kept := Recent(exitTimes + [w.time], w.time);
            Summarizes(kept, before + [w]) && kept == Recent(Exits(before + [w]), w.time)
  {
    LastExitBound(before, w);
    var s := before + [w];
    assert s[..|s| - 1] == before;
    var kept := Recent(exitTimes + [w.time], w.time);
    forall now | w.time <= now
      ensures Recent(exitTimes + [w.time], now) == Recent(Exits(s), now) && Recent(kept, now) == Recent(Exits(s), now)
    {
      RecentConcat(exitTimes, [w.time], now);
      RecentConcat(Exits(before), [w.time], now);
      RecentTwice(exitTimes + [w.time], w.time, now);
    }
  }

  lemma SurvivesStep(before: seq<Wakeup>, w: Wakeup)
    requires Survives(before) && Judge(Exits(before + [w]), w) == Running
    ensures Survives(before + [w])
  {
    hide Judge, Exits;
    var s := before + [w];
    forall i | 0 <= i < |s| ensures Judge(Exits(s[..i + 1]), s[i]) == Running {
      if i < |before| {
        assert s[..i + 1] == before[..i + 1] && s[i] == before[i];
      } else {
        assert s[..i + 1] == s;
      }
    }
  }

  /**
   The monitor's loop. Its pruned `exitTimes` decides exactly as the full history would: it ends at the
   first wakeup the history condemns, and a live monitor remembers at most four exits.
   */
  method TunnelMonitor(script: seq<Wakeup>) returns (verdict: Verdict, handled: nat, exitTimes: seq<nat>)
    requires Clocked(script)
    ensures handled <= |script|
    ensures verdict.Running? ==> handled == |script| && Survives(script) && |exitTimes| < MAX_EXITS
    ensures !verdict.Running? ==>
      && 0 < handled && Survives(script[..handled - 1])
      && verdict == Judge(Exits(script[..handled]), script[handled - 1])
  {
    exitTimes := [];
    verdict := Running;
    handled := 0;
    while handled < |script|
      invariant handled <= |script| && verdict.Running?
      invariant Survives(script[..handled])
      invariant |exitTimes| < MAX_EXITS
      invariant Summarizes(exitTimes, script[..handled])
    {
      var w := script[handled];
      ghost var before := script[..handled];
      handled := handled + 1;
      assert script[..handled] == before + [w];
      assert script[..handled][..handled - 1] == before;
      match w {
        case Cancelled => return Stopped, handled, exitTimes;
        case WaitFailed => return WaitError, handled, exitTimes;
        case Exited(code, now, stoppedBefore, stoppedAfter, respawned) =>
          if stoppedBefore {
            return Stopped, handled, exitTimes;
          }
          if code.Some? && code.value != 255 {
            return NotRetried(code.value), handled, exitTimes;
          }
          PruneStep(exitTimes, before, w);
          exitTimes := exitTimes + [now];
          exitTimes := Recent(exitTimes, now);
          assert exitTimes == Recent(Exits(script[..handled]), now);
          if |exitTimes| >= MAX_EXITS {
            return TooFast, handled, exitTimes;
          }
          if stoppedAfter {
            return Stopped, handled, exitTimes;
          }
          if !respawned {
            return RespawnFailed, handled, exitTimes;
          }
          SurvivesStep(before, w);
      }
    }
    assert script[..handled] == script;
  }

  // ----- How often a surviving tunnel can fail -----

  function Count(times: seq<nat>, lo: int, hi: int): (n: nat)
    ensures n <= |times|
  {
    if times == [] then 0
    else
      var n := |times| - 1;
      Count(times[..n], lo, hi) + if lo <= times[n] <= hi then 1 else 0
  }

  lemma {:induction false} CountSplit(times: seq<nat>, lo: int, mid: int, hi: int)
    requires lo <= mid + 1 && mid <= hi
    ensures Count(times, lo, hi) == Count(times, lo, mid) + Count(times, mid + 1, hi)
  {
    if times == [] {
    } else {
      CountSplit(times[..|times| - 1], lo, mid, hi);
    }
  }

  lemma {:induction false} CountWider(times: seq<nat>, lo: int, lower: int, hi: int)
    requires lower <= lo
    ensures Count(times, lo, hi) <= Count(times, lower, hi)
  {
    if times == [] {
    } else {
      CountWider(times[..|times| - 1], lo, lower, hi);
    }
  }

  /** The exits up to `b` within a window of `b` are recent for any `e` at or before `b`. */
  lemma {:induction false} CountRecent(times: seq<nat>, e: nat, b: int)
    requires e <= b
    ensures Count(times, b - WINDOW + 1, b) <= |Recent(times, e)|
  {
    if times == [] {
    } else {
      var n := |times| - 1;
      CountRecent(times[..n], e, b);
      assert times == times[..n] + [times[n]];
      RecentConcat(times[..n], [times[n]], e);
    }
  }

  /** The failures worth retrying in `[lo, hi]`: the child was killed by a signal or exited with 255, unasked. */
  function Failures(script: seq<Wakeup>, lo: int, hi: int): nat {
    if script == [] then 0
    else
      var n := |script| - 1;
      var w := script[n];
      Failures(script[..n], lo, hi) +
      if w.Exited? && !w.stoppedBefore && w.code in {None, Some(255)} && lo <= w.time <= hi then 1 else 0
  }

  lemma {:induction false} FailuresCounted(script: seq<Wakeup>, lo: int, hi: int)
    ensures Failures(script, lo, hi) == Count(Exits(script), lo, hi)
    decreases |script|
  {
    if script == [] {
    } else {
      var n := |script| - 1;
      FailuresCounted(script[..n], lo, hi);
      var before := Exits(script[..n]);
      if Retryable(script[n]) {
        assert (before + [script[n].time])[..|before|] == before;
      } else {
        assert before + [] == before;
      }
    }
  }

  lemma {:induction false} RecentCounted(times: seq<nat>, now: nat)
    requires forall t :: t in times ==> t <= now
    ensures |Recent(times, now)| == Count(times, now - WINDOW + 1, now)
    decreases |times|
  {
    if times == [] {
    } else {
      var n := |times| - 1;
      assert forall t :: t in times[..n] ==> t in times;
      RecentCounted(times[..n], now);
      assert times == times[..n] + [times[n]] && times[n] in times;
      RecentConcat(times[..n], [times[n]], now);
    }
  }

  lemma {:induction false} ExitsEarlier(script: seq<Wakeup>, now: nat)
    requires forall i :: 0 <= i < |script| && script[i].Exited? ==> script[i].time <= now
    ensures forall t :: t in Exits(script) ==> t <= now
    decreases |script|
  {
    if script == [] {
    } else {
      ExitsEarlier(script[..|script| - 1], now);
    }
  }

  /**
   What the monitor decides, with its numbers written out: an exit with a code other than 255 is final, and at any other
   it gives up exactly if that is the fifth failure, or more, within ten seconds.
   */
  lemma VerdictExactly(script: seq<Wakeup>)
    requires Clocked(script) && script != []
    ensures
      var w := script[|script| - 1];
      var verdict := Judge(Exits(script), w);
      match w
      case Cancelled => verdict == Stopped
      case WaitFailed => verdict == WaitError
      case Exited(code, now, stoppedBefore, stoppedAfter, respawned) =>
        if stoppedBefore then verdict == Stopped
        else if code !in {None, Some(255)} then verdict == NotRetried(code.value)
        else if Failures(script, now - 9_999_999_999, now) >= 5 then verdict == TooFast
        else if stoppedAfter then verdict == Stopped
        else if respawned then verdict == Running
        else verdict == RespawnFailed
  {
    var w := script[|script| - 1];
    if w.Exited? {
      ExitsEarlier(script, w.time);
      RecentCounted(Exits(script), w.time);
      FailuresCounted(script, w.time - 9_999_999_999, w.time);
      hide Exits, Recent, Count, Failures;
    }
  }

  lemma {:induction false} WindowCount(script: seq<Wakeup>, b: int)
    requires Survives(script)
    ensures Count(Exits(script), b - WINDOW + 1, b) < MAX_EXITS
    decreases |script|
  {
    if script == [] {
    } else {
      var n := |script| - 1;
      var w := script[n];
      assert Survives(script[..n]) by {
        forall i | 0 <= i < n ensures Judge(Exits(script[..n][..i + 1]), script[..n][i]) == Running {
          assert script[..n][..i + 1] == script[..i + 1];
        }
      }
      WindowCount(script[..n], b);
      if Retryable(w) && w.time <= b {
        assert script[..n + 1] == script;
        CountRecent(Exits(script), w.time, b);
      } else if Retryable(w) {
        assert Exits(script)[..|Exits(script)| - 1] == Exits(script[..n]);
      }
    }
  }

  /** No window of ten seconds, wherever it lies, holds five failures of a tunnel that is still up. */
  lemma WindowBound(script: seq<Wakeup>, b: int)
    requires Survives(script)
    ensures Failures(script, b - 9_999_999_999, b) < 5
  {
    WindowCount(script, b);
    FailuresCounted(script, b - 9_999_999_999, b);
  }

  /** An interval shorter than `k + 1` windows. */
  lemma {:induction false} RateCount(script: seq<Wakeup>, from: nat, length: nat, k: nat)
    requires Survives(script) && length < WINDOW * (k + 1)
    ensures Count(Exits(script), from, from + length) <= (MAX_EXITS - 1) * (k + 1)
    decreases k
  {
    hide Survives, Exits, Count;
    var times, to := Exits(script), from + length;
    WindowCount(script, to);
    if length < WINDOW {
      CountWider(times, from, to - WINDOW + 1, to);
    } else {
      CountSplit(times, from, to - WINDOW, to);
      RateCount(script, from, length - WINDOW, k - 1);
    }
  }

  /** A tunnel that is still up failed at most `4 * (length / 10 s + 1)` times in any interval. */
  lemma FailureRate(script: seq<Wakeup>, from: nat, length: nat)
    requires Survives(script)
    ensures Failures(script, from, from + length) <= 4 * (length / 10_000_000_000 + 1)
  {
    hide Survives, Exits, Count;
    RateCount(script, from, length, length / WINDOW);
    FailuresCounted(script, from, from + length);
  }
}
