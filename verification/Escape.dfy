/**
 The escape processor of src/client.rs: a byte transducer that finds `~.`, `~^Z` and `~?` at line
 starts. `Machine` is its exact action list; `Scan` is the same with the buffering forgotten; and
 `Emit` says what each byte produces by looking at most two bytes back.
 */
module Escape {
  import opened Sequences
  import opened Utf8
  import opened Text
  import opened Streaming

  const TILDE: byte := 0x7E
  const DOT: byte := 0x2E
  const CTRL_Z: byte := 0x1A
  const QUESTION: byte := 0x3F

  datatype EscapeState = Normal | AfterNewline | AfterTilde

  datatype Command = Detach | Suspend | Help

  datatype Action = Data(bytes: seq<byte>) | Escape(command: Command)

  /** One output of the processor, with the grouping of bytes into `Data` forgotten. */
  datatype Mark = Byte(b: byte) | Fired(command: Command)

  predicate Newline(b: byte) {
    b == CR || b == LF
  }

  function Flush(buffer: seq<byte>): seq<Action> {
    if buffer == [] then [] else [Data(buffer)]
  }

  /** One byte: the next state, the bytes still unflushed, the actions pushed, and whether to stop. */
  datatype Consumed = Consumed(state: EscapeState, buffer: seq<byte>, actions: seq<Action>, stop: bool)

  function Consume(state: EscapeState, buffer: seq<byte>, b: byte): Consumed {
    var next := if Newline(b) then AfterNewline else Normal;
    match state
    case Normal => Consumed(next, buffer + [b], [], false)
    case AfterNewline =>
      if b == TILDE then Consumed(AfterTilde, [], Flush(buffer), false)
      else Consumed(next, buffer + [b], [], false)
    case AfterTilde =>
      if b == DOT then Consumed(AfterTilde, [], Flush(buffer) + [Escape(Detach)], true)
      else if b == CTRL_Z then Consumed(Normal, [], Flush(buffer) + [Escape(Suspend)], false)
      else if b == QUESTION then Consumed(Normal, [], Flush(buffer) + [Escape(Help)], false)
      else if b == TILDE then Consumed(Normal, buffer + [TILDE], [], false)
      else Consumed(next, buffer + [TILDE, b], [], false)
  }

  /** State and actions after `input`, starting from `state` with `buffer` not yet flushed. */
  function Machine(state: EscapeState, buffer: seq<byte>, input: seq<byte>): (EscapeState, seq<Action>)
    decreases |input|
  {
    if input == [] then (state, Flush(buffer))
    else
      var c := Consume(state, buffer, input[0]);
      if c.stop then (c.state, c.actions)
      else
        var (end, later) := Machine(c.state, c.buffer, input[1..]);
        (end, c.actions + later)
  }

  /** Having pushed `actions`, the machine still has to work from position `i` to give `whole`. */
  ghost predicate Resumes(
    whole: (EscapeState, seq<Action>), actions: seq<Action>,
    state: EscapeState, buffer: seq<byte>, input: seq<byte>, i: nat)
    requires i <= |input|
  {
    var m := Machine(state, buffer, input[i..]);
    whole.0 == m.0 && whole.1 == actions + m.1
  }

  lemma ResumesStep(
    whole: (EscapeState, seq<Action>), actions: seq<Action>,
    state: EscapeState, buffer: seq<byte>, input: seq<byte>, i: nat)
    requires i <= |input| && Resumes(whole, actions, state, buffer, input, i)
    ensures
      if i == |input| then whole == (state, actions + Flush(buffer))
      else
        var c := Consume(state, buffer, input[i]);
        if c.stop then whole == (c.state, actions + c.actions)
        else Resumes(whole, actions + c.actions, c.state, c.buffer, input, i + 1)
  {
    if i < |input| {
      assert input[i..][0] == input[i] && input[i..][1..] == input[i + 1..];
      var c := Consume(state, buffer, input[i]);
      var later := Machine(c.state, c.buffer, input[i + 1..]).1;
      assert actions + (c.actions + later) == (actions + c.actions) + later;
    }
  }

  /** Pushing what is buffered, and then a command. */
  lemma Pushes(pushed: seq<Action>, buffer: seq<byte>)
    ensures pushed + [] == pushed
    ensures pushed + Flush(buffer) == if buffer == [] then pushed else pushed + [Data(buffer)]
    ensures forall c: Command :: (
      pushed + (Flush(buffer) + [Escape(c)])
        == (if buffer == [] then pushed else pushed + [Data(buffer)]) + [Escape(c)])
  {
  }

  class EscapeProcessor {
    var state: EscapeState

    constructor ()
      ensures state == AfterNewline
    {
      state := AfterNewline;
    }

    /** A detach returns at once and leaves the state where it was. */
    method Process(input: seq<byte>) returns (actions: seq<Action>)
      modifies this
      ensures (state, actions) == Machine(old(state), [], input)
    {
      ghost var whole := Machine(old(state), [], input);
      actions := [];
      var dataBuf: seq<byte> := [];
      var i := 0;
      assert Resumes(whole, actions, state, dataBuf, input, i) by {
        assert input[0..] == input && [] + whole.1 == whole.1;
      }
      hide Resumes, Machine, Flush;
      while i < |input|
        invariant 0 <= i <= |input| && Resumes(whole, actions, state, dataBuf, input, i)
      {
        var b := input[i];
        ResumesStep(whole, actions, state, dataBuf, input, i);
        ghost var c, pushed := Consume(state, dataBuf, b), actions;
        Pushes(actions, dataBuf);
        match state {
          case Normal =>
            if Newline(b) {
              state := AfterNewline;
            }
            dataBuf := dataBuf + [b];
          case AfterNewline =>
            if b == TILDE {
              state := AfterTilde;
              if dataBuf != [] {
                actions := actions + [Data(dataBuf)];
                dataBuf := [];
              }
            } else if Newline(b) {
              dataBuf := dataBuf + [b];
            } else {
              state := Normal;
              dataBuf := dataBuf + [b];
            }
          case AfterTilde =>
            if b == DOT {
              if dataBuf != [] {
                actions := actions + [Data(dataBuf)];
              }
              actions := actions + [Escape(Detach)];
              assert actions == pushed + c.actions;
              return;
            } else if b == CTRL_Z {
              if dataBuf != [] {
                actions := actions + [Data(dataBuf)];
                dataBuf := [];
              }
              actions := actions + [Escape(Suspend)];
              state := Normal;
            } else if b == QUESTION {
              if dataBuf != [] {
                actions := actions + [Data(dataBuf)];
                dataBuf := [];
              }
              actions := actions + [Escape(Help)];
              state := Normal;
            } else if b == TILDE {
              dataBuf := dataBuf + [TILDE];
              state := Normal;
            } else {
              dataBuf := dataBuf + [TILDE, b];
              state := if Newline(b) then AfterNewline else Normal;
            }
        }
        assert state == c.state && dataBuf == c.buffer && actions == pushed + c.actions;
        i := i + 1;
      }
      ResumesStep(whole, actions, state, dataBuf, input, i);
      Pushes(actions, dataBuf);
      if dataBuf != [] {
        actions := actions + [Data(dataBuf)];
      }
    }
  }

  // ----- The machine without its buffer -----

  /** `consumed` counts the bytes read before a detach stops the scan, `doubled` the `~~` pairs. */
  datatype Outcome = Outcome(state: EscapeState, marks: seq<Mark>, detached: bool, consumed: nat, doubled: nat)

  function Step(state: EscapeState, b: byte): Outcome {
    var next := if Newline(b) then AfterNewline else Normal;
    match state
    case Normal => Outcome(next, [Byte(b)], false, 1, 0)
    case AfterNewline =>
      if b == TILDE then Outcome(AfterTilde, [], false, 1, 0) else Outcome(next, [Byte(b)], false, 1, 0)
    case AfterTilde =>
      if b == DOT then Outcome(AfterTilde, [Fired(Detach)], true, 1, 0)
      else if b == CTRL_Z then Outcome(Normal, [Fired(Suspend)], false, 1, 0)
      else if b == QUESTION then Outcome(Normal, [Fired(Help)], false, 1, 0)
      else if b == TILDE then Outcome(Normal, [Byte(TILDE)], false, 1, 1)
      else Outcome(next, [Byte(TILDE), Byte(b)], false, 1, 0)
  }

  function Then(first: Outcome, second: Outcome): Outcome {
    Outcome(second.state, first.marks + second.marks, second.detached,
            first.consumed + second.consumed, first.doubled + second.doubled)
  }

  function Scan(state: EscapeState, input: seq<byte>): (o: Outcome)
    ensures o.consumed <= |input|
    decreases |input|
  {
    if input == [] then Outcome(state, [], false, 0, 0)
    else
      var first := Step(state, input[0]);
      if first.detached then first else Then(first, Scan(first.state, input[1..]))
  }

  /** The processor kept across reads and reconnects; the client stops at a detach. */
  function ScanAll(state: EscapeState, chunks: seq<seq<byte>>): Outcome
    decreases |chunks|
  {
    if chunks == [] then Outcome(state, [], false, 0, 0)
    else
      var first := Scan(state, chunks[0]);
      if first.detached then first else Then(first, ScanAll(first.state, chunks[1..]))
  }

  function Bytes(s: seq<byte>): (marks: seq<Mark>)
    ensures |marks| == |s|
    ensures forall i :: 0 <= i < |s| ==> marks[i] == Byte(s[i])
  {
    seq(|s|, i requires 0 <= i < |s| => Byte(s[i]))
  }

  function MarksOf(action: Action): seq<Mark> {
    match action
    case Data(bytes) => Bytes(bytes)
    case Escape(c) => [Fired(c)]
  }

  function Flat(actions: seq<Action>): seq<Mark> {
    if actions == [] then [] else MarksOf(actions[0]) + Flat(actions[1..])
  }

  lemma {:induction false} FlatConcat(a: seq<Action>, b: seq<Action>)
    ensures Flat(a + b) == Flat(a) + Flat(b)
    decreases |a|
  {
    if a == [] {
      assert a + b == b;
    } else {
      assert (a + b)[1..] == a[1..] + b;
      FlatConcat(a[1..], b);
    }
  }

  lemma FlatFlush(buffer: seq<byte>)
    ensures Flat(Flush(buffer)) == Bytes(buffer)
  {
  }

  lemma BytesConcat(a: seq<byte>, b: seq<byte>)
    ensures Bytes(a + b) == Bytes(a) + Bytes(b)
  {
  }

  lemma FlatCommand(buffer: seq<byte>, c: Command)
    ensures Flat(Flush(buffer) + [Escape(c)]) == Bytes(buffer) + [Fired(c)]
  {
    FlatFlush(buffer);
    FlatConcat(Flush(buffer), [Escape(c)]);
  }

  lemma ConsumeIsStep(state: EscapeState, buffer: seq<byte>, b: byte)
    ensures var c, step := Consume(state, buffer, b), Step(state, b);
            && c.state == step.state && c.stop == step.detached && (c.stop ==> c.buffer == [])
            && Flat(c.actions) + Bytes(c.buffer) == Bytes(buffer) + step.marks
  {
    assert Bytes([b]) == [Byte(b)] && Bytes([TILDE]) == [Byte(TILDE)] && Bytes([TILDE, b]) == [Byte(TILDE), Byte(b)];
    assert Flat([]) == [] && Bytes([]) == [];
    hide Flat, Bytes, Flush;
    if state == AfterTilde && b in {DOT, CTRL_Z, QUESTION} {
      FlatCommand(buffer, if b == DOT then Detach else if b == CTRL_Z then Suspend else Help);
    } else {
      FlatFlush(buffer);
      BytesConcat(buffer, [b]);
      BytesConcat(buffer, [TILDE]);
      BytesConcat(buffer, [TILDE, b]);
    }
  }

  lemma Regroup(a: seq<Mark>, b: seq<Mark>, c: seq<Mark>, d: seq<Mark>, e: seq<Mark>)
    requires a + b == c + d
    ensures a + (b + e) == c + (d + e)
  {
    assert a + (b + e) == (a + b) + e;
    assert c + (d + e) == (c + d) + e;
  }

  lemma {:induction false} MachineIsScan(state: EscapeState, buffer: seq<byte>, input: seq<byte>)
    ensures Machine(state, buffer, input).0 == Scan(state, input).state
    ensures Flat(Machine(state, buffer, input).1) == Bytes(buffer) + Scan(state, input).marks
    decreases |input|
  {
    FlatFlush(buffer);
    if input == [] {
    } else {
      ConsumeIsStep(state, buffer, input[0]);
      var c, step := Consume(state, buffer, input[0]), Step(state, input[0]);
      hide Consume, Step, Flat, Bytes;
      if !c.stop {
        MachineIsScan(c.state, c.buffer, input[1..]);
        FlatConcat(c.actions, Machine(c.state, c.buffer, input[1..]).1);
        var later := Scan(step.state, input[1..]).marks;
        Regroup(Flat(c.actions), Bytes(c.buffer), Bytes(buffer), step.marks, later);
      } else {
        assert Flat(c.actions) + Bytes([]) == Flat(c.actions);
      }
    }
  }

  lemma {:induction false} MachineGroups(state: EscapeState, buffer: seq<byte>, input: seq<byte>)
    ensures forall a :: a in Machine(state, buffer, input).1 && a.Data? ==>
      0 < |a.bytes| <= |buffer| + |input| + if state == AfterTilde then 1 else 0
    decreases |input|
  {
    if input == [] {
    } else {
      var c := Consume(state, buffer, input[0]);
      MachineGroups(c.state, c.buffer, input[1..]);
    }
  }

  /**
   What `process` returns, read as output: the marks of the scan in order, and no `Data` is empty
   or longer than the input plus one held tilde.
   */
  lemma ProcessMeaning(state: EscapeState, input: seq<byte>)
    ensures var (end, actions) := Machine(state, [], input);
            && end == Scan(state, input).state && Flat(actions) == Scan(state, input).marks
            && forall a :: a in actions && a.Data? ==> 0 < |a.bytes| <= |input| + 1
  {
    MachineIsScan(state, [], input);
    MachineGroups(state, [], input);
    assert [] + Scan(state, input).marks == Scan(state, input).marks;
  }

  lemma MachineNext(state: EscapeState, buffer: seq<byte>, input: seq<byte>)
    requires input != [] && !Consume(state, buffer, input[0]).stop
    requires Consume(state, buffer, input[0]).actions == []
    ensures var c := Consume(state, buffer, input[0]);
            Machine(state, buffer, input).1 == Machine(c.state, c.buffer, input[1..]).1
  {
    hide Consume;
  }

  lemma {:induction false} PlainMachine(state: EscapeState, buffer: seq<byte>, input: seq<byte>)
    requires state != AfterTilde && 0x7E !in input
    ensures Machine(state, buffer, input).1 == Flush(buffer + input)
    decreases |input|
  {
    if input == [] {
      assert buffer + [] == buffer;
    } else {
      var c := Consume(state, buffer, input[0]);
      assert input[0] in input && forall b :: b in input[1..] ==> b in input;
      assert c.state != AfterTilde && c.buffer == buffer + [input[0]] && c.actions == [] && !c.stop;
      hide Machine, Consume, Flush;
      MachineNext(state, buffer, input);
      PlainMachine(c.state, c.buffer, input[1..]);
      assert (buffer + [input[0]]) + input[1..] == buffer + input;
    }
  }

  lemma HeldStep(b: byte)
    requires b !in {0x7E, 0x2E, 0x1A, 0x3F}
    ensures var c := Consume(AfterTilde, [], b);
            c.actions == [] && c.buffer == [0x7E] + [b] && c.state != AfterTilde && !c.stop
  {
  }

  lemma HeldMachine(input: seq<byte>)
    requires 0x7E !in input && input != [] && input[0] !in {0x2E, 0x1A, 0x3F}
    ensures Machine(AfterTilde, [], input).1 == Flush([0x7E] + input)
  {
    hide Machine, Consume, Flush;
    var c := Consume(AfterTilde, [], input[0]);
    assert input[0] in input && forall b :: b in input[1..] ==> b in input;
    HeldStep(input[0]);
    MachineNext(AfterTilde, [], input);
    PlainMachine(c.state, c.buffer, input[1..]);
    assert [0x7E] + [input[0]] + input[1..] == [0x7E] + input;
  }

  /** A read without a tilde goes out as one `Data`, and a tilde held from the read before goes with it. */
  lemma OneDataPerRead(state: EscapeState, input: seq<byte>)
    requires 0x7E !in input && input != []
    ensures state != AfterTilde ==> Machine(state, [], input).1 == [Data(input)]
    ensures state == AfterTilde && input[0] !in {0x2E, 0x1A, 0x3F} ==>
      Machine(state, [], input).1 == [Data([0x7E] + input)]
  {
    hide Machine;
    if state != AfterTilde {
      PlainMachine(state, [], input);
      assert [] + input == input;
    } else if input[0] !in {0x2E, 0x1A, 0x3F} {
      HeldMachine(input);
    }
  }

  lemma ThenThen(first: Outcome, second: Outcome, third: Outcome)
    ensures Then(Then(first, second), third) == Then(first, Then(second, third))
  {
    assert (first.marks + second.marks) + third.marks == first.marks + (second.marks + third.marks);
  }

  lemma {:induction false} ScanAppend(state: EscapeState, a: seq<byte>, b: seq<byte>)
    ensures var first := Scan(state, a);
            Scan(state, a + b) == if first.detached then first else Then(first, Scan(first.state, b))
    decreases |a|
  {
    if a == [] {
      assert a + b == b;
      var second := Scan(state, b);
      assert [] + second.marks == second.marks;
    } else {
      assert (a + b)[0] == a[0] && (a + b)[1..] == a[1..] + b;
      var step := Step(state, a[0]);
      hide Step;
      if !step.detached {
        ScanAppend(step.state, a[1..], b);
        var middle := Scan(step.state, a[1..]);
        ThenThen(step, middle, Scan(middle.state, b));
      }
    }
  }

  /** However the input is cut into reads, the outcome is that of one read of all of it. */
  lemma {:induction false} SplitInvariance(state: EscapeState, chunks: seq<seq<byte>>)
    ensures ScanAll(state, chunks) == Scan(state, Flatten(chunks))
    decreases |chunks|
  {
    if chunks == [] {
    } else {
      ScanAppend(state, chunks[0], Flatten(chunks[1..]));
      SplitInvariance(Scan(state, chunks[0]).state, chunks[1..]);
    }
  }

  // ----- The local description, with its bytes written out -----

  predicate LineStart(s: seq<byte>, i: nat)
    requires i <= |s|
  {
    i == 0 || s[i - 1] == 0x0A || s[i - 1] == 0x0D
  }

  /** The byte before `i` is a tilde at a line start. */
  predicate AfterLineTilde(s: seq<byte>, i: nat)
    requires i <= |s|
  {
    i > 0 && s[i - 1] == 0x7E && LineStart(s, i - 1)
  }

  predicate DetachAt(s: seq<byte>, i: nat)
    requires i < |s|
  {
    AfterLineTilde(s, i) && s[i] == 0x2E
  }

  /** What byte `i` of the whole input produces. */
  function Emit(s: seq<byte>, i: nat): seq<Mark>
    requires i < |s|
  {
    var b := s[i];
    if AfterLineTilde(s, i) then
      if b == 0x2E then [Fired(Detach)]
      else if b == 0x1A then [Fired(Suspend)]
      else if b == 0x3F then [Fired(Help)]
      else if b == 0x7E then [Byte(0x7E)]
      else [Byte(0x7E), Byte(b)]
    else if LineStart(s, i) && b == 0x7E then []
    else [Byte(b)]
  }

  function LocalTrace(s: seq<byte>, n: nat): seq<Mark>
    requires n <= |s|
  {
    if n == 0 then [] else LocalTrace(s, n - 1) + Emit(s, n - 1)
  }

  function LocalState(s: seq<byte>, i: nat): EscapeState
    requires i <= |s|
  {
    if LineStart(s, i) then AfterNewline else if AfterLineTilde(s, i) then AfterTilde else Normal
  }

  lemma LocalStep(s: seq<byte>, i: nat)
    requires i < |s|
    ensures var step := Step(LocalState(s, i), s[i]);
            && step.detached == DetachAt(s, i)
            && step.marks == Emit(s, i)
            && (!step.detached ==> step.state == LocalState(s, i + 1))
  {
  }

  lemma ScanOne(state: EscapeState, b: byte)
    ensures Scan(state, [b]) == Step(state, b)
  {
    var first := Step(state, b);
    assert first.marks + [] == first.marks;
  }

  lemma LocalStart(s: seq<byte>)
    ensures LocalTrace(s, 0) == [] && LocalState(s, 0) == AfterNewline
    ensures Scan(AfterNewline, []) == Outcome(AfterNewline, [], false, 0, 0)
  {
  }

  lemma LocalNext(s: seq<byte>, n: nat)
    requires 0 < n <= |s|
    ensures LocalTrace(s, n) == LocalTrace(s, n - 1) + Emit(s, n - 1)
  {
    hide Emit;
  }

  lemma {:induction false} ScanIsLocal(s: seq<byte>, n: nat)
    requires n <= |s| && forall i :: 0 <= i < n ==> !DetachAt(s, i)
    ensures var o := Scan(AfterNewline, s[..n]);
            !o.detached && o.marks == LocalTrace(s, n) && o.state == LocalState(s, n)
    decreases n
  {
    hide Scan, Step, Emit, LocalState, LocalTrace, DetachAt;
    LocalStart(s);
    if n == 0 {
      assert s[..0] == [];
    } else {
      LocalNext(s, n);
      ScanIsLocal(s, n - 1);
      ScanOne(LocalState(s, n - 1), s[n - 1]);
      LocalStep(s, n - 1);
      TakeNext(s, n - 1);
      ScanAppend(AfterNewline, s[..n - 1], [s[n - 1]]);
    }
  }

  lemma DetachHere(s: seq<byte>, n: nat)
    requires n < |s| && DetachAt(s, n)
    ensures LocalState(s, n) == AfterTilde
    ensures Scan(AfterTilde, s[n..]) == Outcome(AfterTilde, [Fired(Detach)], true, 1, 0)
  {
    assert s[n..][0] == s[n];
  }

  lemma {:induction false} ConsumedAll(state: EscapeState, s: seq<byte>)
    ensures !Scan(state, s).detached ==> Scan(state, s).consumed == |s|
    decreases |s|
  {
    if s == [] {
    } else {
      ConsumedAll(Step(state, s[0]).state, s[1..]);
    }
  }

  lemma {:induction false} DetachIsFirst(s: seq<byte>, n: nat)
    requires n < |s| && DetachAt(s, n)
    ensures var o := Scan(AfterNewline, s);
            && o.detached && 1 <= o.consumed <= |s| && DetachAt(s, o.consumed - 1)
            && (forall i :: 0 <= i < o.consumed - 1 ==> !DetachAt(s, i))
            && o.marks == LocalTrace(s, o.consumed - 1) + [Fired(Detach)]
    decreases n
  {
    hide Scan, LocalTrace, LocalState, DetachAt;
    if m: nat :| m < n && DetachAt(s, m) {
      DetachIsFirst(s, m);
    } else {
      ScanIsLocal(s, n);
      DetachHere(s, n);
      ScanAppend(AfterNewline, s[..n], s[n..]);
      ConsumedAll(AfterNewline, s[..n]);
      Halves(s, n);
    }
  }

  /**
   The machine equals the local description, over any number of reads: output and commands are those
   of the bytes up to the first `~.` at a line start, which is exactly where it detaches.
   */
  lemma EscapesAreLocal(chunks: seq<seq<byte>>)
    ensures
      var s, o := Flatten(chunks), ScanAll(AfterNewline, chunks);
      if o.detached then
        var n := o.consumed - 1;
        && 0 <= n < |s| && DetachAt(s, n) && (forall i :: 0 <= i < n ==> !DetachAt(s, i))
        && o.marks == LocalTrace(s, n) + [Fired(Detach)]
      else
        && (forall i :: 0 <= i < |s| ==> !DetachAt(s, i))
        && o.consumed == |s| && o.marks == LocalTrace(s, |s|) && o.state == LocalState(s, |s|)
  {
    var s := Flatten(chunks);
    SplitInvariance(AfterNewline, chunks);
    if n: nat :| n < |s| && DetachAt(s, n) {
      DetachIsFirst(s, n);
    } else {
      ScanIsLocal(s, |s|);
      assert s[..|s|] == s;
      ConsumedAll(AfterNewline, s);
    }
  }

  /** The commands among some marks, in order. */
  function Commands(marks: seq<Mark>): seq<Command> {
    if marks == [] then [] else (if marks[0].Fired? then [marks[0].command] else []) + Commands(marks[1..])
  }

  /** The commands the first `n` bytes type: `~.`, `~^Z` and `~?` at line starts. */
  function CommandsTyped(s: seq<byte>, n: nat): seq<Command>
    requires n <= |s|
  {
    if n == 0 then []
    else
      CommandsTyped(s, n - 1) +
      if !AfterLineTilde(s, n - 1) then []
      else if s[n - 1] == 0x2E then [Detach]
      else if s[n - 1] == 0x1A then [Suspend]
      else if s[n - 1] == 0x3F then [Help]
      else []
  }

  lemma {:induction false} CommandsConcat(a: seq<Mark>, b: seq<Mark>)
    ensures Commands(a + b) == Commands(a) + Commands(b)
    decreases |a|
  {
    if a == [] {
      assert a + b == b;
    } else {
      assert (a + b)[0] == a[0] && (a + b)[1..] == a[1..] + b;
      CommandsConcat(a[1..], b);
    }
  }

  lemma CommandsEmitted(s: seq<byte>, n: nat)
    requires 0 < n <= |s|
    ensures CommandsTyped(s, n) == CommandsTyped(s, n - 1) + Commands(Emit(s, n - 1))
  {
    var marks := Emit(s, n - 1);
    if |marks| > 0 {
      assert marks[1..] == [] || (marks[1..] == [marks[1]] && marks[1..][1..] == []);
      assert Commands([]) == [];
    }
  }

  lemma NothingTyped(s: seq<byte>)
    ensures CommandsTyped(s, 0) == [] && Commands([]) == []
  {
  }

  lemma {:induction false} CommandsTraced(s: seq<byte>, n: nat)
    requires n <= |s|
    ensures Commands(LocalTrace(s, n)) == CommandsTyped(s, n)
    decreases n
  {
    hide Emit, Commands, CommandsTyped, LocalTrace, LocalState, Scan, AfterLineTilde;
    LocalStart(s);
    NothingTyped(s);
    if n == 0 {
    } else {
      LocalNext(s, n);
      CommandsTraced(s, n - 1);
      CommandsEmitted(s, n);
      CommandsConcat(LocalTrace(s, n - 1), Emit(s, n - 1));
    }
  }

  /** Which keys do what: the commands fired, in order, are those typed, up to the first detach. */
  lemma CommandsFire(chunks: seq<seq<byte>>)
    ensures
      var o := ScanAll(AfterNewline, chunks);
      o.consumed <= |Flatten(chunks)| && Commands(o.marks) == CommandsTyped(Flatten(chunks), o.consumed)
  {
    var s, o := Flatten(chunks), ScanAll(AfterNewline, chunks);
    EscapesAreLocal(chunks);
    var n := if o.detached then o.consumed - 1 else |s|;
    CommandsTraced(s, n);
    if o.detached {
      assert o.marks == LocalTrace(s, n) + Emit(s, n);
      hide Emit, LocalTrace, Commands, CommandsTyped;
      CommandsEmitted(s, n + 1);
      CommandsConcat(LocalTrace(s, n), Emit(s, n));
    }
  }

  // ----- Accounting -----

  function CountBytes(marks: seq<Mark>): nat {
    if marks == [] then 0 else (if marks[0].Byte? then 1 else 0) + CountBytes(marks[1..])
  }

  lemma {:induction false} CountBytesConcat(a: seq<Mark>, b: seq<Mark>)
    ensures CountBytes(a + b) == CountBytes(a) + CountBytes(b)
    decreases |a|
  {
    if a == [] {
      assert a + b == b;
    } else {
      assert (a + b)[1..] == a[1..] + b;
      CountBytesConcat(a[1..], b);
    }
  }

  function Held(state: EscapeState): nat {
    if state == AfterTilde then 1 else 0
  }

  lemma CountBytesShort(marks: seq<Mark>)
    requires |marks| <= 2
    ensures CountBytes(marks)
         == (if |marks| > 0 && marks[0].Byte? then 1 else 0) + if |marks| > 1 && marks[1].Byte? then 1 else 0
  {
    if |marks| == 2 {
      assert marks[1..] == [marks[1]] && CountBytes([marks[1]]) == if marks[1].Byte? then 1 else 0;
    }
  }

  lemma StepAccounting(state: EscapeState, b: byte)
    ensures
      var o := Step(state, b);
      1 + Held(state)
        == CountBytes(o.marks) + 2 * (|o.marks| - CountBytes(o.marks)) + o.doubled
           + if o.detached then 0 else Held(o.state)
  {
    var o := Step(state, b);
    CountBytesShort(o.marks);
  }

  /**
   Every byte is accounted for: what was consumed, plus a tilde held back before, is output bytes,
   two per command, one per `~~`, and a tilde still held back.
   */
  lemma {:induction false} Accounting(state: EscapeState, input: seq<byte>)
    ensures
      var o := Scan(state, input);
      o.consumed + Held(state)
        == CountBytes(o.marks) + 2 * (|o.marks| - CountBytes(o.marks)) + o.doubled
           + if o.detached then 0 else Held(o.state)
    decreases |input|
  {
    if input == [] {
    } else {
      hide Step, CountBytes, Held;
      var step := Step(state, input[0]);
      StepAccounting(state, input[0]);
      if !step.detached {
        Accounting(step.state, input[1..]);
        CountBytesConcat(step.marks, Scan(step.state, input[1..]).marks);
      }
    }
  }

  // ----- Transparency -----

  /** What a user types to send `s` unharmed: every tilde at a line start twice. */
  function Protect(s: seq<byte>): seq<byte> {
    if s == [] then []
    else
      var n := |s| - 1;
      Protect(s[..n]) + if LineStart(s, n) && s[n] == TILDE then [TILDE, TILDE] else [s[n]]
  }

  lemma ProtectedByte(state: EscapeState, b: byte)
    requires state != AfterTilde
    ensures var o := Scan(state, if state == AfterNewline && b == TILDE then [TILDE, TILDE] else [b]);
            !o.detached && o.marks == [Byte(b)] && o.state == if Newline(b) then AfterNewline else Normal
  {
    ScanOne(state, b);
    ScanOne(AfterTilde, TILDE);
    assert [TILDE, TILDE][1..] == [TILDE];
  }

  lemma BytesLast(s: seq<byte>)
    requires s != []
    ensures Bytes(s) == Bytes(s[..|s| - 1]) + [Byte(s[|s| - 1])]
  {
  }

  lemma ProtectLast(s: seq<byte>)
    requires s != []
    ensures var n := |s| - 1;
            && Protect(s) == Protect(s[..n]) + (if LineStart(s, n) && s[n] == TILDE then [TILDE, TILDE] else [s[n]])
            && LineStart(s[..n], n) == LineStart(s, n) && LineStart(s, n + 1) == Newline(s[n])
  {
  }

  lemma {:induction false} ProtectScans(s: seq<byte>)
    ensures var o := Scan(AfterNewline, Protect(s));
            && !o.detached && o.marks == Bytes(s)
            && o.state == if LineStart(s, |s|) then AfterNewline else Normal
    decreases |s|
  {
    if s == [] {
    } else {
      var n := |s| - 1;
      ProtectLast(s);
      BytesLast(s);
      hide Scan, Step, Protect, LineStart, Bytes;
      ProtectScans(s[..n]);
      var state := if LineStart(s, n) then AfterNewline else Normal;
      var tail := if LineStart(s, n) && s[n] == TILDE then [TILDE, TILDE] else [s[n]];
      ProtectedByte(state, s[n]);
      ScanAppend(AfterNewline, Protect(s[..n]), tail);
    }
  }

  /** Transparency: text protected by doubling goes through as itself and fires no command, in any cut into reads. */
  lemma Transparency(s: seq<byte>, chunks: seq<seq<byte>>)
    requires Flatten(chunks) == Protect(s)
    ensures ScanAll(AfterNewline, chunks).marks == Bytes(s) && !ScanAll(AfterNewline, chunks).detached
  {
    SplitInvariance(AfterNewline, chunks);
    ProtectScans(s);
  }
}
