/**
 * What every run of the diagnostic supervisor keeps, over any order of messages, output, timers,
 * child events, disconnects and cleanup (src/agent-diagnostic-runner.ts:161-317).
 */
module SupervisorRuns {
  import opened Wrappers
  import opened DiagnosticSupervisor

  // ---------- what the log says ----------

  function Results(log: seq<Effect>): nat {
    if |log| == 0 then 0 else Results(log[..|log| - 1]) + (if log[|log| - 1].Result? then 1 else 0)
  }

  /** Bytes of the child's output whose text was sent on. */
  function Forwarded(log: seq<Effect>): nat {
    if |log| == 0 then 0 else Forwarded(log[..|log| - 1]) + (if log[|log| - 1].Text? then log[|log| - 1].bytes else 0)
  }

  function PassedIn(log: seq<Effect>): nat {
    if |log| == 0 then 0 else PassedIn(log[..|log| - 1]) + (if log[|log| - 1].Input? then log[|log| - 1].bytes else 0)
  }

  predicate Accepts(effect: Effect) { effect.Ack? && effect.ok }

  predicate ArmsWindow(effect: Effect) { Accepts(effect) && effect.command.body.ArmModel? }

  predicate AcceptsOutput(effect: Effect) {
    Accepts(effect) && effect.command.body.Observe? && effect.command.body.bytes.Some?
  }

  function Windows(log: seq<Effect>): nat {
    if |log| == 0 then 0 else Windows(log[..|log| - 1]) + (if ArmsWindow(log[|log| - 1]) then 1 else 0)
  }

  function OutputOf(effect: Effect): nat {
    if AcceptsOutput(effect) then effect.command.body.bytes.value else 0
  }

  function AcceptedOutput(log: seq<Effect>): nat {
    if |log| == 0 then 0 else AcceptedOutput(log[..|log| - 1]) + OutputOf(log[|log| - 1])
  }

  /** Every accepted observation comes after an accepted `arm_model`. */
  predicate OutputFollowsWindow(log: seq<Effect>) {
    forall k | 0 <= k < |log| && Accepts(log[k]) && log[k].command.body.Observe? ::
      exists j | 0 <= j < k :: ArmsWindow(log[j])
  }

  lemma Appended(log: seq<Effect>, x: Effect)
    ensures Results(log + [x]) == Results(log) + if x.Result? then 1 else 0
    ensures Forwarded(log + [x]) == Forwarded(log) + if x.Text? then x.bytes else 0
    ensures PassedIn(log + [x]) == PassedIn(log) + if x.Input? then x.bytes else 0
    ensures Windows(log + [x]) == Windows(log) + if ArmsWindow(x) then 1 else 0
    ensures AcceptedOutput(log + [x]) == AcceptedOutput(log) + OutputOf(x)
  {
    assert (log + [x])[..|log + [x]| - 1] == log;
  }

  lemma {:induction false} AWindowIsSomewhere(log: seq<Effect>)
    ensures Windows(log) > 0 <==> exists j | 0 <= j < |log| :: ArmsWindow(log[j])
  {
    if |log| > 0 {
      var n := |log| - 1;
      AWindowIsSomewhere(log[..n]);
      if j :| 0 <= j < |log| && ArmsWindow(log[j]) { assert j == n || ArmsWindow(log[..n][j]); }
    }
  }

  // ---------- the invariants ----------

  predicate Phases(s: State) {
    && (s.life.finished ==> s.life.cleaning)
    && (s.life.finished && s.child.started && !s.child.closed ==> s.reason == Some(CleanupFailed))
    && (s.child.started ==> s.life.initialized) && (s.child.spawned ==> s.child.started)
    && (s.child.ready ==> s.child.spawned)
    && (s.life.initialized ==> !s.timers.init) && (s.modelDeadline.Some? ==> s.child.ready && !s.timers.prepare)
    && Results(s.log) <= if s.life.finished then 1 else 0
  }

  /** The log's text and what the decoders hold stay within the bytes received, and within the limit. */
  predicate Flows(output: Output, forwarded: nat, child: bool) {
    && 1024 <= output.limit <= RAW_PROTOCOL_LIMIT
    && forwarded + output.outHeld + output.errHeld <= output.limit
    && forwarded + output.outHeld + output.errHeld <= output.Total()
    && (!child ==> output.Total() == 0)
  }

  predicate Fed(passedIn: nat, received: nat) {
    passedIn <= received && passedIn <= RAW_PROTOCOL_LIMIT
  }

  predicate Traffic(s: State) {
    Flows(s.output, Forwarded(s.log), s.child.started) && Fed(PassedIn(s.log), s.inputBytes)
  }

  predicate Window(s: State) {
    && Windows(s.log) <= (if s.modelDeadline.Some? then 1 else 0)
    && (s.modelDeadline.Some? && s.reason.None? ==> Windows(s.log) == 1)
    && AcceptedOutput(s.log) <= s.observedBytes && AcceptedOutput(s.log) <= OBSERVED_OUTPUT_LIMIT
    && OutputFollowsWindow(s.log)
    && (forall k | 0 <= k < |s.inFlight| :: s.inFlight[k].command.body.Write? || s.inFlight[k].command.body.EndInput?)
  }

  predicate Base(s: State) {
    Phases(s) && Traffic(s) && Window(s) && (s.life.cleaning && !s.life.finished ==> s.child.started)
      && Old(s.inFlight, s.clock)
  }

  predicate Inv(s: State) { Base(s) && (s.reason.Some? ==> s.life.cleaning) }

  // ---------- two states of a run ----------

  /** What a later state keeps of an earlier one. */
  predicate Keeps(s: State, t: State) {
    && s.log <= t.log
    && (s.reason.Some? ==> t.reason == s.reason || t.reason == Some(CleanupFailed))
    && (s.life.finished ==> t.life.finished && t.reason == s.reason)
    && (s.life.cleaning ==> t.life.cleaning)
    && (s.modelDeadline.Some? ==> t.modelDeadline == s.modelDeadline)
  }

  /** Every command still in flight was received at step `n` or before. */
  predicate Old(inFlight: seq<InFlight>, n: nat) {
    forall k | 0 <= k < |inFlight| :: inFlight[k].at <= n
  }

  /** Every acceptance logged from `from` on answers a command received at step `n` or before. */
  predicate LateAcceptsAreOld(log: seq<Effect>, from: nat, n: nat) {
    forall k | from <= k < |log| && Accepts(log[k]) :: log[k].at <= n
  }

  /** A stop was recorded, and nothing in flight or logged since `from` is newer than `n`. */
  predicate Stopped(s: State, from: nat, n: nat) {
    s.reason.Some? && from <= |s.log| && Old(s.inFlight, n) && LateAcceptsAreOld(s.log, from, n)
  }

  /** A later state of a run. */
  ghost predicate Later(s: State, t: State) {
    && Inv(t) && Keeps(s, t)
    && forall from, n | Stopped(s, from, n) :: Stopped(t, from, n)
  }

  /** A part of one step. */
  ghost predicate Good(s: State, t: State) {
    Later(s, t) && t.clock == s.clock
  }

  lemma LaterChains(s: State, t: State, u: State)
    requires Later(s, t) && Later(t, u)
    ensures Later(s, u)
  {
    hide Inv, Stopped;
  }

  lemma GoodChains(s: State, t: State, u: State)
    requires Good(s, t) && Good(t, u)
    ensures Good(s, u)
  {
    hide Inv, Stopped;
  }

  // ---------- the shared pieces ----------

  lemma FollowsWindow(log: seq<Effect>, x: Effect)
    requires OutputFollowsWindow(log)
    requires Accepts(x) && x.command.body.Observe? ==> Windows(log) > 0
    ensures OutputFollowsWindow(log + [x])
  {
    hide Windows;
    AWindowIsSomewhere(log);
    var longer := log + [x];
    forall k | 0 <= k < |longer| && Accepts(longer[k]) && longer[k].command.body.Observe?
      ensures exists j | 0 <= j < k :: ArmsWindow(longer[j])
    {
      var j :| 0 <= j < k && j < |log| && ArmsWindow(log[j]);
      assert longer[j] == log[j];
    }
  }

  lemma ConcludeIsGood(s: State, groupExited: bool, failed: bool, ipc: bool)
    requires Phases(s) && Traffic(s) && Window(s) && Old(s.inFlight, s.clock) && !s.life.finished && s.life.cleaning
    requires groupExited ==> !s.child.started || s.child.closed
    ensures Good(s, Conclude(s, groupExited, failed, ipc))
  {
    hide Results, Forwarded, PassedIn, Windows, AcceptedOutput, OutputFollowsWindow;
    if ipc {
      var x := Conclude(s, groupExited, failed, true).log[|s.log|];
      Appended(s.log, x);
      FollowsWindow(s.log, x);
    }
  }

  lemma FinishIsGood(s: State, ipc: bool)
    requires Base(s)
    ensures Good(s, Finish(s, ipc))
  {
    hide Conclude, Results, Forwarded, PassedIn, Windows, AcceptedOutput, OutputFollowsWindow;
    if !s.life.cleaning && !s.child.started {
      ConcludeIsGood(s.(life := s.life.(cleaning := true), timers := Timers(false, false, false)), true, false, ipc);
    }
  }

  lemma StopIsGood(s: State, next: Reason, ipc: bool)
    requires Inv(s)
    ensures Good(s, Stop(s, next, ipc)) && (Stop(s, next, ipc).reason.Some? || s.life.finished)
  {
    hide Finish, Results, Forwarded, PassedIn, Windows, AcceptedOutput, OutputFollowsWindow, Flows, Old,
      LateAcceptsAreOld;
    if !s.life.finished {
      if s.reason.Some? {
        FinishIsGood(s, ipc);
      } else {
        var t := s.(reason := Some(next));
        FinishIsGood(t, ipc);
        WithoutStop(s, Finish(t, ipc));
      }
    }
  }

  /** While no stop is recorded, only the invariant and what is kept are at stake. */
  lemma WithoutStop(s: State, t: State)
    requires s.reason.None? && Inv(t) && Keeps(s, t) && t.clock == s.clock
    ensures Good(s, t)
  {
  }

  /** An effect that no limit speaks about. */
  predicate Harmless(x: Effect) {
    x.Ready? || (x.Ack? && (x.ok ==> x.command.body.Write? || x.command.body.EndInput?))
  }

  /** Logging is good when the effect is harmless, and an acceptance is no newer than what a stop allows. */
  lemma SendIsGood(s: State, x: Effect, ipc: bool)
    requires Inv(s) && Harmless(x)
    requires Accepts(x) ==> forall from, n | Stopped(s, from, n) :: x.at <= n
    ensures Good(s, Send(s, x, ipc))
  {
    hide Stop, Results, Forwarded, PassedIn, Windows, AcceptedOutput, OutputFollowsWindow;
    if ipc {
      Appended(s.log, x);
      FollowsWindow(s.log, x);
    } else {
      StopIsGood(s, ControllerDisconnected, ipc);
    }
  }

  // ---------- output ----------

  lemma CountersAreGood(s: State, output: Output)
    requires Inv(s) && Flows(output, Forwarded(s.log), s.child.started)
    ensures Inv(s.(output := output)) && Good(s, s.(output := output))
  {
    hide LateAcceptsAreOld, Old, Results, Forwarded, PassedIn, Flows, Windows, AcceptedOutput, OutputFollowsWindow;
  }

  /** Passing text on is good when the decoder holds that much less. */
  lemma PassIsGood(s: State, stream: Stream, held: nat, text: nat, ipc: bool)
    requires Inv(s) && Flows(s.output.Holding(stream, held + text), Forwarded(s.log), s.child.started)
    ensures Good(s, Pass(s, stream, held, text, ipc))
  {
    hide Stop, Send, Traffic, Window, Phases, Good;
    var output := s.output.Holding(stream, held);
    HoldingLess(s, stream, held, text);
    CountersAreGood(s, output);
    if text > 0 {
      var t := s.(output := output);
      TextIsGood(t, stream, text, ipc);
      GoodChains(s, t, Send(t, Text(stream, text), ipc));
    }
  }

  lemma HoldingLess(s: State, stream: Stream, held: nat, text: nat)
    requires Flows(s.output.Holding(stream, held + text), Forwarded(s.log), s.child.started)
    ensures Flows(s.output.Holding(stream, held), Forwarded(s.log), s.child.started)
    ensures Flows(s.output.Holding(stream, held), Forwarded(s.log) + text, s.child.started)
  {
    hide Forwarded;
  }

  lemma TextIsGood(s: State, stream: Stream, bytes: nat, ipc: bool)
    requires Inv(s) && Flows(s.output, Forwarded(s.log) + bytes, s.child.started)
    ensures Good(s, Send(s, Text(stream, bytes), ipc))
  {
    hide Stop, Flows, Results, Forwarded, PassedIn, Windows, AcceptedOutput, OutputFollowsWindow;
    if ipc {
      Appended(s.log, Text(stream, bytes));
      FollowsWindow(s.log, Text(stream, bytes));
    } else {
      StopIsGood(s, ControllerDisconnected, ipc);
    }
  }

  /** A counted chunk may be held in full, as long as the limit is not passed. */
  lemma ChunkFits(output: Output, forwarded: nat, stream: Stream, bytes: nat)
    requires Flows(output, forwarded, true)
    ensures var counted := output.Counted(stream, bytes);
      && Flows(counted, forwarded, true) && counted.Held(stream) == output.Held(stream)
      && (counted.Total() <= counted.limit ==>
          Flows(counted.Holding(stream, output.Held(stream) + bytes), forwarded, true))
  {
  }

  lemma ConsumeIsGood(s: State, stream: Stream, bytes: nat, held: nat, ipc: bool)
    requires Inv(s) && s.child.started
    ensures Good(s, Consume(s, stream, bytes, held, ipc))
  {
    hide Stop, Pass, Flows, Window, Phases, Good, Forwarded, PassedIn;
    var counted := s.output.Counted(stream, bytes);
    ChunkFits(s.output, Forwarded(s.log), stream, bytes);
    CountersAreGood(s, counted);
    var t := s.(output := counted);
    if counted.Total() > counted.limit {
      StopIsGood(t, ProtocolLimit, ipc);
      GoodChains(s, t, Stop(t, ProtocolLimit, ipc));
    } else if t.reason.None? && !t.life.finished {
      var pending := counted.Held(stream) + bytes;
      var kept := if held < pending then held else pending;
      PassIsGood(t, stream, kept, pending - kept, ipc);
      GoodChains(s, t, Pass(t, stream, kept, pending - kept, ipc));
    }
  }

  lemma CloseIsGood(s: State, ipc: bool)
    requires Inv(s) && s.child.started && !s.child.closed
    ensures Good(s, Close(s, ipc))
  {
    hide Pass, Finish, Stopped, Window, Forwarded, PassedIn, Results;
    var t := s.(child := s.child.(closed := true));
    assert Good(s, t) by { FlagsAreGood(s, t); }
    var u;
    if s.reason.Some? {
      u := t.(output := t.output.(outHeld := 0, errHeld := 0));
      CountersAreGood(t, u.output);
    } else {
      var v := Pass(t, Stdout, 0, t.output.outHeld, ipc);
      PassIsGood(t, Stdout, 0, t.output.outHeld, ipc);
      u := Pass(v, Stderr, 0, v.output.errHeld, ipc);
      PassIsGood(v, Stderr, 0, v.output.errHeld, ipc);
      GoodChains(t, v, u);
    }
    hide Good, Keeps, Flows, Phases;
    GoodChains(s, t, u);
    FinishIsGood(u, ipc);
    GoodChains(s, u, Finish(u, ipc));
  }

  /** Changing what no limit, log or stop depends on. */
  lemma FlagsAreGood(s: State, t: State)
    requires Inv(s) && Phases(t)
    requires t.life == s.life && t.child.started == s.child.started && t == s.(child := t.child, timers := t.timers)
    ensures Inv(t) && Good(s, t)
  {
    hide LateAcceptsAreOld, Old, Results, Forwarded, PassedIn, Flows, Windows, AcceptedOutput, OutputFollowsWindow,
      Phases;
    assert t.life.finished == s.life.finished && t.life.cleaning == s.life.cleaning && t.reason == s.reason
      && t.child.started == s.child.started;
  }

  // ---------- commands ----------

  lemma InitializeIsGood(s: State, spec: ChildSpec, ipc: bool)
    requires Inv(s)
    ensures Good(s, Initialize(s, spec, ipc))
  {
    hide Stop, Results, Forwarded, PassedIn, Windows, AcceptedOutput, OutputFollowsWindow, Old, LateAcceptsAreOld;
    if s.life.initialized || s.reason.Some? || s.life.finished {
      StopIsGood(s, InvalidSpec, ipc);
    } else {
      var t := s.(life := s.life.(initialized := true), timers := s.timers.(init := false));
      assert Inv(t);
      StopIsGood(t, InvalidSpec, ipc);
      var limit := BoundedProtocol(spec.rawProtocolLimitBytes);
      if limit.Some? {
        var u := t.(output := t.output.(limit := limit.value));
        assert Inv(u);
        StopIsGood(u, SpawnFailed, ipc);
        var v := u.(child := u.child.(started := true));
        assert Inv(v);
        StopIsGood(v, SpawnFailed, ipc);
      }
    }
  }

  /** A refusal may be sent at any time. */
  lemma AnswerNoIsGood(s: State, command: Command, ipc: bool)
    requires Inv(s)
    ensures Good(s, Answer(s, command, false, ipc))
  {
    SendIsGood(s, Ack(command, s.clock, false), ipc);
  }

  lemma RefuseIsGood(s: State, command: Command, reason: Reason, ipc: bool)
    requires Inv(s)
    ensures Good(s, Refuse(s, command, reason, ipc))
  {
    AnswerNoIsGood(s, command, ipc);
    var t := Answer(s, command, false, ipc);
    hide Answer, Stop, Base;
    StopIsGood(t, reason, ipc);
    GoodChains(s, t, Stop(t, reason, ipc));
  }

  lemma PassingIsGood(s: State, command: Command, bytes: nat)
    requires Inv(s) && s.reason.None? && command.body.Write? && s.inputBytes + bytes <= RAW_PROTOCOL_LIMIT
    ensures Good(s, s.(inputBytes := s.inputBytes + bytes, log := s.log + [Input(bytes)],
                       inFlight := s.inFlight + [InFlight(command, s.clock)]))
  {
    hide Results, Forwarded, PassedIn, Windows, AcceptedOutput, OutputFollowsWindow, Stopped, Flows, Good;
    Appended(s.log, Input(bytes));
    FollowsWindow(s.log, Input(bytes));
    WithoutStop(s, s.(inputBytes := s.inputBytes + bytes, log := s.log + [Input(bytes)],
                      inFlight := s.inFlight + [InFlight(command, s.clock)]));
  }

  lemma ReceivingIsGood(s: State, bytes: nat)
    requires Inv(s) && s.reason.None?
    ensures Inv(s.(inputBytes := s.inputBytes + bytes)) && Good(s, s.(inputBytes := s.inputBytes + bytes))
  {
    hide Results, Forwarded, PassedIn, Window, Stopped, Flows, Good;
    InputLeavesWindow(s, bytes);
    WithoutStop(s, s.(inputBytes := s.inputBytes + bytes));
  }

  lemma InputLeavesWindow(s: State, bytes: nat)
    requires Window(s)
    ensures Window(s.(inputBytes := s.inputBytes + bytes))
  {
    hide Windows, AcceptedOutput, OutputFollowsWindow;
  }

  lemma WriteInputIsGood(s: State, command: Command, bytes: Option<nat>, dead: bool, ipc: bool)
    requires Inv(s) && s.reason.None? && command.body.Write?
    ensures Good(s, WriteInput(s, command, bytes, dead, ipc))
  {
    hide Refuse, Base, Good;
    if bytes.None? || bytes.value > INPUT_CHUNK_LIMIT {
      RefuseIsGood(s, command, ProtocolLimit, ipc);
    } else {
      var t := s.(inputBytes := s.inputBytes + bytes.value);
      ReceivingIsGood(s, bytes.value);
      if t.inputBytes > RAW_PROTOCOL_LIMIT || s.child.inputEnded || dead {
        RefuseIsGood(t, command, TransportFailed, ipc);
        GoodChains(s, t, Refuse(t, command, TransportFailed, ipc));
      } else {
        PassingIsGood(s, command, bytes.value);
      }
    }
  }

  lemma ArmIsGood(s: State, command: Command, deadline: Option<int>, now: int, ipc: bool)
    requires Inv(s) && s.reason.None? && s.child.ready && !s.life.finished && command.body.ArmModel?
    ensures Good(s, Arm(s, command, deadline, now, ipc))
  {
    hide Stop, Results, Forwarded, PassedIn, Windows, AcceptedOutput, OutputFollowsWindow, Stopped, Flows, Good;
    if s.modelDeadline.Some? || deadline.None? || deadline.value <= now || deadline.value - now > MODEL_WINDOW_MS {
      AnswerNoIsGood(s, command, ipc);
    } else if ipc {
      var x := Ack(command, s.clock, true);
      Appended(s.log, x);
      FollowsWindow(s.log, x);
      WithoutStop(s, Arm(s, command, deadline, now, ipc));
    } else {
      ArmedWithoutChannel(s, deadline, ipc);
    }
  }

  /** The window is set but its acknowledgement is lost, which records a stop. */
  lemma ArmedWithoutChannel(s: State, deadline: Option<int>, ipc: bool)
    requires Inv(s) && s.reason.None? && s.child.ready && !s.life.finished && s.modelDeadline.None? && deadline.Some?
    ensures Good(s, Stop(s.(modelDeadline := deadline, timers := s.timers.(prepare := false, model := true)),
                         ControllerDisconnected, ipc))
  {
    hide Results, Forwarded, PassedIn, Windows, AcceptedOutput, OutputFollowsWindow, Stopped, Flows, Finish;
    var t := s.(modelDeadline := deadline, timers := s.timers.(prepare := false, model := true),
                reason := Some(ControllerDisconnected));
    FinishIsGood(t, ipc);
    WithoutStop(s, Finish(t, ipc));
  }

  lemma ObserveIsGood(s: State, command: Command, ipc: bool)
    requires Inv(s) && s.reason.None? && !s.life.finished && command.body.Observe?
    ensures Good(s, ObserveOutput(s, command, command.body.bytes, ipc))
  {
    hide Stop, Refuse, Results, Forwarded, PassedIn, Windows, AcceptedOutput, OutputFollowsWindow, Stopped, Flows, Good;
    var bytes := command.body.bytes;
    if bytes.None? || s.modelDeadline.None? {
      AnswerNoIsGood(s, command, ipc);
    } else {
      var t := s.(observedBytes := s.observedBytes + bytes.value);
      WithoutStop(s, t);
      if t.observedBytes > OBSERVED_OUTPUT_LIMIT {
        RefuseIsGood(t, command, OutputLimit, ipc);
        GoodChains(s, t, Refuse(t, command, OutputLimit, ipc));
      } else if ipc {
        var x := Ack(command, s.clock, true);
        Appended(s.log, x);
        FollowsWindow(s.log, x);
        WithoutStop(s, ObserveOutput(s, command, bytes, ipc));
      } else {
        StopIsGood(t, ControllerDisconnected, ipc);
        GoodChains(s, t, Stop(t, ControllerDisconnected, ipc));
      }
    }
  }

  lemma EndInputIsGood(s: State, command: Command)
    requires Inv(s) && s.reason.None? && command.body.EndInput?
    ensures Good(s, s.(child := s.child.(inputEnded := true), inFlight := s.inFlight + [InFlight(command, s.clock)]))
  {
    hide Results, Forwarded, PassedIn, Windows, AcceptedOutput, OutputFollowsWindow, Stopped, Flows, Good;
    WithoutStop(s, s.(child := s.child.(inputEnded := true), inFlight := s.inFlight + [InFlight(command, s.clock)]));
  }

  lemma PerformIsGood(s: State, command: Command, now: int, dead: bool, ipc: bool)
    requires Inv(s) && !s.life.finished
    ensures Good(s, Perform(s, command, now, dead, ipc))
  {
    hide Answer, WriteInput, Arm, ObserveOutput, Refuse, Base, Good;
    AnswerNoIsGood(s, command, ipc);
    if s.child.ready && s.child.started && s.reason.None? {
      match command.body
      case Write(bytes) => WriteInputIsGood(s, command, bytes, dead, ipc);
      case EndInput =>
        if s.child.inputEnded { AnswerYesIsGood(s, command, ipc); } else { EndInputIsGood(s, command); }
      case ArmModel(deadline) => ArmIsGood(s, command, deadline, now, ipc);
      case Observe(bytes) => ObserveIsGood(s, command, ipc);
      case Unknown => RefuseIsGood(s, command, InvalidSpec, ipc);
    }
  }

  lemma AnswerYesIsGood(s: State, command: Command, ipc: bool)
    requires Inv(s) && s.reason.None? && command.body.EndInput?
    ensures Good(s, Answer(s, command, true, ipc))
  {
    SendIsGood(s, Ack(command, s.clock, true), ipc);
  }

  lemma MessageIsGood(s: State, m: Message, now: int, dead: bool, ipc: bool)
    requires Inv(s) && !s.life.finished
    ensures Good(s, OnMessage(s, m, now, dead, ipc))
  {
    hide Stop, Initialize, Perform, Base, Good;
    match m
    case Malformed => StopIsGood(s, InvalidSpec, ipc);
    case StopRequest(adapterError) => StopIsGood(s, if adapterError then AdapterError else Cancelled, ipc);
    case Init(spec) => InitializeIsGood(s, spec, ipc);
    case WithoutId => StopIsGood(s, InvalidSpec, ipc);
    case Request(command) => PerformIsGood(s, command, now, dead, ipc);
  }

  lemma LandingIsGood(s: State, inFlight: seq<InFlight>)
    requires Inv(s) && forall k | 0 <= k < |inFlight| :: inFlight[k] in s.inFlight
    ensures Good(s, s.(inFlight := inFlight))
  {
    hide Results, Forwarded, PassedIn, Windows, AcceptedOutput, OutputFollowsWindow, LateAcceptsAreOld, Flows;
    assert forall n | Old(s.inFlight, n) :: Old(inFlight, n);
  }

  lemma AnsweredIsGood(s: State, index: nat, failed: bool, ipc: bool)
    requires Inv(s) && index < |s.inFlight|
    ensures Good(s, Answered(s, s.inFlight[index], failed, ipc))
  {
    hide Send, Stop, Windows, AcceptedOutput, OutputFollowsWindow, Traffic, Phases;
    var flight := s.inFlight[index];
    var ok := !(flight.command.body.Write? && failed);
    SendIsGood(s, Ack(flight.command, flight.at, ok), ipc);
    if !ok {
      var u := Send(s, Ack(flight.command, flight.at, false), ipc);
      StopIsGood(u, TransportFailed, ipc);
      GoodChains(s, u, Stop(u, TransportFailed, ipc));
    }
  }

  lemma InputDoneIsGood(s: State, index: nat, failed: bool, ipc: bool)
    requires Inv(s) && index < |s.inFlight|
    ensures Good(s, OnInputDone(s, index, failed, ipc))
  {
    var v := Answered(s, s.inFlight[index], failed, ipc);
    AnsweredIsGood(s, index, failed, ipc);
    InFlightStands(s, s.inFlight[index], failed, ipc);
    var rest := s.inFlight[..index] + s.inFlight[index + 1..];
    hide Answered, Base, Stopped, Keeps;
    LandingIsGood(v, rest);
    GoodChains(s, v, v.(inFlight := rest));
  }

  lemma InFlightStands(s: State, flight: InFlight, failed: bool, ipc: bool)
    ensures Answered(s, flight, failed, ipc).inFlight == s.inFlight
  {
    hide Stop;
    StopKeepsInFlight(s, ControllerDisconnected, ipc);
    StopKeepsInFlight(Send(s, Ack(flight.command, flight.at, false), ipc), TransportFailed, ipc);
  }

  lemma StopKeepsInFlight(s: State, next: Reason, ipc: bool)
    ensures Stop(s, next, ipc).inFlight == s.inFlight
  {
  }

  lemma TimerIsGood(s: State, timer: Timer, ipc: bool)
    requires Inv(s)
    ensures Good(s, OnTimer(s, timer, ipc))
  {
    hide Stop, Stopped, Flows, Window;
    var (t, reason) :=
      match timer
      case InitTimer => (s.(timers := s.timers.(init := false)), PrepareTimeout)
      case PrepareTimer => (s.(timers := s.timers.(prepare := false)), PrepareTimeout)
      case ModelTimer => (s.(timers := s.timers.(model := false)), ModelTimeout);
    FlagsAreGood(s, t);
    StopIsGood(t, reason, ipc);
    GoodChains(s, t, Stop(t, reason, ipc));
    StandingStill(s);
  }

  lemma StandingStill(s: State)
    requires Inv(s)
    ensures Good(s, s)
  {
    hide Base, Stopped;
  }

  lemma IdentityIsGood(s: State, ipc: bool)
    requires Inv(s) && s.child.spawned
    ensures Good(s, Send(s.(child := s.child.(ready := true)), Ready, ipc))
  {
    hide Stopped, Window, Traffic, Send;
    var t := s.(child := s.child.(ready := true));
    FlagsAreGood(s, t);
    SendIsGood(t, Ready, ipc);
    GoodChains(s, t, Send(t, Ready, ipc));
  }

  lemma HandleIsGood(s: State, e: Event, ipc: bool)
    requires Inv(s)
    ensures Good(s, Handle(s, e, ipc))
  {
    hide OnMessage, OnInputDone, Consume, Stop, Send, Close, OnTimer, Conclude, Window, Traffic, Good;
    StandingStill(s);
    match e
    case Received(m, now, dead) => if !s.life.finished { MessageIsGood(s, m, now, dead, ipc); }
    case InputDone(index, failed) => if index < |s.inFlight| { InputDoneIsGood(s, index, failed, ipc); }
    case Data(stream, bytes, held) =>
      if s.child.started && !s.child.closed { ConsumeIsGood(s, stream, bytes, held, ipc); }
    case InputError => StopIsGood(s, TransportFailed, ipc);
    case ChildError => StopIsGood(s, SpawnFailed, ipc);
    case Spawned(hasPid) =>
      StopIsGood(s, SpawnFailed, ipc);
      if s.child.started { FlagsAreGood(s, s.(child := s.child.(spawned := true))); }
    case IdentityRead => if s.child.spawned { IdentityIsGood(s, ipc); }
    case ChildClosed => if s.child.started && !s.child.closed { CloseIsGood(s, ipc); }
    case Fired(timer) => TimerIsGood(s, timer, ipc);
    case SendFailed => StopIsGood(s, ControllerDisconnected, ipc);
    case Disconnected => StopIsGood(s, ControllerDisconnected, ipc);
    case Terminated => StopIsGood(s, Cancelled, ipc);
    case CleanupDone(groupAlive, failed) =>
      if s.life.cleaning && !s.life.finished { ConcludeIsGood(s, s.child.closed && !groupAlive, failed, ipc); }
  }

  lemma StepIsLater(s: State, e: Event, ipc: bool)
    requires Inv(s)
    ensures Later(s, Step(s, e, ipc)) && Step(s, e, ipc).clock == s.clock + 1
  {
    hide Handle, Stopped, Base;
    var t := s.(clock := s.clock + 1);
    TickIsLater(s);
    HandleIsGood(t, e, ipc);
    hide Later;
    LaterChains(s, t, Handle(t, e, ipc));
  }

  lemma TickIsLater(s: State)
    requires Inv(s)
    ensures Inv(s.(clock := s.clock + 1)) && Later(s, s.(clock := s.clock + 1))
  {
    hide Results, Forwarded, PassedIn, Flows, Windows, AcceptedOutput, OutputFollowsWindow, LateAcceptsAreOld;
  }

  lemma {:induction false} RunIsLater(s: State, moments: seq<Moment>)
    requires Inv(s)
    ensures Later(s, Run(s, moments)) && Run(s, moments).clock == s.clock + |moments|
    decreases |moments|
  {
    hide Step, Stopped, Base, Keeps;
    if moments == [] {
      StandingStill(s);
    } else {
      var t := Step(s, moments[0].event, moments[0].ipc);
      StepIsLater(s, moments[0].event, moments[0].ipc);
      RunIsLater(t, moments[1..]);
      LaterChains(s, t, Run(t, moments[1..]));
    }
  }

  // ---------- what one handler shows ----------

  /** The log may have grown, but by no acceptance. */
  predicate NothingAccepted(before: seq<Effect>, after: seq<Effect>) {
    before <= after && forall k | |before| <= k < |after| :: !Accepts(after[k])
  }

  lemma StopShows(s: State, next: Reason, ipc: bool)
    requires Phases(s)
    ensures var t := Stop(s, next, ipc);
      && NothingAccepted(s.log, t.log) && Forwarded(t.log) == Forwarded(s.log) && t.output == s.output
      && t.observedBytes == s.observedBytes && t.inputBytes == s.inputBytes && t.inFlight == s.inFlight
      && t.modelDeadline == s.modelDeadline
      && (s.life.finished || s.life.cleaning ==> t.log == s.log)
      && (!s.life.finished ==> t.reason == if s.reason.Some? then s.reason else Some(next))
  {
    hide Forwarded, Results;
    if !s.life.finished && !s.life.cleaning && !s.child.started && ipc {
      Appended(s.log, Stop(s, next, ipc).log[|s.log|]);
    }
  }

  /**
   * A chunk is counted in full. It overruns the protocol limit exactly when that becomes the reason; while
   * no reason is recorded nothing of it is lost, and afterwards nothing more is sent.
   */
  lemma ConsumeShows(s: State, stream: Stream, bytes: nat, held: nat, ipc: bool)
    requires Inv(s)
    ensures var t := Consume(s, stream, bytes, held, ipc);
      && t.output.Total() == s.output.Total() + bytes && t.output.limit == s.output.limit
      && NothingAccepted(s.log, t.log)
      && (s.reason.Some? || s.life.finished ==> t.log == s.log)
      && (s.reason.None? && !s.life.finished ==>
            (t.reason == Some(ProtocolLimit) <==> s.output.Total() + bytes > s.output.limit))
      && (t.reason.None? && !s.life.finished ==>
            Forwarded(t.log) + t.output.outHeld + t.output.errHeld
              == Forwarded(s.log) + s.output.outHeld + s.output.errHeld + bytes)
  {
    hide Stop, Forwarded, Traffic, Window;
    var counted := s.output.Counted(stream, bytes);
    var t := s.(output := counted);
    StopShows(t, ProtocolLimit, ipc);
    if counted.Total() <= counted.limit && s.reason.None? && !s.life.finished {
      var pending := counted.Held(stream) + bytes;
      var kept := if held < pending then held else pending;
      PassShows(t, stream, kept, pending - kept, ipc);
    }
  }

  lemma PassShows(s: State, stream: Stream, held: nat, text: nat, ipc: bool)
    requires Phases(s) && s.reason.None? && !s.life.finished
    ensures var t := Pass(s, stream, held, text, ipc);
      && NothingAccepted(s.log, t.log) && t.output == s.output.Holding(stream, held)
      && (t.reason.None? || t.reason == Some(ControllerDisconnected))
      && (t.reason.None? ==> Forwarded(t.log) == Forwarded(s.log) + text)
  {
    hide Stop, Forwarded, Results;
    var t := s.(output := s.output.Holding(stream, held));
    Appended(s.log, Text(stream, text));
    StopShows(t, ControllerDisconnected, ipc);
  }

  /** The counters, the window and the commands in flight are as they were, and nothing was accepted. */
  predicate Untouched(s: State, t: State) {
    && NothingAccepted(s.log, t.log) && t.output == s.output && t.observedBytes == s.observedBytes
    && t.inputBytes == s.inputBytes && t.inFlight == s.inFlight && t.modelDeadline == s.modelDeadline
  }

  lemma SendShows(s: State, x: Effect, ipc: bool)
    requires Phases(s)
    ensures var t := Send(s, x, ipc);
      && (!Accepts(x) ==> Untouched(s, t))
      && s.log <= t.log && t.observedBytes == s.observedBytes && t.modelDeadline == s.modelDeadline
      && t.inputBytes == s.inputBytes
      && (!NothingAccepted(s.log, t.log) ==> ipc && Accepts(x) && t.log == s.log + [x])
  {
    hide Stop;
    StopShows(s, ControllerDisconnected, ipc);
  }

  lemma RefuseShows(s: State, command: Command, next: Reason, ipc: bool)
    requires Inv(s)
    ensures Untouched(s, Refuse(s, command, next, ipc))
  {
    hide Stop, Send, Traffic, Window;
    SendShows(s, Ack(command, s.clock, false), ipc);
    AnswerNoIsGood(s, command, ipc);
    StopShows(Answer(s, command, false, ipc), next, ipc);
  }

  /** Once a reason is recorded, and before the session is ready, a message accepts and counts nothing. */
  lemma MessageAfterStop(s: State, m: Message, now: int, dead: bool, ipc: bool)
    requires Inv(s) && !s.life.finished && (s.reason.Some? || (m.Request? && !s.child.ready))
    ensures Untouched(s, OnMessage(s, m, now, dead, ipc))
    ensures m.Request? && ipc ==> OnMessage(s, m, now, dead, ipc).log == s.log + [Ack(m.command, s.clock, false)]
  {
    hide Stop, Send, Traffic, Window;
    StopShows(s, InvalidSpec, ipc);
    StopShows(s, AdapterError, ipc);
    StopShows(s, Cancelled, ipc);
    if m.Request? {
      SendShows(s, Ack(m.command, s.clock, false), ipc);
      SendAppends(s, Ack(m.command, s.clock, false));
    }
  }

  lemma SendAppends(s: State, x: Effect)
    ensures Send(s, x, true).log == s.log + [x]
  {
  }

  /** What an acceptance of the window, or of observed output, says about the session. */
  predicate AcceptanceMeans(s: State, t: State, m: Message, now: int) {
    !NothingAccepted(s.log, t.log) ==>
      && m.Request? && s.reason.None? && t.log == s.log + [Ack(m.command, s.clock, true)]
      && match m.command.body
         case ArmModel(deadline) =>
           && s.modelDeadline.None? && deadline.Some? && t.modelDeadline == deadline
           && now < deadline.value <= now + MODEL_WINDOW_MS
         case Observe(bytes) =>
           && s.modelDeadline.Some? && bytes.Some?
           && t.observedBytes == s.observedBytes + bytes.value <= OBSERVED_OUTPUT_LIMIT
         case EndInput => s.child.inputEnded
         case _ => false
  }

  lemma MessageAccepts(s: State, m: Message, now: int, dead: bool, ipc: bool)
    requires Inv(s) && !s.life.finished
    ensures AcceptanceMeans(s, OnMessage(s, m, now, dead, ipc), m, now)
  {
    if s.reason.Some? || (m.Request? && !s.child.ready) {
      hide OnMessage;
      MessageAfterStop(s, m, now, dead, ipc);
    } else if m.Request? {
      RequestAccepts(s, m.command, now, dead, ipc);
    } else {
      hide Stop, Traffic, Window;
      StopShows(s, InvalidSpec, ipc);
      StopShows(s, AdapterError, ipc);
      StopShows(s, Cancelled, ipc);
      if m.Init? { InitAccepts(s, m.spec, ipc); }
    }
  }

  lemma InitAccepts(s: State, spec: ChildSpec, ipc: bool)
    requires Inv(s) && s.reason.None? && !s.life.finished
    ensures NothingAccepted(s.log, Initialize(s, spec, ipc).log)
  {
    hide Stop, Traffic, Window, Results;
    StopShows(s, InvalidSpec, ipc);
    if !s.life.initialized {
      var t := s.(life := s.life.(initialized := true), timers := s.timers.(init := false));
      StopShows(t, InvalidSpec, ipc);
      var limit := BoundedProtocol(spec.rawProtocolLimitBytes);
      if limit.Some? {
        var u := t.(output := t.output.(limit := limit.value));
        StopShows(u, SpawnFailed, ipc);
        StopShows(u.(child := u.child.(started := true)), SpawnFailed, ipc);
      }
    }
  }

  lemma RequestAccepts(s: State, command: Command, now: int, dead: bool, ipc: bool)
    requires Inv(s) && !s.life.finished && s.reason.None? && s.child.ready
    ensures AcceptanceMeans(s, Perform(s, command, now, dead, ipc), Request(command), now)
  {
    hide Send, Refuse, Stop, Traffic, Window, Results;
    match command.body
    case Write(bytes) =>
      RefuseShows(s, command, ProtocolLimit, ipc);
      if bytes.Some? {
        ReceivingIsGood(s, bytes.value);
        RefuseShows(s.(inputBytes := s.inputBytes + bytes.value), command, TransportFailed, ipc);
      }
    case EndInput =>
      SendShows(s, Ack(command, s.clock, true), ipc);
    case ArmModel(deadline) =>
      SendShows(s, Ack(command, s.clock, false), ipc);
      SendShows(s.(modelDeadline := deadline, timers := s.timers.(prepare := false, model := true)),
                Ack(command, s.clock, true), ipc);
    case Observe(bytes) =>
      SendShows(s, Ack(command, s.clock, false), ipc);
      if bytes.Some? && s.modelDeadline.Some? {
        ObservingIsGood(s, bytes.value);
        var t := s.(observedBytes := s.observedBytes + bytes.value);
        SendShows(t, Ack(command, s.clock, true), ipc);
        RefuseShows(t, command, OutputLimit, ipc);
      }
    case Unknown =>
      RefuseShows(s, command, InvalidSpec, ipc);
  }

  lemma ObservingIsGood(s: State, bytes: nat)
    requires Inv(s)
    ensures Inv(s.(observedBytes := s.observedBytes + bytes))
  {
    hide Results, Forwarded, PassedIn, Windows, AcceptedOutput, OutputFollowsWindow, Flows;
  }

  // ---------- the theorems ----------

  lemma InitialTraffic(s: State)
    requires Initial(s)
    ensures Traffic(s)
  {
    hide Results, Forwarded, PassedIn, Windows, AcceptedOutput;
    EmptyLog(s.log);
  }

  lemma InitialWindow(s: State)
    requires Initial(s)
    ensures Window(s)
  {
    hide Results, Forwarded, PassedIn, Windows, AcceptedOutput;
    EmptyLog(s.log);
  }

  lemma InitialHolds(s: State)
    requires Initial(s)
    ensures Inv(s) && s.clock == 0
  {
    hide Results, Forwarded, PassedIn, Windows, AcceptedOutput, Traffic, Window;
    EmptyLog(s.log);
    InitialTraffic(s);
    InitialWindow(s);
  }

  lemma EmptyLog(log: seq<Effect>)
    requires |log| == 0
    ensures Results(log) == Forwarded(log) == PassedIn(log) == Windows(log) == AcceptedOutput(log) == 0
  {
  }

  /** Every order of events sends one result at most, and only when the machine has finished. */
  lemma AtMostOneResult(start: State, moments: seq<Moment>)
    requires Initial(start)
    ensures var s := Run(start, moments); Results(s.log) <= 1 && (Results(s.log) == 1 ==> s.life.finished)
  {
    hide Initial, Handle;
    InitialHolds(start);
    RunIsLater(start, moments);
  }

  /** What is sent on never exceeds the session's protocol limit, nor what the child wrote; its input is bounded too. */
  lemma ForwardedWithinLimit(start: State, moments: seq<Moment>)
    requires Initial(start)
    ensures var s := Run(start, moments);
      && Forwarded(s.log) <= s.output.limit <= RAW_PROTOCOL_LIMIT
      && Forwarded(s.log) <= s.output.Total()
      && PassedIn(s.log) <= RAW_PROTOCOL_LIMIT
  {
    hide Initial, Handle;
    InitialHolds(start);
    RunIsLater(start, moments);
  }

  /** The model window is granted once at most; output is accepted only after it, and 8 KiB of it at most. */
  lemma AcceptedOutputIsBounded(start: State, moments: seq<Moment>)
    requires Initial(start)
    ensures var s := Run(start, moments);
      Windows(s.log) <= 1 && AcceptedOutput(s.log) <= OBSERVED_OUTPUT_LIMIT && OutputFollowsWindow(s.log)
  {
    hide Initial, Handle;
    InitialHolds(start);
    RunIsLater(start, moments);
  }

  /** A recorded reason stays, or becomes `cleanup_failed`; after the end it stays. */
  lemma RecordedReasonStays(start: State, before: seq<Moment>, later: seq<Moment>)
    requires Initial(start)
    ensures var s := Run(start, before); var t := Run(s, later);
      && (s.reason.Some? ==> t.reason == s.reason || t.reason == Some(CleanupFailed))
      && (s.life.finished ==> t.life.finished && t.reason == s.reason)
      && s.log <= t.log
  {
    hide Initial, Handle;
    InitialHolds(start);
    RunIsLater(start, before);
    RunIsLater(Run(start, before), later);
  }

  /**
   * Once a reason is recorded, nothing that comes after that step is ever accepted; only earlier
   * commands still are.
   */
  lemma NoLateSuccess(start: State, before: seq<Moment>, later: seq<Moment>)
    requires Initial(start)
    ensures var s := Run(start, before); var t := Run(s, later);
      s.reason.Some? ==> forall k | |s.log| <= k < |t.log| && Accepts(t.log[k]) :: t.log[k].at <= |before|
  {
    hide Initial, Handle;
    InitialHolds(start);
    RunIsLater(start, before);
    var s := Run(start, before);
    RunIsLater(s, later);
    hide Run, Results, Forwarded, PassedIn, Windows, AcceptedOutput, Step;
    if s.reason.Some? {
      assert Old(s.inFlight, |before|);
      assert Stopped(s, |s.log|, |before|);
    }
  }

  /** A recorded reason means that cleanup has begun, and the end of the cleanup reports once. */
  lemma CleanupReports(start: State, moments: seq<Moment>, groupAlive: bool, failed: bool)
    requires Initial(start)
    ensures var s := Run(start, moments);
      && (s.reason.Some? ==> s.life.cleaning)
      && (s.life.cleaning && !s.life.finished ==>
            var t := Step(s, CleanupDone(groupAlive, failed), true);
            && t.life.finished && Results(t.log) == 1 && |t.log| == |s.log| + 1
            && var r := t.log[|s.log|];
               && r.Result? && r.groupExited == (s.child.closed && !groupAlive)
               && (r.reason == if !r.groupExited || failed then CleanupFailed
                               else if s.reason.Some? then s.reason.value else Exited))
  {
    hide Initial, Handle;
    InitialHolds(start);
    RunIsLater(start, moments);
    var s := Run(start, moments);
    if s.life.cleaning && !s.life.finished { CleanupStepReports(s, groupAlive, failed); }
  }

  lemma CleanupStepReports(s: State, groupAlive: bool, failed: bool)
    requires Inv(s) && s.life.cleaning && !s.life.finished
    ensures var t := Step(s, CleanupDone(groupAlive, failed), true);
      && t.life.finished && Results(t.log) == 1 && |t.log| == |s.log| + 1
      && var r := t.log[|s.log|];
         && r.Result? && r.groupExited == (s.child.closed && !groupAlive)
         && (r.reason == if !r.groupExited || failed then CleanupFailed
                         else if s.reason.Some? then s.reason.value else Exited)
  {
    hide Traffic, Window;
    Appended(s.log, Step(s, CleanupDone(groupAlive, failed), true).log[|s.log|]);
  }
}
