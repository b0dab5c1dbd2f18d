/**
 * Which event stops a diagnostic session and for what reason, what each command does to a session that
 * is ready, and that no session is ever without a timer (src/agent-diagnostic-runner.ts:161-317).
 */
module SupervisorEvents {
  import opened Wrappers
  import opened DiagnosticSupervisor
  import opened SupervisorRuns

  /** The session runs: no reason is recorded and its cleanup is not over. */
  predicate IsLive(s: State) { Inv(s) && s.reason.None? && !s.life.finished }

  lemma StopRecords(s: State, next: Reason, ipc: bool)
    requires Phases(s)
    ensures var t := Stop(s, next, ipc);
      && (!s.life.finished ==> t.reason == Some(if s.reason.Some? then s.reason.value else next))
      && (!s.life.finished && s.child.started ==>
            t.life == s.life.(cleaning := true) && t.log == s.log && t.child == s.child && t.inFlight == s.inFlight)
      && (!s.life.finished && !s.life.cleaning ==> t.timers == Timers(false, false, false))
      && (!s.life.finished ==> t.life.cleaning)
      && t.output == s.output && t.observedBytes == s.observedBytes && t.inputBytes == s.inputBytes
      && t.modelDeadline == s.modelDeadline
  {
    hide Results;
  }

  /** Before there is a child, a stop ends the session at once and reports it. */
  lemma StopWithoutChild(s: State, next: Reason, ipc: bool)
    requires IsLive(s) && !s.child.started
    ensures var t := Stop(s, next, ipc);
      && t.life.finished && t.reason == Some(next)
      && t.log == s.log + (if ipc then [Result(next, true, 0, 0, s.observedBytes, s.modelDeadline.Some?)] else [])
  {
    hide Results, Forwarded, PassedIn, Window;
  }

  /** With the channel down nothing is sent, and the loss of the controller stops the session. */
  lemma LostChannelStops(s: State, x: Effect)
    requires IsLive(s) && s.child.started
    ensures var t := Send(s, x, false); t.log == s.log && t.reason == Some(ControllerDisconnected)
  {
    hide Results, Traffic, Window;
    StopRecords(s, ControllerDisconnected, false);
  }

  // ---------- timers ----------

  /** A timer that is set stops a live session when it fires: with the time-out of the phase it watches. */
  lemma TimersStop(s: State, timer: Timer, ipc: bool)
    requires IsLive(s)
    ensures var t := Step(s, Fired(timer), ipc);
      t.reason == match timer
        case InitTimer => if s.timers.init then Some(PrepareTimeout) else None
        case PrepareTimer => if s.timers.prepare then Some(PrepareTimeout) else None
        case ModelTimer => if s.timers.model then Some(ModelTimeout) else None
  {
    hide Stop, Results, Traffic, Window;
    var t := s.(clock := s.clock + 1);
    StopRecords(t.(timers := t.timers.(init := false)), PrepareTimeout, ipc);
    StopRecords(t.(timers := t.timers.(prepare := false)), PrepareTimeout, ipc);
    StopRecords(t.(timers := t.timers.(model := false)), ModelTimeout, ipc);
  }

  /**
   * Until its cleanup begins, a session has exactly the timer of its phase: one until it is initialized,
   * one until the model window is set, and one for that window.
   */
  predicate IsWatched(s: State) {
    !s.life.cleaning ==>
      s.timers == Timers(!s.life.initialized, s.life.initialized && s.modelDeadline.None?, s.modelDeadline.Some?)
  }

  lemma StopIsWatched(s: State, next: Reason, ipc: bool)
    requires !s.life.finished || s.life.cleaning
    ensures IsWatched(Stop(s, next, ipc))
  {
  }

  lemma SendIsWatched(s: State, x: Effect, ipc: bool)
    requires IsWatched(s) && (s.life.finished ==> s.life.cleaning)
    ensures IsWatched(Send(s, x, ipc)) && (Send(s, x, ipc).life.finished ==> Send(s, x, ipc).life.cleaning)
  {
    hide Stop;
    StopIsWatched(s, ControllerDisconnected, ipc);
    StopKeepsPhases(s, ControllerDisconnected, ipc);
  }

  lemma StopKeepsPhases(s: State, next: Reason, ipc: bool)
    requires s.life.finished ==> s.life.cleaning
    ensures Stop(s, next, ipc).life.finished ==> Stop(s, next, ipc).life.cleaning
  {
  }

  lemma RefuseIsWatched(s: State, command: Command, reason: Reason, ipc: bool)
    requires IsWatched(s) && (s.life.finished ==> s.life.cleaning)
    ensures IsWatched(Refuse(s, command, reason, ipc))
  {
    hide Stop, Send;
    SendIsWatched(s, Ack(command, s.clock, false), ipc);
    StopIsWatched(Answer(s, command, false, ipc), reason, ipc);
  }

  lemma PerformIsWatched(s: State, command: Command, now: int, dead: bool, ipc: bool)
    requires IsWatched(s) && Inv(s)
    ensures IsWatched(Perform(s, command, now, dead, ipc))
  {
    hide Stop, Send, Refuse, Traffic, Window, Results;
    SendIsWatched(s, Ack(command, s.clock, false), ipc);
    SendIsWatched(s, Ack(command, s.clock, true), ipc);
    match command.body
    case Write(bytes) =>
      RefuseIsWatched(s, command, ProtocolLimit, ipc);
      if bytes.Some? { RefuseIsWatched(s.(inputBytes := s.inputBytes + bytes.value), command, TransportFailed, ipc); }
    case EndInput =>
    case ArmModel(deadline) =>
      if deadline.Some? && s.child.ready {
        SendIsWatched(s.(modelDeadline := deadline, timers := s.timers.(prepare := false, model := true)),
                      Ack(command, s.clock, true), ipc);
      }
    case Observe(bytes) =>
      if bytes.Some? {
        var t := s.(observedBytes := s.observedBytes + bytes.value);
        RefuseIsWatched(t, command, OutputLimit, ipc);
        SendIsWatched(t, Ack(command, t.clock, true), ipc);
      }
    case Unknown =>
      RefuseIsWatched(s, command, InvalidSpec, ipc);
  }

  lemma InitializeIsWatched(s: State, spec: ChildSpec, ipc: bool)
    requires IsWatched(s) && Inv(s) && !s.life.finished
    ensures IsWatched(Initialize(s, spec, ipc))
  {
    hide Stop, Traffic, Window, Results;
    StopIsWatched(s, InvalidSpec, ipc);
    var t := s.(life := s.life.(initialized := true), timers := s.timers.(init := false));
    StopIsWatched(t, InvalidSpec, ipc);
    var limit := BoundedProtocol(spec.rawProtocolLimitBytes);
    if limit.Some? {
      var u := t.(output := t.output.(limit := limit.value));
      StopIsWatched(u, SpawnFailed, ipc);
      StopIsWatched(u.(child := u.child.(started := true)), SpawnFailed, ipc);
    }
  }

  lemma MessageIsWatched(s: State, m: Message, now: int, dead: bool, ipc: bool)
    requires IsWatched(s) && Inv(s) && !s.life.finished
    ensures IsWatched(OnMessage(s, m, now, dead, ipc))
  {
    hide Stop, Perform, Initialize, Traffic, Window, Results;
    StopIsWatched(s, InvalidSpec, ipc);
    StopIsWatched(s, AdapterError, ipc);
    StopIsWatched(s, Cancelled, ipc);
    match m
    case Init(spec) => InitializeIsWatched(s, spec, ipc);
    case Request(command) => PerformIsWatched(s, command, now, dead, ipc);
    case _ =>
  }

  lemma OutputIsWatched(s: State, stream: Stream, bytes: nat, held: nat, ipc: bool)
    requires IsWatched(s) && Inv(s)
    ensures IsWatched(Consume(s, stream, bytes, held, ipc))
  {
    hide Stop, Send, IsWatched, Traffic, Window, Results;
    OutputUnwatched(s);
    var counted := s.output.Counted(stream, bytes);
    var t := s.(output := counted);
    StopIsWatched(t, ProtocolLimit, ipc);
    var pending := counted.Held(stream) + bytes;
    var kept := if held < pending then held else pending;
    SendIsWatched(t.(output := t.output.Holding(stream, kept)), Text(stream, pending - kept), ipc);
  }

  lemma OutputUnwatched(s: State)
    requires IsWatched(s)
    ensures forall output: Output :: IsWatched(s.(output := output))
  {
  }

  lemma CloseIsWatched(s: State, ipc: bool)
    ensures IsWatched(Close(s, ipc))
  {
    hide Stop, Pass;
  }

  lemma HandleIsWatched(s: State, e: Event, ipc: bool)
    requires IsWatched(s) && Inv(s)
    ensures IsWatched(Handle(s, e, ipc))
  {
    hide Stop, Send, OnMessage, Consume, Close, OnTimer, Answered, Traffic, Window, Results;
    StopIsWatched(s, TransportFailed, ipc);
    StopIsWatched(s, SpawnFailed, ipc);
    StopIsWatched(s, ControllerDisconnected, ipc);
    StopIsWatched(s, Cancelled, ipc);
    match e
    case Received(m, now, dead) => if !s.life.finished { MessageIsWatched(s, m, now, dead, ipc); }
    case InputDone(index, failed) => if index < |s.inFlight| { AnsweredIsWatched(s, s.inFlight[index], failed, ipc); }
    case Data(stream, bytes, held) => OutputIsWatched(s, stream, bytes, held, ipc);
    case IdentityRead => SendIsWatched(s.(child := s.child.(ready := true)), Ready, ipc);
    case ChildClosed => CloseIsWatched(s, ipc);
    case Fired(timer) => TimerIsWatched(s, timer, ipc);
    case _ =>
  }

  lemma TimerIsWatched(s: State, timer: Timer, ipc: bool)
    requires IsWatched(s) && Inv(s)
    ensures IsWatched(OnTimer(s, timer, ipc))
  {
    hide Stop, Traffic, Window, Results;
    StopIsWatched(s.(timers := s.timers.(init := false)), PrepareTimeout, ipc);
    StopIsWatched(s.(timers := s.timers.(prepare := false)), PrepareTimeout, ipc);
    StopIsWatched(s.(timers := s.timers.(model := false)), ModelTimeout, ipc);
  }

  lemma AnsweredIsWatched(s: State, flight: InFlight, failed: bool, ipc: bool)
    requires IsWatched(s) && Inv(s)
    ensures IsWatched(Answered(s, flight, failed, ipc))
  {
    hide Stop, Send, Traffic, Window, Results;
    SendIsWatched(s, Ack(flight.command, flight.at, true), ipc);
    SendIsWatched(s, Ack(flight.command, flight.at, false), ipc);
    StopIsWatched(Send(s, Ack(flight.command, flight.at, false), ipc), TransportFailed, ipc);
  }

  lemma {:induction false} RunIsWatched(s: State, moments: seq<Moment>)
    requires Inv(s) && IsWatched(s)
    ensures IsWatched(Run(s, moments))
    decreases |moments|
  {
    hide Handle, Inv, Later, IsWatched;
    if moments != [] {
      StepIsWatched(s, moments[0].event, moments[0].ipc);
      StepIsLater(s, moments[0].event, moments[0].ipc);
      LaterIsGood(s, Step(s, moments[0].event, moments[0].ipc));
      RunIsWatched(Step(s, moments[0].event, moments[0].ipc), moments[1..]);
    }
  }

  lemma LaterIsGood(s: State, t: State)
    requires Later(s, t)
    ensures Inv(t)
  {
  }

  lemma StepIsWatched(s: State, e: Event, ipc: bool)
    requires Inv(s) && IsWatched(s)
    ensures IsWatched(Step(s, e, ipc))
  {
    hide Handle, Traffic, Window, Results;
    TickIsLater(s);
    HandleIsWatched(s.(clock := s.clock + 1), e, ipc);
  }

  /** In every run a session that has not begun its cleanup has exactly the timer of its phase, and that stops it. */
  lemma NeverUnwatched(start: State, moments: seq<Moment>, ipc: bool)
    requires Initial(start)
    ensures var s := Run(start, moments);
      && IsWatched(s)
      && (!s.life.cleaning ==>
            var timer :=
              if !s.life.initialized then InitTimer else if s.modelDeadline.None? then PrepareTimer else ModelTimer;
            Step(s, Fired(timer), ipc).reason == Some(if timer.ModelTimer? then ModelTimeout else PrepareTimeout))
  {
    hide Handle, Step, Inv, Later;
    InitialHolds(start);
    RunIsLater(start, moments);
    LaterIsGood(start, Run(start, moments));
    RunIsWatched(start, moments);
    var s := Run(start, moments);
    if !s.life.cleaning {
      UncleanIsLive(s);
      TimersStop(s, InitTimer, ipc);
      TimersStop(s, PrepareTimer, ipc);
      TimersStop(s, ModelTimer, ipc);
    }
  }

  lemma UncleanIsLive(s: State)
    requires Inv(s) && !s.life.cleaning
    ensures IsLive(s)
  {
    hide Traffic, Window, Results;
  }

  // ---------- reasons ----------

  /** The bounds of a child specification. */
  predicate SpecIsBounded(spec: ChildSpec) {
    && spec.wellFormed
    && (spec.prepareTimeoutMs.Some? ==> 10 <= spec.prepareTimeoutMs.value <= 60_000)
    && (spec.rawProtocolLimitBytes.Some? ==> 1024 <= spec.rawProtocolLimitBytes.value <= 8_388_608)
  }

  /** What a message makes the reason of a live session whose channel is up: nothing, or what it violates. */
  lemma MessageReasons(s: State, m: Message, now: int, dead: bool)
    requires IsLive(s)
    ensures OnMessage(s, m, now, dead, true).reason ==
      match m
      case Malformed => Some(InvalidSpec)
      case WithoutId => Some(InvalidSpec)
      case StopRequest(adapterError) => Some(if adapterError then AdapterError else Cancelled)
      case Init(spec) =>
        if s.life.initialized || !SpecIsBounded(spec) then Some(InvalidSpec)
        else if spec.spawn == Started then None else Some(SpawnFailed)
      case Request(command) =>
        if !s.child.ready then None
        else
          match command.body
          case Write(bytes) =>
            if bytes.None? || bytes.value > 1_048_576 then Some(ProtocolLimit)
            else if s.inputBytes + bytes.value > 8_388_608 || s.child.inputEnded || dead then Some(TransportFailed)
            else None
          case Observe(bytes) =>
            if bytes.Some? && s.modelDeadline.Some? && s.observedBytes + bytes.value > 8192
            then Some(OutputLimit) else None
          case Unknown => Some(InvalidSpec)
          case _ => None
  {
    hide Stop, Traffic, Window, Results;
    forall next { StopRecords(s, next, true); }
    match m
    case Init(spec) => InitReasons(s, spec);
    case Request(command) => RequestReasons(s, command, now, dead);
    case _ =>
  }

  /** A first, bounded specification whose child starts sets its limit and its timer, and the child is there. */
  lemma InitializeStarts(s: State, spec: ChildSpec, ipc: bool)
    requires IsLive(s) && !s.life.initialized && SpecIsBounded(spec)
    ensures var t := Initialize(s, spec, ipc);
      && t.life.initialized && !t.timers.init
      && t.output.limit == (if spec.rawProtocolLimitBytes.None? then 8_388_608 else spec.rawProtocolLimitBytes.value)
      && (spec.spawn != Threw ==> t.child == s.child.(started := true))
      && (spec.spawn == Threw ==> t.child == s.child && t.life.finished)
      && (spec.spawn == Started ==> t.timers.prepare && t.log == s.log && t.reason.None?)
  {
    hide Stop, Traffic, Window, Results;
    var t := s.(life := s.life.(initialized := true), timers := s.timers.(init := false));
    var limit := BoundedProtocol(spec.rawProtocolLimitBytes).value;
    var u := t.(output := t.output.(limit := limit));
    StopEnds(u, ipc);
    StopRecords(u, SpawnFailed, ipc);
    StopRecords(u.(child := u.child.(started := true)), SpawnFailed, ipc);
    StopEnds(u.(child := u.child.(started := true)), ipc);
  }

  lemma StopEnds(s: State, ipc: bool)
    ensures Stop(s, SpawnFailed, ipc).life.initialized == s.life.initialized
      && Stop(s, SpawnFailed, ipc).child == s.child
    ensures !s.life.finished && !s.life.cleaning ==>
      !Stop(s, SpawnFailed, ipc).timers.init && (!s.child.started ==> Stop(s, SpawnFailed, ipc).life.finished)
  {
  }

  lemma InitReasons(s: State, spec: ChildSpec)
    requires IsLive(s)
    ensures Initialize(s, spec, true).reason
      == if s.life.initialized || !SpecIsBounded(spec) then Some(InvalidSpec)
         else if spec.spawn == Started then None else Some(SpawnFailed)
  {
    hide Stop, Traffic, Window, Results;
    StopRecords(s, InvalidSpec, true);
    var t := s.(life := s.life.(initialized := true), timers := s.timers.(init := false));
    if !s.life.initialized {
      StopRecords(t, InvalidSpec, true);
      var limit := BoundedProtocol(spec.rawProtocolLimitBytes);
      if limit.Some? {
        var u := t.(output := t.output.(limit := limit.value));
        StopRecords(u, SpawnFailed, true);
        StopRecords(u.(child := u.child.(started := true)), SpawnFailed, true);
      }
    }
  }

  lemma RefuseRecords(s: State, command: Command, next: Reason)
    requires IsLive(s) && s.child.started
    ensures var t := Refuse(s, command, next, true);
      t.reason == Some(next) && t.log == s.log + [Ack(command, s.clock, false)]
  {
    hide Stop, Traffic, Window;
    var t := Answer(s, command, false, true);
    Appended(s.log, Ack(command, s.clock, false));
    StopRecords(t, next, true);
  }

  lemma CountingIsLive(s: State, input: nat, observed: nat)
    requires IsLive(s)
    ensures IsLive(s.(inputBytes := s.inputBytes + input, observedBytes := s.observedBytes + observed))
  {
    hide Results, Forwarded, PassedIn, Windows, AcceptedOutput, OutputFollowsWindow, Flows;
  }

  lemma RequestReasons(s: State, command: Command, now: int, dead: bool)
    requires IsLive(s)
    ensures Perform(s, command, now, dead, true).reason ==
      if !s.child.ready then None
      else
        match command.body
        case Write(bytes) =>
          if bytes.None? || bytes.value > 1_048_576 then Some(ProtocolLimit)
          else if s.inputBytes + bytes.value > 8_388_608 || s.child.inputEnded || dead then Some(TransportFailed)
          else None
        case Observe(bytes) =>
          if bytes.Some? && s.modelDeadline.Some? && s.observedBytes + bytes.value > 8192
          then Some(OutputLimit) else None
        case Unknown => Some(InvalidSpec)
        case _ => None
  {
    hide Refuse, Traffic, Window, Results;
    if s.child.ready {
      ReadyIsStarted(s);
      RefuseRecords(s, command, ProtocolLimit);
      RefuseRecords(s, command, InvalidSpec);
      if command.body.Write? && command.body.bytes.Some? {
        CountingIsLive(s, command.body.bytes.value, 0);
        RefuseRecords(s.(inputBytes := s.inputBytes + command.body.bytes.value), command, TransportFailed);
      }
      if command.body.Observe? && command.body.bytes.Some? {
        CountingIsLive(s, 0, command.body.bytes.value);
        RefuseRecords(s.(observedBytes := s.observedBytes + command.body.bytes.value), command, OutputLimit);
      }
    }
  }

  lemma ReadyIsStarted(s: State)
    requires Inv(s) && s.child.ready
    ensures s.child.started && s.child.spawned
  {
    hide Traffic, Window, Results;
  }

  /** What a command does to a ready session whose channel is up: the answer, what is passed on, and what is set. */
  lemma ReadyRequest(s: State, command: Command, now: int, dead: bool)
    requires IsLive(s) && s.child.ready
    ensures var t := Perform(s, command, now, dead, true);
      match command.body
      case Write(bytes) =>
        var passes := && bytes.Some? && bytes.value <= 1_048_576 && s.inputBytes + bytes.value <= 8_388_608
                      && !s.child.inputEnded && !dead;
        && t.log == s.log + [if passes then Input(bytes.value) else Ack(command, s.clock, false)]
        && t.inFlight == s.inFlight + (if passes then [InFlight(command, s.clock)] else [])
        && (passes ==> t.inputBytes == s.inputBytes + bytes.value)
      case EndInput =>
        && t.child.inputEnded
        && t.log == s.log + (if s.child.inputEnded then [Ack(command, s.clock, true)] else [])
        && t.inFlight == s.inFlight + (if s.child.inputEnded then [] else [InFlight(command, s.clock)])
      case ArmModel(deadline) =>
        var sets := s.modelDeadline.None? && deadline.Some? && now < deadline.value <= now + 90_000;
        && t.log == s.log + [Ack(command, s.clock, sets)]
        && t.modelDeadline == (if sets then deadline else s.modelDeadline)
      case Observe(bytes) =>
        var counts := bytes.Some? && s.modelDeadline.Some?;
        && t.log == s.log + [Ack(command, s.clock, counts && s.observedBytes + bytes.value <= 8192)]
        && t.observedBytes == s.observedBytes + (if counts then bytes.value else 0)
      case Unknown => t.log == s.log + [Ack(command, s.clock, false)]
  {
    hide Refuse, Traffic, Window, Results;
    ReadyIsStarted(s);
    RefuseRecords(s, command, ProtocolLimit);
    RefuseRecords(s, command, InvalidSpec);
    RefuseShows(s, command, ProtocolLimit, true);
    if command.body.Write? && command.body.bytes.Some? {
      var t := s.(inputBytes := s.inputBytes + command.body.bytes.value);
      CountingIsLive(s, command.body.bytes.value, 0);
      RefuseRecords(t, command, TransportFailed);
      RefuseShows(t, command, TransportFailed, true);
    }
    if command.body.Observe? && command.body.bytes.Some? {
      var t := s.(observedBytes := s.observedBytes + command.body.bytes.value);
      CountingIsLive(s, 0, command.body.bytes.value);
      RefuseRecords(t, command, OutputLimit);
      RefuseShows(t, command, OutputLimit, true);
    }
  }

  /** What the child and the controller make the reason of a live session. */
  lemma EventReasons(s: State, e: Event, ipc: bool)
    requires IsLive(s)
    ensures var t := Step(s, e, ipc);
      match e
      case InputError => t.reason == if s.child.started then Some(TransportFailed) else None
      case ChildError => t.reason == if s.child.started then Some(SpawnFailed) else None
      case Spawned(hasPid) =>
        && t.reason == (if s.child.started && !s.child.spawned && !hasPid then Some(SpawnFailed) else None)
        && t.child.spawned == (s.child.spawned || (s.child.started && hasPid))
      case SendFailed => t.reason == Some(ControllerDisconnected)
      case Disconnected => t.reason == Some(ControllerDisconnected)
      case Terminated => t.reason == Some(Cancelled)
      case CleanupDone(groupAlive, failed) =>
        t.reason == if s.life.cleaning && (!s.child.closed || groupAlive || failed) then Some(CleanupFailed) else None
      case Data(_, bytes, _) =>
        ipc ==> t.reason == if s.child.started && !s.child.closed && s.output.Total() + bytes > s.output.limit
                            then Some(ProtocolLimit) else None
      case InputDone(index, failed) =>
        ipc ==> t.reason == if index < |s.inFlight| && s.inFlight[index].command.body.Write? && failed
                            then Some(TransportFailed) else None
      case _ => true
  {
    hide Stop, Traffic, Window, Results, OnMessage;
    var t := s.(clock := s.clock + 1);
    forall next { StopRecords(t, next, ipc); }
    if e.Data? { StopRecords(t.(output := t.output.Counted(e.stream, e.bytes)), ProtocolLimit, ipc); }
    if e.InputDone? && e.index < |s.inFlight| { FailedWriteStops(t, s.inFlight[e.index], e.failed); }
  }

  lemma FailedWriteStops(s: State, flight: InFlight, failed: bool)
    requires Phases(s) && s.reason.None? && !s.life.finished
    ensures var t := Answered(s, flight, failed, true);
      && t.reason == (if flight.command.body.Write? && failed then Some(TransportFailed) else None)
      && s.log < t.log && t.log[|s.log|] == Ack(flight.command, flight.at, !(flight.command.body.Write? && failed))
  {
    hide Stop, Traffic, Window;
    var x := Ack(flight.command, flight.at, false);
    Appended(s.log, x);
    StopRecords(s.(log := s.log + [x]), TransportFailed, true);
    StopShows(s.(log := s.log + [x]), TransportFailed, true);
  }

  /** The session is ready once, when the child has its pid and identity while it still runs. */
  lemma ReadyIff(s: State, ipc: bool)
    requires IsLive(s)
    ensures var t := Step(s, IdentityRead, ipc);
      var becomes := s.child.spawned && !s.child.ready && !s.child.closed;
      && t.child.ready == (s.child.ready || becomes)
      && (ipc ==> t.log == s.log + (if becomes then [Ready] else []))
      && (becomes && !ipc ==> t.reason == Some(ControllerDisconnected))
  {
    hide Stop, Traffic, Window, Results;
    var t := s.(clock := s.clock + 1, child := s.child.(ready := true));
    ReadyChild(s);
    if s.child.spawned { StopRecords(t, ControllerDisconnected, ipc); }
  }

  lemma ReadyChild(s: State)
    requires Inv(s)
    ensures s.child.spawned ==> Phases(s.(clock := s.clock + 1, child := s.child.(ready := true))) && s.child.started
  {
  }

  /** When the child closes, what the decoders hold is sent, if no reason was recorded, and cleanup begins. */
  lemma CloseFlushes(s: State)
    requires IsLive(s) && s.child.started && !s.child.closed
    ensures var t := Step(s, ChildClosed, true);
      && t.child.closed && t.life.cleaning && t.reason.None? && t.output.outHeld == 0 && t.output.errHeld == 0
      && t.log == s.log + (if s.output.outHeld > 0 then [Text(Stdout, s.output.outHeld)] else [])
                        + (if s.output.errHeld > 0 then [Text(Stderr, s.output.errHeld)] else [])
  {
    hide Traffic, Window, Results;
  }

  /** After a recorded reason the child's close sends nothing more. */
  lemma ClosedAfterReason(s: State, ipc: bool)
    requires Inv(s) && s.reason.Some? && !s.life.finished && s.child.started && !s.child.closed
    ensures var t := Step(s, ChildClosed, ipc); t.child.closed && t.log == s.log && t.reason == s.reason
  {
    hide Traffic, Window, Results;
  }
}
