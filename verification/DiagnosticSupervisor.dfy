/**
 * The diagnostic supervisor as one machine: what each message, chunk of output, timer, child event and
 * cleanup step does to its state and what it sends (src/agent-diagnostic-runner.ts:143-319).
 */
module DiagnosticSupervisor {
  import opened Wrappers

  const MODEL_WINDOW_MS := 90_000
  const RAW_PROTOCOL_LIMIT := 8 * 1024 * 1024
  const OBSERVED_OUTPUT_LIMIT := 8 * 1024
  const INPUT_CHUNK_LIMIT := 1024 * 1024

  datatype Reason = Exited | Cancelled | PrepareTimeout | ModelTimeout | ProtocolLimit | OutputLimit
                  | ControllerDisconnected | SpawnFailed | TransportFailed | CleanupFailed | InvalidSpec | AdapterError

  datatype Stream = Stdout | Stderr

  /** A number that fails its type check is `None`; the byte counts are those of the UTF-8 text. */
  datatype Body =
    | Write(bytes: Option<nat>) | EndInput | ArmModel(deadline: Option<int>) | Observe(bytes: Option<nat>) | Unknown

  datatype Command = Command(id: int, body: Body)

  datatype SpawnOutcome = Started | Threw | Unregistered

  /** The outcome of the path and shape checks, the two bounded numbers, and what `spawn` does. */
  datatype ChildSpec = ChildSpec(wellFormed: bool, prepareTimeoutMs: Option<int>, rawProtocolLimitBytes: Option<int>,
                                 spawn: SpawnOutcome)

  datatype Message =
    | Malformed | StopRequest(adapterError: bool) | Init(spec: ChildSpec) | WithoutId | Request(command: Command)

  datatype Timer = InitTimer | PrepareTimer | ModelTimer

  /** `held` is what a chunk leaves in the decoder, `dead` whether the child's input is destroyed. */
  datatype Event =
    | Received(message: Message, now: int, dead: bool)
    | InputDone(index: nat, failed: bool)
    | Data(stream: Stream, bytes: nat, held: nat)
    | InputError | ChildError | Spawned(hasPid: bool) | IdentityRead | ChildClosed
    | Fired(timer: Timer)
    | SendFailed | Disconnected | Terminated
    | CleanupDone(groupAlive: bool, failed: bool)

  /** What leaves the supervisor; an acknowledgement is kept with the command it answers and when that came. */
  datatype Effect =
    | Ready
    | Text(stream: Stream, bytes: nat)
    | Ack(command: Command, at: nat, ok: bool)
    | Result(reason: Reason, groupExited: bool, stdoutBytes: nat, stderrBytes: nat, observedBytes: nat, armed: bool)
    | Input(bytes: nat)

  datatype InFlight = InFlight(command: Command, at: nat)

  /** The child's two output streams: bytes received, bytes still in the decoder, and their limit. */
  datatype Output = Output(stdoutBytes: nat, stderrBytes: nat, outHeld: nat, errHeld: nat, limit: nat) {
    function Total(): nat { stdoutBytes + stderrBytes }

    function Held(stream: Stream): nat {
      if stream == Stdout then outHeld else errHeld
    }

    function Counted(stream: Stream, bytes: nat): Output {
      if stream == Stdout then this.(stdoutBytes := stdoutBytes + bytes) else this.(stderrBytes := stderrBytes + bytes)
    }

    function Holding(stream: Stream, held: nat): Output {
      if stream == Stdout then this.(outHeld := held) else this.(errHeld := held)
    }
  }

  datatype Life = Life(initialized: bool, cleaning: bool, finished: bool)

  datatype Child = Child(started: bool, spawned: bool, ready: bool, closed: bool, inputEnded: bool)

  datatype Timers = Timers(init: bool, prepare: bool, model: bool)

  datatype State = State(
    reason: Option<Reason>, life: Life, child: Child, timers: Timers, output: Output, observedBytes: nat,
      inputBytes: nat,
    modelDeadline: Option<int>, inFlight: seq<InFlight>, clock: nat, log: seq<Effect>)

  predicate Initial(s: State) {
    && s.reason.None? && s.life == Life(false, false, false) && s.child == Child(false, false, false, false, false)
    && s.timers == Timers(true, false, false) && s.output == Output(0, 0, 0, 0, RAW_PROTOCOL_LIMIT)
    && s.observedBytes == 0 && s.inputBytes == 0 && s.modelDeadline.None?
    && |s.inFlight| == 0 && s.clock == 0 && |s.log| == 0
  }

  function BoundedPreparation(value: Option<int>): Option<int> {
    if value.None? then Some(30_000) else if 10 <= value.value <= 60_000 then value else None
  }

  function BoundedProtocol(value: Option<int>): (limit: Option<nat>)
    ensures limit.Some? ==> 1024 <= limit.value <= RAW_PROTOCOL_LIMIT
  {
    if value.None? then Some(RAW_PROTOCOL_LIMIT)
    else if 1024 <= value.value <= RAW_PROTOCOL_LIMIT then Some(value.value) else None
  }

  // ---------- stopping ----------

  /** The end of the cleanup: the final reason and the one result. `ipc` says whether the channel takes messages. */
  function Conclude(s: State, groupExited: bool, failed: bool, ipc: bool): State {
    var reason := if !groupExited || failed then Some(CleanupFailed) else s.reason;
    var t := s.(reason := reason, life := s.life.(finished := true));
    var why := if reason.Some? then reason.value else Exited;
    if ipc then
      t.(log := s.log + [Result(why, groupExited, s.output.stdoutBytes, s.output.stderrBytes, s.observedBytes,
                                s.modelDeadline.Some?)])
    else t
  }

  /** Cleanup starts once; without a child it is over at once. */
  function Finish(s: State, ipc: bool): State {
    if s.life.cleaning then s
    else
      var t := s.(life := s.life.(cleaning := true), timers := Timers(false, false, false));
      if s.child.started then t else Conclude(t, true, false, ipc)
  }

  function Stop(s: State, next: Reason, ipc: bool): State {
    if s.life.finished then s
    else Finish(s.(reason := if s.reason.Some? then s.reason else Some(next)), ipc)
  }

  function Send(s: State, effect: Effect, ipc: bool): State {
    if ipc then s.(log := s.log + [effect]) else Stop(s, ControllerDisconnected, ipc)
  }

  // ---------- the child's output ----------

  /** The decoder keeps the bytes of an unfinished character and passes on the rest. */
  function Consume(s: State, stream: Stream, bytes: nat, held: nat, ipc: bool): State {
    var counted := s.output.Counted(stream, bytes);
    var t := s.(output := counted);
    if counted.Total() > counted.limit then Stop(t, ProtocolLimit, ipc)
    else if t.reason.Some? || t.life.finished then t
    else
      var pending := counted.Held(stream) + bytes;
      var kept := if held < pending then held else pending;
      Pass(t, stream, kept, pending - kept, ipc)
  }

  function Pass(s: State, stream: Stream, held: nat, text: nat, ipc: bool): State {
    var t := s.(output := s.output.Holding(stream, held));
    if text > 0 then Send(t, Text(stream, text), ipc) else t
  }

  /** Both decoders end; what they still hold is sent only when no stop was recorded before the close. */
  function Close(s: State, ipc: bool): State {
    var t := s.(child := s.child.(closed := true));
    var u :=
      if s.reason.Some? then t.(output := t.output.(outHeld := 0, errHeld := 0))
      else
        var v := Pass(t, Stdout, 0, t.output.outHeld, ipc);
        Pass(v, Stderr, 0, v.output.errHeld, ipc);
    Finish(u, ipc)
  }

  // ---------- commands ----------

  function Initialize(s: State, spec: ChildSpec, ipc: bool): State {
    if s.life.initialized || s.reason.Some? || s.life.finished then Stop(s, InvalidSpec, ipc)
    else
      var t := s.(life := s.life.(initialized := true), timers := s.timers.(init := false));
      var limit := BoundedProtocol(spec.rawProtocolLimitBytes);
      if !spec.wellFormed || BoundedPreparation(spec.prepareTimeoutMs).None? || limit.None?
      then Stop(t, InvalidSpec, ipc)
      else
        var u := t.(output := t.output.(limit := limit.value));
        match spec.spawn
        case Threw => Stop(u, SpawnFailed, ipc)
        case Unregistered => Stop(u.(child := u.child.(started := true)), SpawnFailed, ipc)
        case Started => u.(child := u.child.(started := true), timers := u.timers.(prepare := true))
  }

  function Answer(s: State, command: Command, ok: bool, ipc: bool): State {
    Send(s, Ack(command, s.clock, ok), ipc)
  }

  function Refuse(s: State, command: Command, reason: Reason, ipc: bool): State {
    Stop(Answer(s, command, false, ipc), reason, ipc)
  }

  function WriteInput(s: State, command: Command, bytes: Option<nat>, dead: bool, ipc: bool): State {
    if bytes.None? || bytes.value > INPUT_CHUNK_LIMIT then Refuse(s, command, ProtocolLimit, ipc)
    else
      var t := s.(inputBytes := s.inputBytes + bytes.value);
      if t.inputBytes > RAW_PROTOCOL_LIMIT || s.child.inputEnded || dead then Refuse(t, command, TransportFailed, ipc)
      else t.(log := t.log + [Input(bytes.value)], inFlight := t.inFlight + [InFlight(command, t.clock)])
  }

  function Arm(s: State, command: Command, deadline: Option<int>, now: int, ipc: bool): State {
    if s.modelDeadline.Some? || deadline.None? || deadline.value <= now || deadline.value - now > MODEL_WINDOW_MS
    then Answer(s, command, false, ipc)
    else Answer(s.(modelDeadline := deadline, timers := s.timers.(prepare := false, model := true)), command, true, ipc)
  }

  function ObserveOutput(s: State, command: Command, bytes: Option<nat>, ipc: bool): State {
    if bytes.None? || s.modelDeadline.None? then Answer(s, command, false, ipc)
    else
      var t := s.(observedBytes := s.observedBytes + bytes.value);
      if t.observedBytes > OBSERVED_OUTPUT_LIMIT then Refuse(t, command, OutputLimit, ipc)
      else Answer(t, command, true, ipc)
  }

  function Perform(s: State, command: Command, now: int, dead: bool, ipc: bool): State {
    if !s.child.ready || !s.child.started || s.life.finished || s.reason.Some? then Answer(s, command, false, ipc)
    else match command.body
      case Write(bytes) => WriteInput(s, command, bytes, dead, ipc)
      case EndInput =>
        if s.child.inputEnded then Answer(s, command, true, ipc)
        else s.(child := s.child.(inputEnded := true), inFlight := s.inFlight + [InFlight(command, s.clock)])
      case ArmModel(deadline) => Arm(s, command, deadline, now, ipc)
      case Observe(bytes) => ObserveOutput(s, command, bytes, ipc)
      case Unknown => Refuse(s, command, InvalidSpec, ipc)
  }

  function OnMessage(s: State, m: Message, now: int, dead: bool, ipc: bool): State {
    match m
    case Malformed => Stop(s, InvalidSpec, ipc)
    case StopRequest(adapterError) => Stop(s, if adapterError then AdapterError else Cancelled, ipc)
    case Init(spec) => Initialize(s, spec, ipc)
    case WithoutId => Stop(s, InvalidSpec, ipc)
    case Request(command) => Perform(s, command, now, dead, ipc)
  }

  /** The answer to a command whose `write` or `end` called back; it comes even after a stop was recorded. */
  function Answered(s: State, flight: InFlight, failed: bool, ipc: bool): State {
    if flight.command.body.Write? && failed
    then Stop(Send(s, Ack(flight.command, flight.at, false), ipc), TransportFailed, ipc)
    else Send(s, Ack(flight.command, flight.at, true), ipc)
  }

  function OnInputDone(s: State, index: nat, failed: bool, ipc: bool): State
    requires index < |s.inFlight|
  {
    Answered(s, s.inFlight[index], failed, ipc).(inFlight := s.inFlight[..index] + s.inFlight[index + 1..])
  }

  function OnTimer(s: State, timer: Timer, ipc: bool): State {
    match timer
    case InitTimer => if s.timers.init then Stop(s.(timers := s.timers.(init := false)), PrepareTimeout, ipc) else s
    case PrepareTimer =>
      if s.timers.prepare then Stop(s.(timers := s.timers.(prepare := false)), PrepareTimeout, ipc) else s
    case ModelTimer => if s.timers.model then Stop(s.(timers := s.timers.(model := false)), ModelTimeout, ipc) else s
  }

  // ---------- one step ----------

  /** One event; an event that cannot happen in the state, such as a timer that is not set, does nothing. */
  function Handle(s: State, e: Event, ipc: bool): State {
    match e
    case Received(m, now, dead) => if s.life.finished then s else OnMessage(s, m, now, dead, ipc)
    case InputDone(index, failed) => if index < |s.inFlight| then OnInputDone(s, index, failed, ipc) else s
    case Data(stream, bytes, held) =>
      if s.child.started && !s.child.closed then Consume(s, stream, bytes, held, ipc) else s
    case InputError => if s.child.started then Stop(s, TransportFailed, ipc) else s
    case ChildError => if s.child.started then Stop(s, SpawnFailed, ipc) else s
    case Spawned(hasPid) =>
      if !s.child.started || s.child.spawned then s
      else if hasPid then s.(child := s.child.(spawned := true)) else Stop(s, SpawnFailed, ipc)
    case IdentityRead =>
      if !s.child.spawned || s.child.ready || s.reason.Some? || s.life.finished || s.child.closed then s
      else Send(s.(child := s.child.(ready := true)), Ready, ipc)
    case ChildClosed => if s.child.started && !s.child.closed then Close(s, ipc) else s
    case Fired(timer) => OnTimer(s, timer, ipc)
    case SendFailed => Stop(s, ControllerDisconnected, ipc)
    case Disconnected => if s.life.finished then s else Stop(s, ControllerDisconnected, ipc)
    case Terminated => if s.life.finished then s else Stop(s, Cancelled, ipc)
    case CleanupDone(groupAlive, failed) =>
      if s.life.cleaning && !s.life.finished then Conclude(s, s.child.closed && !groupAlive, failed, ipc) else s
  }

  /** Steps are counted, so that an answer can be matched with the moment its command came. */
  function Step(s: State, e: Event, ipc: bool): State {
    Handle(s.(clock := s.clock + 1), e, ipc)
  }

  datatype Moment = Moment(event: Event, ipc: bool)

  function Run(s: State, moments: seq<Moment>): State
    decreases |moments|
  {
    if moments == [] then s else Run(Step(s, moments[0].event, moments[0].ipc), moments[1..])
  }
}
