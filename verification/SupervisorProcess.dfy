/**
 * The supervisor as the program runs it: variables that its event handlers change in place. Each
 * handler does to the variables what the machine does to its state, so every run theorem is about it
 * (src/agent-diagnostic-runner.ts:147-317).
 */
module SupervisorProcess {
  import opened Wrappers
  import opened DiagnosticSupervisor
  import opened SupervisorRuns

  class Supervisor {
    var reason: Option<Reason>
    var life: Life
    var child: Child
    var timers: Timers
    var output: Output
    var observedBytes: nat
    var inputBytes: nat
    var modelDeadline: Option<int>
    var inFlight: seq<InFlight>
    var clock: nat
    var log: seq<Effect>

    function View(): State
      reads this
    {
      State(reason, life, child, timers, output, observedBytes, inputBytes, modelDeadline, inFlight, clock, log)
    }

    constructor ()
      ensures Initial(View())
    {
      reason := None;
      life, child, timers := Life(false, false, false), Child(false, false, false, false, false),
        Timers(true, false, false);
      output := Output(0, 0, 0, 0, RAW_PROTOCOL_LIMIT);
      observedBytes, inputBytes, modelDeadline := 0, 0, None;
      inFlight, clock, log := [], 0, [];
    }

    method Conclude(groupExited: bool, failed: bool, ipc: bool)
      modifies this
      ensures View() == DiagnosticSupervisor.Conclude(old(View()), groupExited, failed, ipc)
    {
      if !groupExited || failed { reason := Some(CleanupFailed); }
      life := life.(finished := true);
      if ipc {
        var why := if reason.Some? then reason.value else Exited;
        log := log + [Result(why, groupExited, output.stdoutBytes, output.stderrBytes, observedBytes,
                             modelDeadline.Some?)];
      }
    }

    method Finish(ipc: bool)
      modifies this
      ensures View() == DiagnosticSupervisor.Finish(old(View()), ipc)
    {
      if life.cleaning { return; }
      life := life.(cleaning := true);
      timers := Timers(false, false, false);
      if !child.started { Conclude(true, false, ipc); }
    }

    method Stop(next: Reason, ipc: bool)
      modifies this
      ensures View() == DiagnosticSupervisor.Stop(old(View()), next, ipc)
    {
      if life.finished { return; }
      if reason.None? { reason := Some(next); }
      Finish(ipc);
    }

    method Send(effect: Effect, ipc: bool)
      modifies this
      ensures View() == DiagnosticSupervisor.Send(old(View()), effect, ipc)
    {
      if !ipc {
        Stop(ControllerDisconnected, ipc);
        return;
      }
      log := log + [effect];
    }

    method Pass(stream: Stream, held: nat, text: nat, ipc: bool)
      modifies this
      ensures View() == DiagnosticSupervisor.Pass(old(View()), stream, held, text, ipc)
    {
      output := output.Holding(stream, held);
      if text > 0 { Send(Text(stream, text), ipc); }
    }

    /** Counts a chunk of the child's output and sends on what the decoder lets go. */
    method Consume(stream: Stream, bytes: nat, held: nat, ipc: bool)
      requires Inv(View()) && child.started
      modifies this
      ensures View() == DiagnosticSupervisor.Consume(old(View()), stream, bytes, held, ipc)
      // the chunk is counted, and what is sent or held stays within the limit
      ensures output.Total() == old(output.Total()) + bytes
      ensures Forwarded(log) + output.outHeld + output.errHeld <= output.limit == old(output.limit)
      // overrunning the limit is the reason exactly when it happens first
      ensures old(reason.None? && !life.finished) ==>
        (reason == Some(ProtocolLimit) <==> old(output.Total()) + bytes > output.limit)
      // until there is a reason nothing is lost, and afterwards nothing is sent
      ensures old(!life.finished) && reason.None? ==>
        Forwarded(log) + output.outHeld + output.errHeld
          == old(Forwarded(log) + output.outHeld + output.errHeld) + bytes
      ensures old(reason.Some? || life.finished) ==> log == old(log)
    {
      hide DiagnosticSupervisor.Stop, DiagnosticSupervisor.Pass, Forwarded, Window, Phases;
      ConsumeIsGood(View(), stream, bytes, held, ipc);
      ConsumeShows(View(), stream, bytes, held, ipc);
      output := output.Counted(stream, bytes);
      if output.Total() > output.limit {
        Stop(ProtocolLimit, ipc);
        return;
      }
      if reason.Some? || life.finished { return; }
      var pending := output.Held(stream) + bytes;
      var kept := if held < pending then held else pending;
      Pass(stream, kept, pending - kept, ipc);
    }

    method Close(ipc: bool)
      modifies this
      ensures View() == DiagnosticSupervisor.Close(old(View()), ipc)
    {
      child := child.(closed := true);
      if reason.None? {
        Pass(Stdout, 0, output.outHeld, ipc);
        Pass(Stderr, 0, output.errHeld, ipc);
      } else {
        output := output.(outHeld := 0, errHeld := 0);
      }
      Finish(ipc);
    }

    method Initialize(spec: ChildSpec, ipc: bool)
      modifies this
      ensures View() == DiagnosticSupervisor.Initialize(old(View()), spec, ipc)
    {
      hide DiagnosticSupervisor.Stop;
      if life.initialized || reason.Some? || life.finished {
        Stop(InvalidSpec, ipc);
        return;
      }
      life := life.(initialized := true);
      timers := timers.(init := false);
      var limit := BoundedProtocol(spec.rawProtocolLimitBytes);
      if !spec.wellFormed || BoundedPreparation(spec.prepareTimeoutMs).None? || limit.None? {
        Stop(InvalidSpec, ipc);
        return;
      }
      output := output.(limit := limit.value);
      if spec.spawn != Threw { child := child.(started := true); }
      if spec.spawn != Started {
        Stop(SpawnFailed, ipc);
        return;
      }
      timers := timers.(prepare := true);
    }

    method Refuse(command: Command, next: Reason, ipc: bool)
      modifies this
      ensures View() == DiagnosticSupervisor.Refuse(old(View()), command, next, ipc)
    {
      Send(Ack(command, clock, false), ipc);
      Stop(next, ipc);
    }

    method WriteInput(command: Command, bytes: Option<nat>, dead: bool, ipc: bool)
      modifies this
      ensures View() == DiagnosticSupervisor.WriteInput(old(View()), command, bytes, dead, ipc)
    {
      hide DiagnosticSupervisor.Refuse;
      if bytes.None? || bytes.value > INPUT_CHUNK_LIMIT {
        Refuse(command, ProtocolLimit, ipc);
        return;
      }
      inputBytes := inputBytes + bytes.value;
      if inputBytes > RAW_PROTOCOL_LIMIT || child.inputEnded || dead {
        Refuse(command, TransportFailed, ipc);
        return;
      }
      log := log + [Input(bytes.value)];
      inFlight := inFlight + [InFlight(command, clock)];
    }

    method Arm(command: Command, deadline: Option<int>, now: int, ipc: bool)
      modifies this
      ensures View() == DiagnosticSupervisor.Arm(old(View()), command, deadline, now, ipc)
    {
      if modelDeadline.Some? || deadline.None? || deadline.value <= now || deadline.value - now > MODEL_WINDOW_MS {
        Send(Ack(command, clock, false), ipc);
        return;
      }
      modelDeadline := deadline;
      timers := timers.(prepare := false);
      timers := timers.(model := true);
      Send(Ack(command, clock, true), ipc);
    }

    method ObserveOutput(command: Command, bytes: Option<nat>, ipc: bool)
      modifies this
      ensures View() == DiagnosticSupervisor.ObserveOutput(old(View()), command, bytes, ipc)
    {
      hide DiagnosticSupervisor.Send, DiagnosticSupervisor.Refuse;
      if bytes.None? || modelDeadline.None? {
        Send(Ack(command, clock, false), ipc);
        return;
      }
      observedBytes := observedBytes + bytes.value;
      if observedBytes > OBSERVED_OUTPUT_LIMIT {
        Refuse(command, OutputLimit, ipc);
        return;
      }
      Send(Ack(command, clock, true), ipc);
    }

    method Perform(command: Command, now: int, dead: bool, ipc: bool)
      modifies this
      ensures View() == DiagnosticSupervisor.Perform(old(View()), command, now, dead, ipc)
    {
      hide DiagnosticSupervisor.Send, DiagnosticSupervisor.Refuse, DiagnosticSupervisor.Arm,
        DiagnosticSupervisor.WriteInput, DiagnosticSupervisor.ObserveOutput;
      if !child.ready || !child.started || life.finished || reason.Some? {
        Send(Ack(command, clock, false), ipc);
        return;
      }
      match command.body {
        case Write(bytes) => WriteInput(command, bytes, dead, ipc);
        case EndInput =>
          if child.inputEnded {
            Send(Ack(command, clock, true), ipc);
            return;
          }
          child := child.(inputEnded := true);
          inFlight := inFlight + [InFlight(command, clock)];
        case ArmModel(deadline) => Arm(command, deadline, now, ipc);
        case Observe(bytes) => ObserveOutput(command, bytes, ipc);
        case Unknown => Refuse(command, InvalidSpec, ipc);
      }
    }

    /** A message from the controller; the listener is gone once the machine has finished. */
    method OnMessage(m: Message, now: int, dead: bool, ipc: bool)
      requires Inv(View()) && !life.finished
      modifies this
      ensures View() == DiagnosticSupervisor.OnMessage(old(View()), m, now, dead, ipc)
      // once a reason is recorded, and before the session is ready, it accepts nothing and counts nothing
      ensures old(reason.Some? || (m.Request? && !child.ready)) ==>
        && NothingAccepted(old(log), log)
        && output == old(output) && observedBytes == old(observedBytes) && inputBytes == old(inputBytes)
        && inFlight == old(inFlight) && modelDeadline == old(modelDeadline)
      // an acceptance means a first window of at most 90 s, output within 8 KiB after it, or input ended before
      ensures AcceptanceMeans(old(View()), View(), m, now)
    {
      hide DiagnosticSupervisor.Stop, DiagnosticSupervisor.Initialize, DiagnosticSupervisor.Perform, Inv,
        AcceptanceMeans;
      MessageAccepts(View(), m, now, dead, ipc);
      if reason.Some? || (m.Request? && !child.ready) { MessageAfterStop(View(), m, now, dead, ipc); }
      match m {
        case Malformed => Stop(InvalidSpec, ipc);
        case StopRequest(adapterError) => Stop(if adapterError then AdapterError else Cancelled, ipc);
        case Init(spec) => Initialize(spec, ipc);
        case WithoutId => Stop(InvalidSpec, ipc);
        case Request(command) => Perform(command, now, dead, ipc);
      }
    }

    method OnInputDone(index: nat, failed: bool, ipc: bool)
      requires index < |inFlight|
      modifies this
      ensures View() == DiagnosticSupervisor.OnInputDone(old(View()), index, failed, ipc)
    {
      hide DiagnosticSupervisor.Stop, DiagnosticSupervisor.Send;
      var flight, before := inFlight[index], inFlight;
      if flight.command.body.Write? && failed {
        Send(Ack(flight.command, flight.at, false), ipc);
        Stop(TransportFailed, ipc);
      } else {
        Send(Ack(flight.command, flight.at, true), ipc);
      }
      inFlight := before[..index] + before[index + 1..];
    }

    method OnTimer(timer: Timer, ipc: bool)
      modifies this
      ensures View() == DiagnosticSupervisor.OnTimer(old(View()), timer, ipc)
    {
      hide DiagnosticSupervisor.Stop;
      match timer {
        case InitTimer =>
          if timers.init {
            timers := timers.(init := false);
            Stop(PrepareTimeout, ipc);
          }
        case PrepareTimer =>
          if timers.prepare {
            timers := timers.(prepare := false);
            Stop(PrepareTimeout, ipc);
          }
        case ModelTimer =>
          if timers.model {
            timers := timers.(model := false);
            Stop(ModelTimeout, ipc);
          }
      }
    }

    /** One event of the loop: the machine's step, and so one more moment of its run. */
    method Handle(e: Event, ipc: bool)
      requires Inv(View())
      modifies this
      ensures View() == Step(old(View()), e, ipc)
      ensures Later(old(View()), View())
    {
      hide DiagnosticSupervisor.Stop, DiagnosticSupervisor.Send, DiagnosticSupervisor.OnMessage,
        DiagnosticSupervisor.Consume, DiagnosticSupervisor.Close, DiagnosticSupervisor.OnTimer,
        DiagnosticSupervisor.OnInputDone, DiagnosticSupervisor.Conclude, Inv, Later;
      ghost var was := View();
      StepIsLater(was, e, ipc);
      TickIsLater(was);
      clock := clock + 1;
      assert View() == was.(clock := was.clock + 1);
      match e {
        case Received(m, now, dead) => if !life.finished { OnMessage(m, now, dead, ipc); }
        case InputDone(index, failed) => if index < |inFlight| { OnInputDone(index, failed, ipc); }
        case Data(stream, bytes, held) => if child.started && !child.closed { Consume(stream, bytes, held, ipc); }
        case InputError => if child.started { Stop(TransportFailed, ipc); }
        case ChildError => if child.started { Stop(SpawnFailed, ipc); }
        case Spawned(hasPid) =>
          if child.started && !child.spawned {
            if hasPid { child := child.(spawned := true); } else { Stop(SpawnFailed, ipc); }
          }
        case IdentityRead =>
          if child.spawned && !child.ready && reason.None? && !life.finished && !child.closed {
            child := child.(ready := true);
            Send(Ready, ipc);
          }
        case ChildClosed => if child.started && !child.closed { Close(ipc); }
        case Fired(timer) => OnTimer(timer, ipc);
        case SendFailed => Stop(ControllerDisconnected, ipc);
        case Disconnected => if !life.finished { Stop(ControllerDisconnected, ipc); }
        case Terminated => if !life.finished { Stop(Cancelled, ipc); }
        case CleanupDone(groupAlive, failed) =>
          if life.cleaning && !life.finished { Conclude(child.closed && !groupAlive, failed, ipc); }
      }
    }
  }

  /** A session: whatever events come, the variables end where the machine's run ends. */
  method Serve(moments: seq<Moment>) returns (supervisor: Supervisor, ghost start: State)
    ensures Initial(start) && supervisor.View() == Run(start, moments)
    ensures Inv(supervisor.View())
  {
    hide Initial, Inv, Later, Step;
    supervisor := new Supervisor();
    start := supervisor.View();
    InitialHolds(start);
    for k := 0 to |moments|
      invariant supervisor.View() == Run(start, moments[..k]) && fresh(supervisor)
      invariant Inv(supervisor.View())
    {
      RunSnoc(start, moments[..k], moments[k]);
      assert moments[..k + 1] == moments[..k] + [moments[k]];
      StepIsLater(supervisor.View(), moments[k].event, moments[k].ipc);
      supervisor.Handle(moments[k].event, moments[k].ipc);
      LaterHolds(Run(start, moments[..k]), supervisor.View());
    }
    assert moments[..|moments|] == moments;
  }

  lemma LaterHolds(s: State, t: State)
    requires Later(s, t)
    ensures Inv(t)
  {
  }

  lemma {:induction false} RunSnoc(s: State, moments: seq<Moment>, m: Moment)
    ensures Run(s, moments + [m]) == Step(Run(s, moments), m.event, m.ipc)
    decreases |moments|
  {
    hide Step;
    if moments == [] {
      assert moments + [m] == [m];
    } else {
      assert (moments + [m])[1..] == moments[1..] + [m];
      RunSnoc(Step(s, moments[0].event, moments[0].ipc), moments[1..], m);
    }
  }
}
