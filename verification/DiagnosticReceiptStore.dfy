/**
 * The stored receipt as the program changes it: each call reads the row, changes it and writes it back
 * in one transaction (src/agent-diagnostic-receipts.ts:46-129).
 */
module DiagnosticReceiptStore {
  import opened Wrappers
  import opened DiagnosticReceipts

  /** One call after another, from any stored receipt. */
  function After(context: Context, stored: Option<Receipt>, events: seq<Event>,
                 hash: string -> string): Option<Receipt> {
    if events == [] then stored
    else Step(context, After(context, stored, events[..|events| - 1], hash), events[|events| - 1], hash)
  }

  lemma {:induction false} RunContinues(context: Context, events: seq<Event>, between: seq<Event>,
                                        hash: string -> string)
    ensures After(context, Run(context, events, hash), between, hash) == Run(context, events + between, hash)
  {
    hide Step;
    if between == [] {
      assert events + between == events;
    } else {
      RunContinues(context, events, between[..|between| - 1], hash);
      assert (events + between)[..|events + between| - 1] == events + between[..|between| - 1];
    }
  }

  // ---------- recalls that look before they complete ----------

  /** The node id is the one recorded at some moment of the run. */
  predicate WasCurrent(context: Context, events: seq<Event>, seen: Option<string>, hash: string -> string) {
    exists m | 0 <= m <= |events| :: seen == Current(context, events[..m], hash).writtenNodeId
  }

  lemma StillWasCurrent(context: Context, events: seq<Event>, between: seq<Event>, seen: Option<string>,
                        hash: string -> string)
    requires WasCurrent(context, events, seen, hash)
    ensures WasCurrent(context, events + between, seen, hash)
  {
    hide Current;
    var m :| 0 <= m <= |events| && seen == Current(context, events[..m], hash).writtenNodeId;
    assert (events + between)[..m] == events[..m];
  }

  /** One more call keeps the run honest, if a recall looked at some moment of the run. */
  lemma HonestGrows(context: Context, events: seq<Event>, e: Event, hash: string -> string)
    requires Honest(context, events, hash)
    requires e.Recall? ==> WasCurrent(context, events, e.seen, hash)
    ensures Honest(context, events + [e], hash)
  {
    hide Current;
    var longer := events + [e];
    forall k | 0 <= k < |longer| && longer[k].Recall?
      ensures exists m | 0 <= m <= k :: longer[k].seen == Current(context, longer[..m], hash).writtenNodeId
    {
      var before := if k < |events| then events[..k] else events;
      var m :| 0 <= m <= k && longer[k].seen == Current(context, events[..m], hash).writtenNodeId;
      assert longer[..m] == events[..m];
    }
  }

  /** A recall that looked at the run's receipt, and completes after more calls, keeps the run honest. */
  lemma RecallKeepsHonest(context: Context, events: seq<Event>, between: seq<Event>, nodes: seq<Node>, now: int,
                          hash: string -> string)
    requires Honest(context, events + between, hash)
    ensures var e := Recall(true, nodes, Current(context, events, hash).writtenNodeId, now);
      && Honest(context, events + between + [e], hash)
      && Step(context, After(context, Run(context, events, hash), between, hash), e, hash)
           == Run(context, events + between + [e], hash)
  {
    hide Current, Step, After, Honest;
    var seen := Current(context, events, hash).writtenNodeId;
    assert events[..|events|] == events;
    assert WasCurrent(context, events, seen, hash);
    StillWasCurrent(context, events, between, seen, hash);
    HonestGrows(context, events + between, Recall(true, nodes, seen, now), hash);
    RunContinues(context, events, between, hash);
    var all := events + between + [Recall(true, nodes, seen, now)];
    assert all[..|all| - 1] == events + between;
  }

  /** What any number of processes do: a call in one transaction, or a recall's look, and later its transaction. */
  datatype Action = Call(call: Event) | Look(process: nat) | Finish(process: nat, nodes: seq<Node>, now: int)

  /** The stored receipt, and the node ids that recalls under way have seen. */
  datatype World = World(stored: Option<Receipt>, seen: map<nat, Option<string>>)

  function Act(context: Context, w: World, a: Action, hash: string -> string): World {
    match a
    case Call(e) => if e.Recall? then w else w.(stored := Step(context, w.stored, e, hash))
    case Look(p) =>
      var r := Read(w.stored, context);
      if r.None? then w else w.(seen := w.seen[p := r.value.writtenNodeId])
    case Finish(p, nodes, now) =>
      if p !in w.seen then w
      else World(Step(context, w.stored, Recall(true, nodes, w.seen[p], now), hash), w.seen - {p})
  }

  function Acts(context: Context, actions: seq<Action>, hash: string -> string): World {
    if actions == [] then World(None, map[])
    else Act(context, Acts(context, actions[..|actions| - 1], hash), actions[|actions| - 1], hash)
  }

  /** However the processes interleave, the receipt is that of an honest run. */
  lemma {:induction false} InterleavingsAreHonest(context: Context, actions: seq<Action>, hash: string -> string)
      returns (events: seq<Event>)
    ensures Honest(context, events, hash) && Acts(context, actions, hash).stored == Run(context, events, hash)
    ensures var seen := Acts(context, actions, hash).seen;
      forall p | p in seen :: WasCurrent(context, events, seen[p], hash)
  {
    hide Current, Step, Honest, WasCurrent;
    events := [];
    if actions == [] {
      assert Honest(context, [], hash) by { NothingIsHonest(context, hash); }
    } else {
      var before := InterleavingsAreHonest(context, actions[..|actions| - 1], hash);
      var w, a := Acts(context, actions[..|actions| - 1], hash), actions[|actions| - 1];
      events := before;
      match a {
        case Call(e) =>
          if !e.Recall? { events := OneMoreCall(context, before, e, w.seen, hash); }
        case Look(p) =>
          LooksNow(context, before, hash);
        case Finish(p, nodes, now) =>
          if p in w.seen { events := OneMoreCall(context, before, Recall(true, nodes, w.seen[p], now), w.seen, hash); }
      }
    }
  }

  lemma OneMoreCall(context: Context, events: seq<Event>, e: Event, seen: map<nat, Option<string>>,
                    hash: string -> string)
      returns (longer: seq<Event>)
    requires Honest(context, events, hash) && forall p | p in seen :: WasCurrent(context, events, seen[p], hash)
    requires e.Recall? ==> WasCurrent(context, events, e.seen, hash)
    ensures Honest(context, longer, hash) && forall p | p in seen :: WasCurrent(context, longer, seen[p], hash)
    ensures Run(context, longer, hash) == Step(context, Run(context, events, hash), e, hash)
  {
    hide Current, Step, Honest, WasCurrent;
    longer := events + [e];
    HonestGrows(context, events, e, hash);
    forall p | p in seen ensures WasCurrent(context, longer, seen[p], hash) {
      StillWasCurrent(context, events, [e], seen[p], hash);
    }
    assert longer[..|longer| - 1] == events;
  }

  lemma NothingIsHonest(context: Context, hash: string -> string)
    ensures Honest(context, [], hash)
  {
  }

  lemma LooksNow(context: Context, events: seq<Event>, hash: string -> string)
    ensures Read(Run(context, events, hash), context) == Some(Current(context, events, hash))
    ensures WasCurrent(context, events, Current(context, events, hash).writtenNodeId, hash)
  {
    hide Run;
    assert events[..|events|] == events;
  }

  /**
   * However the processes interleave, a receipt that verifies records a write and a later read of that
   * write's node.
   */
  lemma VerifiedHoweverInterleaved(context: Context, actions: seq<Action>, nodes: map<string, string>,
                                   hash: string -> string)
      returns (events: seq<Event>, w: nat, l: nat)
    requires Verifies(context, Acts(context, actions, hash).stored, nodes, hash)
    ensures Acts(context, actions, hash).stored == Run(context, events, hash)
    ensures w < l < |events| && Meaning(context, events, nodes, w, l, hash)
    ensures Node(WrittenId(events[w]), Some(Content(context))) in events[l].nodes
    ensures events[w].stored == Some(Content(context))
  {
    hide Acts, Run, Meaning, Honest, Verifies, WrittenId;
    events := InterleavingsAreHonest(context, actions, hash);
    VerifiedIff(context, events, nodes, hash);
    w, l :| w < |events| && l < |events| && Meaning(context, events, nodes, w, l, hash);
    VerifiedReadFollowsWrite(context, events, nodes, w, l, hash);
  }

  class ReceiptStore {
    var stored: Option<Receipt>

    constructor ()
      ensures stored.None?
    {
      stored := None;
    }

    method CountToolCall(context: Context, tool: string, admitted: bool, authorized: bool, hash: string -> string)
        returns (r: Result<(), string>)
      modifies this
      ensures stored == Step(context, old(stored), Count(tool, admitted, authorized), hash)
      ensures r.Ok? <==>
        && admitted && authorized
        && Read(stored, context).Some? && !Truthy(Read(stored, context).value.failureCode)
    {
      if !admitted { return Err("diagnostic_bridge"); }
      var read := Read(stored, context);
      if read.None? { return Err("receipt_invalid"); }
      var value := read.value.(toolCalls := read.value.toolCalls + 1);
      if value.toolCalls > TOOL_LIMIT { value := value.(failureCode := Some("tool_limit")); }
      if tool !in TOOLS { value := value.(failureCode := Some("unexpected_tool")); }
      stored := Some(value);
      if Truthy(value.failureCode) { return Err(value.failureCode.value); }
      if !authorized { return Err("diagnostic_bridge"); }
      return Ok(());
    }

    method CompletePrepare(context: Context, authorized: bool, hash: string -> string) returns (r: Result<(), string>)
      modifies this
      ensures stored == Step(context, old(stored), Prepare(authorized), hash)
      ensures r.Ok? <==> authorized && Read(old(stored), context).Some?
    {
      if !authorized { return Err("diagnostic_bridge"); }
      var read := Read(stored, context);
      if read.None? { return Err("receipt_invalid"); }
      stored := Some(read.value.(prepared := true));
      return Ok(());
    }

    method CompleteDigest(context: Context, authorized: bool, output: DigestOutput, row: Option<string>, now: int,
                          hash: string -> string)
        returns (r: Result<(), string>)
      modifies this
      ensures stored == Step(context, old(stored), Digest(authorized, output, row, now), hash)
      ensures r.Ok? <==>
        && Read(old(stored), context).Some?
        && Completes(context, Read(old(stored), context).value, Digest(authorized, output, row, now))
    {
      if !authorized { return Err("diagnostic_bridge"); }
      if !output.processed || !Truthy(output.traceId) || output.createdNodes.None? || |output.createdNodes.value| != 1
        || output.createdNodes.value[0].content != Some(Content(context)) {
        return Err("diagnostic_write_incomplete");
      }
      if row != Some(Content(context)) { return Err("diagnostic_write_not_stored"); }
      var read := Read(stored, context);
      if read.None? { return Err("receipt_invalid"); }
      if Truthy(read.value.writtenNodeId) { return Err("diagnostic_duplicate_write"); }
      stored := Some(read.value.(writtenNodeId := Some(output.createdNodes.value[0].id), writeTraceId := output.traceId,
                                 writtenContentHash := Some(hash(row.value)), writeCompletedAt := Some(now)));
      return Ok(());
    }

    /** Calls of other processes, between two transactions of this one. */
    method Others(context: Context, events: seq<Event>, hash: string -> string)
      modifies this
      ensures stored == After(context, old(stored), events, hash)
    {
      hide Step;
      var k := 0;
      while k < |events|
        invariant 0 <= k <= |events| && stored == After(context, old(stored), events[..k], hash)
      {
        assert events[..k + 1][..k] == events[..k];
        stored := Step(context, stored, events[k], hash);
        k := k + 1;
      }
      assert events[..k] == events;
    }

    /** The recall reads the receipt first and writes it in a later transaction; other calls may come between. */
    method CompleteRecall(context: Context, authorized: bool, nodes: seq<Node>, between: seq<Event>, now: int,
                          hash: string -> string,
                          ghost events: seq<Event>)
        returns (r: Result<(), string>, ghost later: seq<Event>)
      modifies this
      ensures var read := Read(old(stored), context);
        if !authorized || read.None? then stored == old(stored) && r.Err?
        else
          var e := Recall(true, nodes, read.value.writtenNodeId, now);
          if !ReadsExpected(context, e) then stored == old(stored) && r.Err?
          else
            var met := After(context, old(stored), between, hash);
            stored == Step(context, met, e, hash) && (r.Ok? <==> Read(met, context).Some?)
      ensures events <= later && |later| <= |events| + |between| + 1
      ensures Honest(context, events, hash) && Honest(context, events + between, hash) ==>
        old(stored) == Run(context, events, hash) ==>
        stored == Run(context, later, hash) && Honest(context, later, hash)
    {
      hide After, Run, Honest;
      later := events;
      if !authorized { return Err("diagnostic_bridge"), later; }
      var receipt := Read(stored, context);
      if receipt.None? { return Err("receipt_invalid"), later; }
      var node := FindNode(nodes, receipt.value.writtenNodeId);
      if node.None? || node.value.content != Some(Content(context)) {
        return Err("diagnostic_readback_mismatch"), later;
      }
      later := events + between + [Recall(true, nodes, receipt.value.writtenNodeId, now)];
      if Honest(context, events + between, hash) { RecallKeepsHonest(context, events, between, nodes, now, hash); }
      Others(context, between, hash);
      var read := Read(stored, context);
      if read.None? { return Err("receipt_invalid"), later; }
      stored := Some(read.value.(readNodeId := Some(node.value.id),
                                 readContentHash := Some(hash(node.value.content.value)),
                                 readCompletedAt := Some(now)));
      return Ok(()), later;
    }

    method RecordHook(context: Context, authorized: bool, operation: string, hash: string -> string)
        returns (r: Result<(), string>)
      modifies this
      ensures stored == Step(context, old(stored), Hook(authorized, operation), hash)
      ensures r.Ok? <==> authorized && Read(old(stored), context).Some?
    {
      if !authorized { return Err("diagnostic_bridge"); }
      var read := Read(stored, context);
      if read.None? { return Err("receipt_invalid"); }
      if operation !in read.value.hooks {
        stored := Some(read.value.(hooks := read.value.hooks + [operation]));
      } else {
        stored := read;
      }
      return Ok(());
    }

    /** The controller's readback; of a run of the module's calls it accepts exactly the meaningful ones. */
    method Verify(context: Context, nodes: map<string, string>, ghost events: seq<Event>, hash: string -> string)
        returns (r: Result<Receipt, string>)
      ensures r.Ok? <==> Verifies(context, stored, nodes, hash)
      // of any stored receipt, whoever wrote it
      ensures r.Ok? ==>
        && stored == Some(r.value) && r.value.context == context
        && (r.value.failureCode.Some? ==> r.value.failureCode.value == "") && r.value.toolCalls <= 4
        && r.value.writeTraceId.Some? && r.value.writeTraceId.value != ""
        && r.value.readNodeId == r.value.writtenNodeId && r.value.writtenNodeId.Some?
        && r.value.writtenNodeId.value != ""
        && r.value.writtenContentHash == r.value.readContentHash == Some(hash(Content(context)))
        && r.value.writeCompletedAt.Some? && r.value.readCompletedAt.Some?
        && r.value.writeCompletedAt.value <= r.value.readCompletedAt.value
        && r.value.writtenNodeId.value in nodes && nodes[r.value.writtenNodeId.value] == Content(context)
      ensures stored == Run(context, events, hash) ==>
        (r.Ok? <==> exists w: nat, l: nat | w < |events| && l < |events| :: Meaning(context, events, nodes, w, l, hash))
    {
      hide Run, Meaning;
      VerifiedIff(context, events, nodes, hash);
      var read := Read(stored, context);
      if read.None? { return Err("receipt_invalid"); }
      var receipt := read.value;
      if Truthy(receipt.failureCode) || receipt.toolCalls > TOOL_LIMIT || !Truthy(receipt.writeTraceId)
        || !Truthy(receipt.writtenNodeId)
        || receipt.readNodeId != receipt.writtenNodeId || receipt.writeCompletedAt.None?
        || receipt.readCompletedAt.None?
        || receipt.readCompletedAt.value < receipt.writeCompletedAt.value
        || receipt.writtenContentHash != Some(hash(Content(context)))
        || receipt.readContentHash != receipt.writtenContentHash {
        return Err("diagnostic_receipt_incomplete");
      }
      if receipt.writtenNodeId.value !in nodes || nodes[receipt.writtenNodeId.value] != Content(context) {
        return Err("diagnostic_receipt_node_missing");
      }
      return Ok(receipt);
    }
  }
}
