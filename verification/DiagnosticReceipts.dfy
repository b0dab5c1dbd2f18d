/**
 * The diagnostic receipt: tool calls, the write and the read that an isolated connection check counts
 * and completes, and exactly what a verified receipt says about them (src/agent-diagnostic-receipts.ts).
 */
module DiagnosticReceipts {
  import opened Wrappers

  const TOOL_LIMIT := 4
  const TOOLS: set<string> := {"brain_prepare", "brain_digest", "brain_recall"}

  datatype Context = Context(runId: string, nonce: string, configurationVersion: string)

  function Content(context: Context): string { "Tide Mind isolated connection check: " + context.nonce }

  datatype Receipt = Receipt(
    context: Context, toolCalls: nat, prepared: bool,
    writtenNodeId: Option<string>, writeTraceId: Option<string>, writtenContentHash: Option<string>,
      writeCompletedAt: Option<int>,
    readNodeId: Option<string>, readContentHash: Option<string>, readCompletedAt: Option<int>,
    hooks: seq<string>, failureCode: Option<string>)

  function Empty(context: Context): Receipt {
    Receipt(context, 0, false, None, None, None, None, None, None, None, [], None)
  }

  datatype Node = Node(id: string, content: Option<string>)

  datatype DigestOutput = DigestOutput(processed: bool, traceId: Option<string>, createdNodes: Option<seq<Node>>)

  /**
   * One call into the receipt module. `authorized` is the bridge's answer; `stored` is the content of the
   * node's row; `seen` is the written node id that a recall read before its own transaction.
   */
  datatype Event =
    | Count(tool: string, admitted: bool, authorized: bool)
    | Prepare(authorized: bool)
    | Digest(authorized: bool, output: DigestOutput, stored: Option<string>, now: int)
    | Recall(authorized: bool, nodes: seq<Node>, seen: Option<string>, now: int)
    | Hook(authorized: bool, operation: string)

  /** JavaScript's truth of an optional text: present and not empty. */
  predicate Truthy(s: Option<string>) { s.Some? && s.value != "" }

  /** The receipt of this run, or none when the stored one is of another run. */
  function Read(stored: Option<Receipt>, context: Context): Option<Receipt> {
    if stored.None? then Some(Empty(context))
    else if stored.value.context == context then stored
    else None
  }

  // ---------- what each call checks and writes ----------

  function Counted(r: Receipt, tool: string): Receipt {
    var t := r.(toolCalls := r.toolCalls + 1);
    var u := if t.toolCalls > TOOL_LIMIT then t.(failureCode := Some("tool_limit")) else t;
    if tool !in TOOLS then u.(failureCode := Some("unexpected_tool")) else u
  }

  /** The output is one finished write of the expected content, and the node holds it. */
  predicate WritesExpected(context: Context, e: Event)
    requires e.Digest?
  {
    && e.authorized && e.output.processed && Truthy(e.output.traceId)
    && e.output.createdNodes.Some? && |e.output.createdNodes.value| == 1
    && e.output.createdNodes.value[0].content == Some(Content(context)) == e.stored
  }

  function FindNode(nodes: seq<Node>, id: Option<string>): Option<Node> {
    if nodes == [] then None
    else if Some(nodes[0].id) == id then Some(nodes[0])
    else FindNode(nodes[1..], id)
  }

  /** The output has the written node, with the expected content. */
  predicate ReadsExpected(context: Context, e: Event)
    requires e.Recall?
  {
    e.authorized && var node := FindNode(e.nodes, e.seen); node.Some? && node.value.content == Some(Content(context))
  }

  /** The call changes the receipt `r`. */
  predicate Completes(context: Context, r: Receipt, e: Event) {
    match e
    case Count(_, admitted, _) => admitted
    case Prepare(authorized) => authorized
    case Digest(_, _, _, _) => WritesExpected(context, e) && !Truthy(r.writtenNodeId)
    case Recall(_, _, _, _) => ReadsExpected(context, e)
    case Hook(authorized, _) => authorized
  }

  function Changed(context: Context, r: Receipt, e: Event, hash: string -> string): Receipt
    requires Completes(context, r, e)
  {
    match e
    case Count(tool, _, _) => Counted(r, tool)
    case Prepare(_) => r.(prepared := true)
    case Digest(_, output, stored, now) =>
      r.(writtenNodeId := Some(output.createdNodes.value[0].id), writeTraceId := output.traceId,
         writtenContentHash := Some(hash(stored.value)), writeCompletedAt := Some(now))
    case Recall(_, nodes, seen, now) =>
      var node := FindNode(nodes, seen).value;
      r.(readNodeId := Some(node.id), readContentHash := Some(hash(node.content.value)), readCompletedAt := Some(now))
    case Hook(_, operation) => if operation in r.hooks then r else r.(hooks := r.hooks + [operation])
  }

  /** One transaction; a call that fails leaves the stored receipt as it was. */
  function Step(context: Context, stored: Option<Receipt>, e: Event, hash: string -> string): Option<Receipt> {
    var r := Read(stored, context);
    if r.None? || !Completes(context, r.value, e) then stored else Some(Changed(context, r.value, e, hash))
  }

  /** The stored receipt after the events, from a database without one. */
  function Run(context: Context, events: seq<Event>, hash: string -> string): (stored: Option<Receipt>)
    ensures Read(stored, context).Some?
  {
    if events == [] then None
    else Step(context, Run(context, events[..|events| - 1], hash), events[|events| - 1], hash)
  }

  /** `verifyDiagnosticReceipt`, given the live nodes of the table. */
  predicate Verifies(context: Context, stored: Option<Receipt>, nodes: map<string, string>, hash: string -> string) {
    var read := Read(stored, context);
    && read.Some?
    && var r := read.value;
    && !Truthy(r.failureCode) && r.toolCalls <= TOOL_LIMIT && Truthy(r.writeTraceId) && Truthy(r.writtenNodeId)
    && r.readNodeId == r.writtenNodeId && r.writeCompletedAt.Some? && r.readCompletedAt.Some?
    && r.readCompletedAt.value >= r.writeCompletedAt.value
    && r.writtenContentHash == Some(hash(Content(context))) && r.readContentHash == r.writtenContentHash
    && r.writtenNodeId.value in nodes && nodes[r.writtenNodeId.value] == Content(context)
  }

  // ---------- the receipt and the run ----------

  function Current(context: Context, events: seq<Event>, hash: string -> string): Receipt {
    Read(Run(context, events, hash), context).value
  }

  /** The event at `k` changed the receipt when it came. */
  predicate CompletedAt(context: Context, events: seq<Event>, k: nat, hash: string -> string) {
    k < |events| && Completes(context, Current(context, events[..k], hash), events[k])
  }

  predicate WroteAt(context: Context, events: seq<Event>, k: nat, hash: string -> string) {
    CompletedAt(context, events, k, hash) && events[k].Digest?
  }

  predicate ReadAt(context: Context, events: seq<Event>, k: nat, hash: string -> string) {
    CompletedAt(context, events, k, hash) && events[k].Recall?
  }

  function WrittenId(e: Event): string
    requires e.Digest? && e.output.createdNodes.Some? && |e.output.createdNodes.value| == 1
  {
    e.output.createdNodes.value[0].id
  }

  function ReadId(e: Event): string
    requires e.Recall? && FindNode(e.nodes, e.seen).Some?
  {
    FindNode(e.nodes, e.seen).value.id
  }

  /** Every recall looked at a receipt of the run that was current at some moment before its transaction. */
  predicate Honest(context: Context, events: seq<Event>, hash: string -> string) {
    forall k | 0 <= k < |events| && events[k].Recall? ::
      exists m | 0 <= m <= k :: events[k].seen == Current(context, events[..m], hash).writtenNodeId
  }

  function AdmittedCalls(events: seq<Event>): nat {
    if events == [] then 0
    else
      var e := events[|events| - 1];
      AdmittedCalls(events[..|events| - 1]) + (if e.Count? && e.admitted then 1 else 0)
  }

  predicate OnlyKnownTools(events: seq<Event>) {
    forall k | 0 <= k < |events| && events[k].Count? && events[k].admitted :: events[k].tool in TOOLS
  }

  /** No write before `n`, or the last of them is at `w`, all earlier ones have an empty id, and `r` records it. */
  predicate RecordsWrite(context: Context, events: seq<Event>, r: Receipt, w: Option<nat>, hash: string -> string) {
    match w
    case None =>
      && r.writtenNodeId.None? && r.writeTraceId.None? && r.writeCompletedAt.None?
      && forall k: nat | k < |events| :: !WroteAt(context, events, k, hash)
    case Some(w) =>
      && w < |events| && WroteAt(context, events, w, hash)
      && r.writtenNodeId == Some(WrittenId(events[w])) && Truthy(r.writeTraceId)
      && r.writtenContentHash == Some(hash(Content(context))) && r.writeCompletedAt == Some(events[w].now)
      && forall k: nat | k < |events| && k != w && WroteAt(context, events, k, hash) ::
           k < w && WrittenId(events[k]) == ""
  }

  /** No read completed, or the last one is at `l` and `r` records it. */
  predicate RecordsRead(context: Context, events: seq<Event>, r: Receipt, l: Option<nat>, hash: string -> string) {
    match l
    case None =>
      && r.readNodeId.None? && r.readCompletedAt.None?
      && forall k: nat | k < |events| :: !ReadAt(context, events, k, hash)
    case Some(l) =>
      && l < |events| && ReadAt(context, events, l, hash)
      && r.readNodeId == Some(ReadId(events[l])) && r.readContentHash == Some(hash(Content(context)))
      && r.readCompletedAt == Some(events[l].now)
      && forall k: nat | l < k < |events| :: !ReadAt(context, events, k, hash)
  }

  predicate RecordsCalls(events: seq<Event>, r: Receipt) {
    && r.toolCalls == AdmittedCalls(events)
    && (r.failureCode.None? <==> r.toolCalls <= TOOL_LIMIT && OnlyKnownTools(events))
    && (r.failureCode.Some? ==> Truthy(r.failureCode))
  }

  lemma PrefixesStand(context: Context, events: seq<Event>, e: Event, k: nat, hash: string -> string)
    requires k < |events|
    ensures CompletedAt(context, events + [e], k, hash) == CompletedAt(context, events, k, hash)
    ensures (events + [e])[k] == events[k]
  {
    assert (events + [e])[..k] == events[..k];
  }

  lemma LastMoment(context: Context, events: seq<Event>, e: Event, hash: string -> string)
    ensures var longer := events + [e]; var before := Current(context, events, hash);
      && CompletedAt(context, longer, |events|, hash) == Completes(context, before, e)
      && Current(context, longer, hash)
           == if Completes(context, before, e) then Changed(context, before, e, hash) else before
  {
    var longer := events + [e];
    assert longer[..|events|] == events;
    assert longer[..|longer| - 1] == events && longer[|longer| - 1] == e;
    hide Completes, Changed;
  }

  lemma CallsNext(events: seq<Event>, e: Event, r: Receipt, s: Receipt, context: Context, hash: string -> string)
    requires RecordsCalls(events, r) && s == if Completes(context, r, e) then Changed(context, r, e, hash) else r
    ensures RecordsCalls(events + [e], s)
  {
    var longer := events + [e];
    assert longer[..|longer| - 1] == events;
    var counts := e.Count? && e.admitted;
    assert OnlyKnownTools(longer) == (OnlyKnownTools(events) && (counts ==> e.tool in TOOLS)) by {
      assert longer[|events|] == e;
      assert forall k | 0 <= k < |events| :: longer[k] == events[k];
    }
  }

  lemma WriteNext(context: Context, events: seq<Event>, e: Event, w: Option<nat>, hash: string -> string)
      returns (next: Option<nat>)
    requires RecordsWrite(context, events, Current(context, events, hash), w, hash)
    ensures RecordsWrite(context, events + [e], Current(context, events + [e], hash), next, hash)
  {
    hide Run, Current, CompletedAt;
    var longer := events + [e];
    LastMoment(context, events, e, hash);
    forall k: nat | k < |events|
      ensures WroteAt(context, longer, k, hash) == WroteAt(context, events, k, hash) && longer[k] == events[k]
    {
      PrefixesStand(context, events, e, k, hash);
    }
    assert longer[|events|] == e;
    next := if e.Digest? && Completes(context, Current(context, events, hash), e) then Some(|events|) else w;
  }

  lemma ReadNext(context: Context, events: seq<Event>, e: Event, l: Option<nat>, hash: string -> string)
      returns (next: Option<nat>)
    requires RecordsRead(context, events, Current(context, events, hash), l, hash)
    ensures RecordsRead(context, events + [e], Current(context, events + [e], hash), next, hash)
  {
    hide Run, Current, CompletedAt;
    var longer := events + [e];
    LastMoment(context, events, e, hash);
    forall k: nat | k < |events|
      ensures ReadAt(context, longer, k, hash) == ReadAt(context, events, k, hash) && longer[k] == events[k]
    {
      PrefixesStand(context, events, e, k, hash);
    }
    assert longer[|events|] == e;
    next := if e.Recall? && Completes(context, Current(context, events, hash), e) then Some(|events|) else l;
  }

  /** The receipt is the history of the run: its calls, its last write, its last read. */
  lemma {:induction false} ReceiptIsHistory(context: Context, events: seq<Event>, hash: string -> string)
      returns (w: Option<nat>, l: Option<nat>)
    ensures var r := Current(context, events, hash);
      && RecordsCalls(events, r) && RecordsWrite(context, events, r, w, hash)
      && RecordsRead(context, events, r, l, hash)
    decreases |events|
  {
    if events == [] {
      w, l := None, None;
    } else {
      var before, e := events[..|events| - 1], events[|events| - 1];
      assert events == before + [e];
      w, l := ReceiptIsHistory(context, before, hash);
      LastMoment(context, before, e, hash);
      CallsNext(before, e, Current(context, before, hash), Current(context, events, hash), context, hash);
      w := WriteNext(context, before, e, w, hash);
      l := ReadNext(context, before, e, l, hash);
    }
  }

  /**
   * What a verified receipt means, exactly: at most four calls were admitted, all of known tools; the last
   * completed write, at `w`, has a node id that is not empty, and every completed write before it has an
   * empty one; the last completed read, at `l`, returned that node no earlier by the clock; and the node
   * still holds the text.
   */
  predicate Meaning(context: Context, events: seq<Event>, nodes: map<string, string>, w: nat, l: nat,
                    hash: string -> string) {
    && AdmittedCalls(events) <= TOOL_LIMIT && OnlyKnownTools(events)
    && WroteAt(context, events, w, hash) && WrittenId(events[w]) != ""
    && (forall k: nat | k < |events| && k != w && WroteAt(context, events, k, hash) ::
        k < w && WrittenId(events[k]) == "")
    && ReadAt(context, events, l, hash) && (forall k: nat | l < k < |events| :: !ReadAt(context, events, k, hash))
    && ReadId(events[l]) == WrittenId(events[w]) && events[l].now >= events[w].now
    && WrittenId(events[w]) in nodes && nodes[WrittenId(events[w])] == Content(context)
  }

  lemma CurrentIsRead(context: Context, events: seq<Event>, hash: string -> string)
    ensures Read(Run(context, events, hash), context) == Some(Current(context, events, hash))
  {
    hide Run;
  }

  lemma VerifiedIff(context: Context, events: seq<Event>, nodes: map<string, string>, hash: string -> string)
    ensures Verifies(context, Run(context, events, hash), nodes, hash)
      <==> exists w: nat, l: nat | w < |events| && l < |events| :: Meaning(context, events, nodes, w, l, hash)
  {
    hide Run, Current, CompletedAt, OnlyKnownTools, AdmittedCalls;
    var w, l := ReceiptIsHistory(context, events, hash);
    CurrentIsRead(context, events, hash);
    if w.Some? && l.Some? && Verifies(context, Run(context, events, hash), nodes, hash) {
      assert Meaning(context, events, nodes, w.value, l.value, hash);
    }
    if v: nat, m: nat :| v < |events| && m < |events| && Meaning(context, events, nodes, v, m, hash) {
      assert w == Some(v) && l == Some(m);
    }
  }

  // ---------- the read comes after the write ----------

  lemma FoundNodeIsIt(nodes: seq<Node>, id: Option<string>)
    ensures FindNode(nodes, id).Some? ==> Some(FindNode(nodes, id).value.id) == id && FindNode(nodes, id).value in nodes
  {
  }

  /** In a verified run the read completed after the write, and returned the very node and text that it wrote. */
  lemma VerifiedReadFollowsWrite(context: Context, events: seq<Event>, nodes: map<string, string>, w: nat, l: nat,
                                 hash: string -> string)
    requires Honest(context, events, hash) && Meaning(context, events, nodes, w, l, hash)
    ensures w < l
    ensures Node(WrittenId(events[w]), Some(Content(context))) in events[l].nodes
    ensures events[w].stored == Some(Content(context))
    ensures events[w].authorized && events[l].authorized
  {
    hide Current, Run, Completes, RecordsRead, RecordsCalls;
    ReadLooked(context, events, l, hash);
    FoundNodeIsIt(events[l].nodes, events[l].seen);
    var m :| 0 <= m <= l && events[l].seen == Current(context, events[..m], hash).writtenNodeId;
    var v, _ := ReceiptIsHistory(context, events[..m], hash);
    var x := v.value;
    assert WroteAt(context, events[..m], x, hash);
    assert events[..m][..x] == events[..x];
    assert WroteAt(context, events, x, hash);
    WriteWasExpected(context, events, w, hash);
  }

  lemma ReadLooked(context: Context, events: seq<Event>, l: nat, hash: string -> string)
    requires ReadAt(context, events, l, hash)
    ensures l < |events| && events[l].Recall? && events[l].authorized
    ensures FindNode(events[l].nodes, events[l].seen).Some?
    ensures FindNode(events[l].nodes, events[l].seen).value.content == Some(Content(context))
  {
    hide Current;
  }

  lemma WriteWasExpected(context: Context, events: seq<Event>, w: nat, hash: string -> string)
    requires WroteAt(context, events, w, hash)
    ensures w < |events| && events[w].Digest? && events[w].stored == Some(Content(context)) && events[w].authorized
  {
    hide Current;
  }

  // ---------- what completes ----------

  /** A receipt of another run is never changed and never verifies. */
  lemma ForeignReceiptStands(context: Context, stored: Receipt, e: Event, nodes: map<string, string>,
                             hash: string -> string)
    requires stored.context != context
    ensures Step(context, Some(stored), e, hash) == Some(stored) && !Verifies(context, Some(stored), nodes, hash)
  {
  }


  /** The written text: a fixed sentence and the run's nonce. */
  predicate IsExpected(context: Context, text: Option<string>) {
    text == Some("Tide Mind isolated connection check: " + context.nonce)
  }

  /** Exactly which call completes a write, and what it leaves in the receipt. */
  lemma WriteIff(context: Context, events: seq<Event>, e: Event, hash: string -> string)
    requires e.Digest?
    ensures var before, after := Current(context, events, hash), Current(context, events + [e], hash);
      var completes :=
        && e.authorized && e.output.processed && e.output.traceId.Some? && e.output.traceId.value != ""
        && e.output.createdNodes.Some? && |e.output.createdNodes.value| == 1
        && IsExpected(context, e.output.createdNodes.value[0].content) && IsExpected(context, e.stored)
        && (before.writtenNodeId.Some? ==> before.writtenNodeId.value == "");
      && WroteAt(context, events + [e], |events|, hash) == completes
      && after == (if completes
                   then before.(writtenNodeId := Some(e.output.createdNodes.value[0].id),
                                writeTraceId := e.output.traceId,
                                writtenContentHash := Some(hash(e.stored.value)), writeCompletedAt := Some(e.now))
                   else before)
  {
    hide Run, Current;
    LastMoment(context, events, e, hash);
    assert (events + [e])[..|events|] == events;
  }

  /** Exactly which call completes a read: the first node of the id it saw has the expected text. */
  lemma ReadIff(context: Context, events: seq<Event>, e: Event, hash: string -> string)
    requires e.Recall?
    ensures var before, after := Current(context, events, hash), Current(context, events + [e], hash);
      var completes := e.authorized && exists k | 0 <= k < |e.nodes| ::
        && Some(e.nodes[k].id) == e.seen && IsExpected(context, e.nodes[k].content)
        && forall j | 0 <= j < k :: Some(e.nodes[j].id) != e.seen;
      && ReadAt(context, events + [e], |events|, hash) == completes
      && after == (if completes
                   then before.(readNodeId := e.seen, readContentHash := Some(hash(Content(context))),
                                readCompletedAt := Some(e.now))
                   else before)
  {
    hide Run, Current;
    LastMoment(context, events, e, hash);
    FirstNode(e.nodes, e.seen);
    hide FindNode;
    assert (events + [e])[..|events|] == events;
  }

  lemma {:induction false} FirstNode(nodes: seq<Node>, id: Option<string>)
    ensures var found := FindNode(nodes, id);
      && (found.None? ==> forall k | 0 <= k < |nodes| :: Some(nodes[k].id) != id)
      && (found.Some? ==> exists k | 0 <= k < |nodes| ::
            nodes[k] == found.value && Some(nodes[k].id) == id && forall j | 0 <= j < k :: Some(nodes[j].id) != id)
  {
    if nodes != [] && Some(nodes[0].id) != id {
      FirstNode(nodes[1..], id);
      if found :| FindNode(nodes, id) == Some(found) {
        var k :| 0 <= k < |nodes| - 1 && nodes[1..][k] == found && Some(nodes[1..][k].id) == id
          && forall j | 0 <= j < k :: Some(nodes[1..][j].id) != id;
        forall j | 0 <= j < k + 1 ensures Some(nodes[j].id) != id {
          if j > 0 { assert nodes[1..][j - 1] == nodes[j]; }
        }
        assert nodes[k + 1] == found;
      } else {
        forall k | 0 <= k < |nodes| ensures Some(nodes[k].id) != id {
          if k > 0 { assert nodes[1..][k - 1] == nodes[k]; }
        }
      }
    }
  }

  /**
   * What the other calls do: an admitted tool call counts, and fails the run past the fourth or for an
   * unknown tool.
   */
  lemma OtherCalls(context: Context, events: seq<Event>, e: Event, hash: string -> string)
    requires !e.Digest? && !e.Recall?
    ensures var before, after := Current(context, events, hash), Current(context, events + [e], hash);
      match e
      case Count(tool, admitted, _) =>
        var calls := before.toolCalls + if admitted then 1 else 0;
        && after == before.(toolCalls := calls, failureCode := after.failureCode)
        && after.failureCode ==
             if !admitted then before.failureCode
             else if tool !in {"brain_prepare", "brain_digest", "brain_recall"} then Some("unexpected_tool")
             else if calls > 4 then Some("tool_limit") else before.failureCode
      case Prepare(authorized) => after == before.(prepared := before.prepared || authorized)
      case Hook(authorized, operation) =>
        var unseen := authorized && operation !in before.hooks;
        after == before.(hooks := if unseen then before.hooks + [operation] else before.hooks)
      case _ => true
  {
    hide Run, Current;
    LastMoment(context, events, e, hash);
  }

  // ---------- empty node ids ----------

  /** In a verified run exactly one write completed, unless earlier ones were stored under an empty node id. */
  lemma OneWriteIff(context: Context, events: seq<Event>, nodes: map<string, string>, w: nat, l: nat,
                    hash: string -> string)
    requires Meaning(context, events, nodes, w, l, hash)
    ensures (forall k: nat | k < |events| && WroteAt(context, events, k, hash) :: k == w)
      <==> !exists k: nat | k < |events| && WroteAt(context, events, k, hash) :: WrittenId(events[k]) == ""
  {
    if k: nat :| k < |events| && WroteAt(context, events, k, hash) && k != w {
      assert k < w && WrittenId(events[k]) == "";
    }
  }

  /** A write under an empty node id does not count as one, so a second write completes and the receipt verifies. */
  lemma EmptyNodeIdAllowsASecondWrite(context: Context, hash: string -> string)
    ensures var text := Some(Content(context));
      var output := id => DigestOutput(true, Some("trace"), Some([Node(id, text)]));
      var events := [Digest(true, output(""), text, 1), Digest(true, output("node"), text, 2),
                     Recall(true, [Node("node", text)], Some("node"), 3)];
      && WroteAt(context, events, 0, hash) && WroteAt(context, events, 1, hash)
      && Honest(context, events, hash)
      && Verifies(context, Run(context, events, hash), map["node" := Content(context)], hash)
  {
    var text := Some(Content(context));
    var output := id => DigestOutput(true, Some("trace"), Some([Node(id, text)]));
    var a, b, c := Digest(true, output(""), text, 1), Digest(true, output("node"), text, 2),
      Recall(true, [Node("node", text)], Some("node"), 3);
    var events := [a, b, c];
    assert Current(context, [], hash) == Empty(context);
    LastMoment(context, [], a, hash);
    LastMoment(context, [a], b, hash);
    LastMoment(context, [a, b], c, hash);
    assert events[..0] == [] && events[..1] == [] + [a] == [a] && events[..2] == [a] + [b] == [a, b]
      && [a, b] + [c] == events;
    assert events[2].seen == Current(context, events[..2], hash).writtenNodeId;
  }
}
