/** The tool-calling turn: run_turn and what it calls in
  * casper_service/conversations.py. */
module Turn {
  import opened Prelude

  /** A proposed tool call; arguments are the model's JSON text. */
  datatype Tool = RunShellCommand | TransferFile | UnknownTool(name: string)

  datatype Call = Call(callId: string, tool: Tool, arguments: string)

  /** The tier field of a daemon's answer. */
  datatype TierText = NoTier | SaysAsk | SaysDeny | SaysOther(text: string)

  /** What a round trip to the daemon (or failing to make one) yields. */
  datatype Answer = Unreachable(why: string) | Answered(tier: TierText, payload: string)

  /** The text a call comes to. */
  datatype Output = DeniedByPolicy | DeniedByUser | ShellError(why: string) | Text(payload: string) | NoSuchTool(name: string)

  datatype Tier = Allow | Ask | Deny

  datatype Decision = Approve | Refuse

  /** One model response: its id, its text, the calls it proposes. */
  datatype Reply = Reply(id: string, text: string, calls: seq<Call>)

  /** Everything outside the turn, fixed in advance but otherwise arbitrary: the
    * model's replies, and for the n-th call of the turn what the daemon answers
    * to a first dispatch, what it answers to an approved resend, what the user
    * decides if asked, and what another tool returns. */
  datatype World = World(
    replies: seq<Reply>,
    first: nat -> Answer,
    resend: nat -> Answer,
    decision: nat -> Decision,
    toolOutput: nat -> string)

  datatype Item = UserMessage(text: string) | CallEcho(call: Call) | CallOutput(callId: string, output: Output)

  datatype Awaiting = Awaiting(callId: string, arguments: string, approvalId: Option<nat>)

  /** The turn dictionary, plus two counters and a log that exist only here:
    * how many replies and calls are behind us, and every input sent so far. */
  datatype State = State(
    input: seq<Item>,
    pending: Option<seq<Call>>,
    outputs: Option<seq<Item>>,
    awaiting: Option<Awaiting>,
    response: string,
    previousId: Option<string>,
    shellLog: seq<(string, Output)>,
    transferLog: seq<(string, Output)>,
    asked: nat,
    resolved: nat,
    sent: seq<seq<Item>>)

  /** How _dispatch_shell_command reads the daemon's answer. */
  function Dispatch(a: Answer, approved: bool): (Tier, Output) {
    match a
    case Unreachable(why) => (Deny, ShellError(why))
    case Answered(tier, payload) =>
      if tier == NoTier || tier == SaysDeny then (Deny, DeniedByPolicy)
      else if tier == SaysAsk && !approved then (Ask, Text(""))
      else (Allow, Text(payload))
  }

  // ---- The straight-line meaning ----------------------------------------------

  /** What the n-th call comes to, pauses or no pauses. */
  function Outcome(w: World, n: nat, call: Call): Output {
    if call.tool.RunShellCommand? then
      var (tier, output) := Dispatch(w.first(n), false);
      if tier != Ask then output
      else if w.decision(n) == Refuse then DeniedByUser
      else Dispatch(w.resend(n), true).1
    else if call.tool.TransferFile? then Text(w.toolOutput(n))
    else NoSuchTool(call.tool.name)
  }

  /** One output per call, in order, under the call's own id. */
  function Outcomes(w: World, n: nat, calls: seq<Call>): (items: seq<Item>)
    ensures |items| == |calls|
    ensures forall k :: 0 <= k < |calls| ==> items[k] == CallOutput(calls[k].callId, Outcome(w, n + k, calls[k]))
  {
    seq(|calls|, k requires 0 <= k < |calls| => CallOutput(calls[k].callId, Outcome(w, n + k, calls[k])))
  }

  /** The front call has come to output. */
  function Resolved(t: State, output: Output): State
    requires t.pending.Some? && t.pending.value != [] && t.outputs.Some?
  {
    var call := t.pending.value[0];
    t.(awaiting := None,
       pending := Some(t.pending.value[1..]),
       outputs := Some(t.outputs.value + [CallOutput(call.callId, output)]),
       shellLog := if call.tool.RunShellCommand? then t.shellLog + [(call.arguments, output)] else t.shellLog,
       transferLog := if call.tool.TransferFile? then t.transferLog + [(call.arguments, output)] else t.transferLog,
       resolved := t.resolved + 1)
  }

  predicate MidHop(t: State) {
    t.pending.Some? && t.outputs.Some?
  }

  function Drained(w: World, t: State): (r: State)
    requires MidHop(t)
    ensures MidHop(r) && r.pending == Some([]) && r.asked == t.asked
    decreases |t.pending.value|
  {
    if t.pending.value == [] then t
    else Drained(w, Resolved(t, Outcome(w, t.resolved, t.pending.value[0])))
  }

  function EndHop(t: State): State
    requires MidHop(t)
  {
    t.(input := t.outputs.value, pending := None, outputs := None)
  }

  function Heard(t: State, reply: Reply): State {
    t.(previousId := Some(reply.id), response := t.response + reply.text, asked := t.asked + 1, sent := t.sent + [t.input])
  }

  /** The state the turn ends in: every proposed call resolved, every reply
    * heard until one proposes no call (or the model stops answering). */
  function Finished(w: World, t: State): State
    requires t.pending.Some? ==> MidHop(t)
    decreases |w.replies| - t.asked, if t.pending.Some? then 1 else 0
  {
    if t.pending.Some? then Finished(w, EndHop(Drained(w, t)))
    else if t.asked >= |w.replies| then t
    else
      var reply := w.replies[t.asked];
      var heard := Heard(t, reply);
      if reply.calls == [] then heard
      else Finished(w, heard.(pending := Some(reply.calls), outputs := Some([])))
  }

  /** A paused turn waits for its front pending call, which the daemon said to
    * ask about. */
  predicate PausedAtFront(w: World, t: State) {
    && (t.pending.Some? ==> MidHop(t))
    && (t.awaiting.Some? ==>
          && MidHop(t) && t.pending.value != []
          && var call := t.pending.value[0];
          && call.tool.RunShellCommand? && call.callId == t.awaiting.value.callId && call.arguments == t.awaiting.value.arguments
          && Dispatch(w.first(t.resolved), false).0 == Ask)
  }

  /** Calls still to be resolved, now or in replies to come. */
  function CallsLeft(replies: seq<Reply>): nat {
    if replies == [] then 0 else |replies[0].calls| + CallsLeft(replies[1..])
  }

  function Left(w: World, t: State): nat {
    (if t.pending.Some? then |t.pending.value| else 0) + (if t.asked <= |w.replies| then CallsLeft(w.replies[t.asked..]) else 0)
  }

  /** A snapshot and the live turn differ at most in the approval's id. */
  predicate SameButId(a: State, b: State) {
    && a.(awaiting := None) == b.(awaiting := None)
    && (a.awaiting.Some? <==> b.awaiting.Some?)
    && (a.awaiting.Some? ==> a.awaiting.value.(approvalId := None) == b.awaiting.value.(approvalId := None))
  }

  /** The turn is paused and its approval's snapshot is stored. */
  predicate Stored(snapshots: seq<State>, t: State) {
    && t.awaiting.Some? && t.awaiting.value.approvalId.Some? && t.awaiting.value.approvalId.value < |snapshots|
    && SameButId(snapshots[t.awaiting.value.approvalId.value], t)
  }

  datatype Status = Done(text: string) | PendingApproval | NoReply

  // ---- The machine ---------------------------------------------------------------

  class Machine {
    var t: State
    /** The pending approvals' snapshots, by approval id. */
    var snapshots: seq<State>

    constructor (start: State)
      ensures t == start && snapshots == []
    {
      t, snapshots := start, [];
    }

    /** Goes through the pending calls until one must wait for approval. */
    method DrainPendingCalls(w: World) returns (paused: bool)
      requires PausedAtFront(w, t) && MidHop(t) && t.awaiting.None?
      modifies this
      ensures PausedAtFront(w, t) && MidHop(t)
      ensures Drained(w, t.(awaiting := None)) == Drained(w, old(t)) && t.asked == old(t.asked)
      ensures Left(w, t) <= Left(w, old(t))
      ensures paused <==> t.awaiting.Some?
      ensures !paused ==> t == Drained(w, old(t)) && snapshots == old(snapshots)
      ensures paused ==> old(snapshots) <= snapshots && Stored(snapshots, t)
    {
      while t.pending.value != []
        invariant PausedAtFront(w, t) && MidHop(t) && t.awaiting.None?
        invariant Drained(w, t) == Drained(w, old(t)) && t.asked == old(t.asked)
        invariant |t.pending.value| <= |old(t.pending.value)|
        invariant snapshots == old(snapshots)
        decreases |t.pending.value|
      {
        var call := t.pending.value[0];
        var output: Output;
        if call.tool.RunShellCommand? {
          var (tier, text) := Dispatch(w.first(t.resolved), false);
          if tier == Ask {
            t := t.(awaiting := Some(Awaiting(call.callId, call.arguments, None)));
            snapshots := snapshots + [t];
            t := t.(awaiting := Some(t.awaiting.value.(approvalId := Some(|snapshots| - 1))));
            assert t.(awaiting := None).awaiting == None;
            return true;
          }
          output := text;
        } else if call.tool.TransferFile? {
          output := Text(w.toolOutput(t.resolved));
        } else {
          output := NoSuchTool(call.tool.name);
        }
        t := Resolved(t, output);
      }
      paused := false;
    }

    /** Runs the turn, or resumes it with the user's decision, until it is done
      * or must wait. However it is interrupted, it heads for the same end. */
    method RunTurn(w: World, decision: Option<Decision>) returns (status: Status)
      requires PausedAtFront(w, t)
      requires t.awaiting.Some? && decision.Some? ==> decision.value == w.decision(t.resolved)
      modifies this
      ensures PausedAtFront(w, t) && old(snapshots) <= snapshots
      ensures status.Done? ==> t == Finished(w, old(t)) && status.text == t.response && t.pending.None? && t.awaiting.None?
      ensures status.NoReply? ==> t == Finished(w, old(t)) && t.pending.None? && t.asked >= |w.replies|
      ensures status.PendingApproval? ==> t.awaiting.Some? && Finished(w, t) == Finished(w, old(t))
      ensures status.PendingApproval? && (old(t.awaiting).None? || decision.Some?) ==>
                Stored(snapshots, t)
      ensures old(t.awaiting).Some? && decision.None? ==> status.PendingApproval? && t == old(t)
      ensures Left(w, t) <= Left(w, old(t))
      ensures old(t.awaiting).Some? && decision.Some? ==> Left(w, t) < Left(w, old(t))
    {
      if t.awaiting.Some? {
        if decision.None? {
          return PendingApproval;
        }
        Resume(w, decision.value);
      }
      ghost var resumed := t;
      while true
        invariant PausedAtFront(w, t) && t.awaiting.None?
        invariant Finished(w, t) == Finished(w, resumed)
        invariant Left(w, t) <= Left(w, resumed)
        invariant old(snapshots) <= snapshots
        decreases |w.replies| - t.asked, if t.pending.Some? then 1 else 0
      {
        if t.pending.None? {
          if t.asked >= |w.replies| {
            return NoReply;
          }
          var more := AskModel(w);
          if !more {
            return Done(t.response);
          }
        }
        ghost var before := t;
        var paused := DrainPendingCalls(w);
        FinishedDrains(w, before);
        if paused {
          FinishedDrains(w, t);
          IgnoresAwaiting(w, t);
          return PendingApproval;
        }
        t := EndHop(t);
      }
    }

    /** The resume branch: settles the call the turn was paused on. */
    method Resume(w: World, decision: Decision)
      requires PausedAtFront(w, t) && t.awaiting.Some? && decision == w.decision(t.resolved)
      modifies this`t
      ensures MidHop(t) && t.awaiting.None? && PausedAtFront(w, t)
      ensures Finished(w, t) == Finished(w, old(t)) && Left(w, t) < Left(w, old(t))
    {
      var output := if decision == Refuse then DeniedByUser else Dispatch(w.resend(t.resolved), true).1;
      assert output == Outcome(w, t.resolved, t.pending.value[0]);
      FinishedDrains(w, t);
      t := Resolved(t, output);
      FinishedDrains(w, t);
    }

    /** One model call; more says whether it proposed any tool call. */
    method AskModel(w: World) returns (more: bool)
      requires t.pending.None? && t.awaiting.None? && t.asked < |w.replies|
      modifies this`t
      ensures t.awaiting.None? && t.asked == old(t.asked) + 1
      ensures !more ==> t == Finished(w, old(t)) && t.pending.None?
      ensures more ==> MidHop(t) && Finished(w, t) == Finished(w, old(t))
      ensures Left(w, t) <= Left(w, old(t))
    {
      var reply := w.replies[t.asked];
      assert w.replies[t.asked..][0] == reply && w.replies[t.asked..][1..] == w.replies[t.asked + 1..];
      t := Heard(t, reply);
      more := reply.calls != [];
      if more {
        t := t.(pending := Some(reply.calls), outputs := Some([]));
      }
    }
  }

  lemma FinishedDrains(w: World, t: State)
    requires MidHop(t)
    ensures Finished(w, t) == Finished(w, EndHop(Drained(w, t)))
  {
  }

  /** A paused turn drains as if it were not waiting. */
  lemma IgnoresAwaiting(w: World, t: State)
    requires MidHop(t) && t.pending.value != []
    ensures Drained(w, t) == Drained(w, t.(awaiting := None))
  {
    var output := Outcome(w, t.resolved, t.pending.value[0]);
    assert Resolved(t, output) == Resolved(t.(awaiting := None), output);
  }

  /** Resuming from the stored snapshot is resuming the live turn: the very next
    * state is the same, whatever the decision, and so is the end. */
  lemma SnapshotResumesTheSame(w: World, snapshot: State, live: State, output: Output)
    requires SameButId(snapshot, live) && live.awaiting.Some? && PausedAtFront(w, live)
    ensures PausedAtFront(w, snapshot)
    ensures Resolved(snapshot, output) == Resolved(live, output)
    ensures Finished(w, snapshot) == Finished(w, live)
  {
    assert snapshot.(awaiting := None).pending == live.(awaiting := None).pending;
    assert snapshot.(awaiting := None).outputs == live.(awaiting := None).outputs;
    assert snapshot.(awaiting := None).resolved == live.(awaiting := None).resolved;
    assert snapshot.awaiting.value.(approvalId := None).callId == live.awaiting.value.(approvalId := None).callId;
    assert snapshot.awaiting.value.(approvalId := None).arguments == live.awaiting.value.(approvalId := None).arguments;
    IgnoresAwaiting(w, snapshot);
    IgnoresAwaiting(w, live);
    FinishedDrains(w, snapshot);
    FinishedDrains(w, live);
  }

  /** A whole conversation turn, with as many pauses as the daemon asks for, each
    * answered when somebody gets to it, on the live turn or on its snapshot:
    * it ends in exactly the straight-line state. */
  method Converse(w: World, start: State) returns (final: State, status: Status)
    requires PausedAtFront(w, start) && start.awaiting.None?
    ensures final == Finished(w, start) && !status.PendingApproval?
    ensures final.awaiting.None? && final.pending.None?
    ensures if status.Done? then status.text == final.response else final.asked >= |w.replies|
  {
    var m := new Machine(start);
    status := m.RunTurn(w, None);
    while status.PendingApproval?
      invariant PausedAtFront(w, m.t)
      invariant status.PendingApproval? ==> Finished(w, m.t) == Finished(w, start) && Stored(m.snapshots, m.t)
      invariant !status.PendingApproval? ==> m.t == Finished(w, start) && m.t.awaiting.None? && m.t.pending.None?
      invariant status.Done? ==> status.text == m.t.response
      invariant status.NoReply? ==> m.t.asked >= |w.replies|
      invariant fresh(m)
      decreases Left(w, m.t), if status.PendingApproval? then 1 else 0
    {
      var idle := m.RunTurn(w, None);
      var fromSnapshot: bool := *;
      if fromSnapshot {
        var snapshot := m.snapshots[m.t.awaiting.value.approvalId.value];
        SnapshotResumesTheSame(w, snapshot, m.t, DeniedByUser);
        SnapshotIsAsLong(w, snapshot, m.t);
        m := new Machine(snapshot);
      }
      status := m.RunTurn(w, Some(w.decision(m.t.resolved)));
    }
    final := m.t;
  }

  lemma SnapshotIsAsLong(w: World, snapshot: State, live: State)
    requires SameButId(snapshot, live)
    ensures Left(w, snapshot) == Left(w, live)
  {
    assert snapshot.(awaiting := None).pending == live.(awaiting := None).pending;
    assert snapshot.(awaiting := None).asked == live.(awaiting := None).asked;
  }

  // ---- One output per call -----------------------------------------------------------

  /** Draining settles the front call and goes on. */
  lemma DrainFront(w: World, t: State) returns (next: State)
    requires MidHop(t) && t.pending.value != []
    ensures MidHop(next) && next.pending.value == t.pending.value[1..]
    ensures next.resolved == t.resolved + 1 && next.sent == t.sent
    ensures next.outputs.value
            == t.outputs.value + [CallOutput(t.pending.value[0].callId, Outcome(w, t.resolved, t.pending.value[0]))]
    ensures Drained(w, t) == Drained(w, next)
  {
    next := Resolved(t, Outcome(w, t.resolved, t.pending.value[0]));
  }

  lemma {:induction false} DrainedCounts(w: World, t: State)
    requires MidHop(t)
    ensures Drained(w, t).resolved == t.resolved + |t.pending.value| && Drained(w, t).sent == t.sent
    decreases |t.pending.value|
  {
    if t.pending.value != [] {
      var next := DrainFront(w, t);
      DrainedCounts(w, next);
    }
  }

  lemma {:induction false} DrainedOutputs(w: World, t: State)
    requires MidHop(t)
    ensures Drained(w, t).outputs.value == t.outputs.value + Outcomes(w, t.resolved, t.pending.value)
    decreases |t.pending.value|
  {
    var calls := t.pending.value;
    if calls == [] {
      NothingToDrain(w, t);
    } else {
      var next := DrainFront(w, t);
      DrainedOutputs(w, next);
      OutcomesSplit(w, t.resolved, calls);
      Glue(t.outputs.value, CallOutput(calls[0].callId, Outcome(w, t.resolved, calls[0])), Outcomes(w, t.resolved + 1, calls[1..]),
           Outcomes(w, t.resolved, calls), Drained(w, t).outputs.value);
    }
  }

  lemma NothingToDrain(w: World, t: State)
    requires MidHop(t) && t.pending.value == []
    ensures Drained(w, t) == t && t.outputs.value + Outcomes(w, t.resolved, t.pending.value) == t.outputs.value
  {
  }

  lemma Glue(before: seq<Item>, item: Item, rest: seq<Item>, whole: seq<Item>, out: seq<Item>)
    requires whole == [item] + rest && out == (before + [item]) + rest
    ensures out == before + whole
  {
  }

  lemma OutcomesSplit(w: World, n: nat, calls: seq<Call>)
    requires calls != []
    ensures Outcomes(w, n, calls) == [CallOutput(calls[0].callId, Outcome(w, n, calls[0]))] + Outcomes(w, n + 1, calls[1..])
  {
  }

  /** How many calls replies from..upto propose. */
  function CallsIn(replies: seq<Reply>, from: nat, upto: nat): nat
    requires from <= upto <= |replies|
    decreases upto - from
  {
    if from == upto then 0 else |replies[from].calls| + CallsIn(replies, from + 1, upto)
  }

  /** Between replies: everything asked was sent. */
  predicate AtRest(t: State) {
    t.pending.None? && |t.sent| == t.asked
  }

  /** The next reply proposes calls. */
  predicate MoreCalls(w: World, t: State) {
    t.asked < |w.replies| && w.replies[t.asked].calls != []
  }

  /** One whole hop: a reply with calls, all of them settled. */
  lemma Hop(w: World, t: State) returns (next: State)
    requires AtRest(t) && MoreCalls(w, t)
    ensures AtRest(next) && next.asked == t.asked + 1 && next.sent == t.sent + [t.input]
    ensures next.input == Outcomes(w, t.resolved, w.replies[t.asked].calls)
    ensures next.resolved == t.resolved + |w.replies[t.asked].calls|
    ensures Finished(w, t) == Finished(w, next)
  {
    var reply := w.replies[t.asked];
    var hop := Heard(t, reply).(pending := Some(reply.calls), outputs := Some([]));
    DrainedOutputs(w, hop);
    DrainedCounts(w, hop);
    next := EndHop(Drained(w, hop));
    assert [] + Outcomes(w, t.resolved, reply.calls) == Outcomes(w, t.resolved, reply.calls);
  }

  /** Each time the model is asked again, it is sent one output for every call
    * of its previous reply, in order, under that call's id, and with what that
    * call came to. */
  lemma {:induction false} EveryCallIsAnswered(w: World, t: State, k: nat)
    requires AtRest(t) && t.asked < k < |Finished(w, t).sent|
    ensures k <= |w.replies|
    ensures Finished(w, t).sent[k]
            == Outcomes(w, t.resolved + CallsIn(w.replies, t.asked, k - 1), w.replies[k - 1].calls)
    decreases |w.replies| - t.asked
  {
    SentGrows(w, t);
    if MoreCalls(w, t) {
      var next := Hop(w, t);
      if k == t.asked + 1 {
        NextInput(w, next);
      } else {
        EveryCallIsAnswered(w, next, k);
      }
    }
  }

  lemma {:induction false} SentGrows(w: World, t: State)
    requires AtRest(t)
    ensures t.sent <= Finished(w, t).sent
    decreases |w.replies| - t.asked
  {
    if MoreCalls(w, t) {
      var next := Hop(w, t);
      SentGrows(w, next);
    }
  }

  lemma NextInput(w: World, t: State)
    requires AtRest(t) && t.asked < |Finished(w, t).sent|
    ensures Finished(w, t).sent[t.asked] == t.input
  {
    if MoreCalls(w, t) {
      var next := Hop(w, t);
      SentGrows(w, next);
      assert next.sent[t.asked] == t.input;
    }
  }

  /** A turn that starts from an injected call (new_turn_from_tool_call). */
  function Forced(text: string, call: Call): State {
    State([UserMessage(text)], Some([call]), Some([CallEcho(call)]), None, "", None, [], [], 0, 0, [])
  }

  /** The model's first input is then the call itself followed by its one output. */
  lemma ForcedCallIsAnswered(w: World, text: string, call: Call)
    requires w.replies != []
    ensures |Finished(w, Forced(text, call)).sent| > 0
    ensures Finished(w, Forced(text, call)).sent[0] == [CallEcho(call), CallOutput(call.callId, Outcome(w, 0, call))]
  {
    var start := Forced(text, call);
    DrainedOutputs(w, start);
    DrainedCounts(w, start);
    var next := EndHop(Drained(w, start));
    assert Finished(w, start) == Finished(w, next);
    FirstIsSent(w, next);
    NextInput(w, next);
  }

  lemma FirstIsSent(w: World, t: State)
    requires AtRest(t) && t.asked < |w.replies|
    ensures |Finished(w, t).sent| > t.asked
  {
    if MoreCalls(w, t) {
      var next := Hop(w, t);
      SentGrows(w, next);
    }
  }
}
