/** What the straight-line end of a turn (see Turn) says about each call, each
  * reply and each decision, in terms of the daemon's answers alone. */
module TurnMeaning {
  import opened Prelude
  import opened Turn

  // ---- What each call comes to ------------------------------------------------------

  /** The item the model gets for the n-th call of the turn. */
  predicate Settles(w: World, n: nat, call: Call, item: Item) {
    item.CallOutput? && item.callId == call.callId &&
    match call.tool
    case TransferFile => item.output == Text(w.toolOutput(n))
    case UnknownTool(name) => item.output == NoSuchTool(name)
    case RunShellCommand =>
      match w.first(n)
      case Unreachable(why) => item.output == ShellError(why)
      case Answered(NoTier, _) => item.output == DeniedByPolicy
      case Answered(SaysDeny, _) => item.output == DeniedByPolicy
      case Answered(SaysOther(_), payload) => item.output == Text(payload)
      case Answered(SaysAsk, _) =>
        match w.decision(n)
        case Refuse => item.output == DeniedByUser
        case Approve =>
          match w.resend(n)
          case Unreachable(why) => item.output == ShellError(why)
          case Answered(NoTier, _) => item.output == DeniedByPolicy
          case Answered(SaysDeny, _) => item.output == DeniedByPolicy
          case Answered(_, payload) => item.output == Text(payload)
  }

  lemma OutcomeSettles(w: World, n: nat, call: Call)
    ensures Settles(w, n, call, CallOutput(call.callId, Outcome(w, n, call)))
  {
  }

  /** Whatever pauses there were, the k-th input holds for each call of the reply
    * before it, in order, what the daemon and the user said about that call. */
  lemma EveryCallIsSettled(w: World, t: State, k: nat, j: nat)
    requires AtRest(t) && t.asked < k < |Finished(w, t).sent|
    ensures k <= |w.replies| && |Finished(w, t).sent[k]| == |w.replies[k - 1].calls|
    ensures j < |w.replies[k - 1].calls| ==>
              Settles(w, t.resolved + CallsIn(w.replies, t.asked, k - 1) + j, w.replies[k - 1].calls[j], Finished(w, t).sent[k][j])
  {
    EveryCallIsAnswered(w, t, k);
    if j < |w.replies[k - 1].calls| {
      OutcomeSettles(w, t.resolved + CallsIn(w.replies, t.asked, k - 1) + j, w.replies[k - 1].calls[j]);
    }
  }

  /** The same for a turn that starts from an injected call. */
  lemma ForcedCallIsSettled(w: World, text: string, call: Call)
    requires w.replies != []
    ensures var sent := Finished(w, Forced(text, call)).sent;
            |sent| > 0 && |sent[0]| == 2 && sent[0][0] == CallEcho(call) && Settles(w, 0, call, sent[0][1])
  {
    ForcedCallIsAnswered(w, text, call);
    OutcomeSettles(w, 0, call);
  }

  // ---- What a decision decides ------------------------------------------------------

  predicate AskedAbout(w: World, n: nat) {
    w.first(n).Answered? && w.first(n).tier == SaysAsk
  }

  /** The worlds differ only in what the user would say of calls the daemon did
    * not ask about, and in what it would answer to resends nobody approved. */
  ghost predicate SameWhereItCounts(w: World, v: World) {
    && w.replies == v.replies
    && (forall n: nat :: w.first(n) == v.first(n) && w.toolOutput(n) == v.toolOutput(n))
    && (forall n: nat :: AskedAbout(w, n) ==> w.decision(n) == v.decision(n))
    && (forall n: nat :: AskedAbout(w, n) && w.decision(n) == Approve ==> w.resend(n) == v.resend(n))
  }

  lemma {:induction false} DrainedAlike(w: World, v: World, t: State)
    requires SameWhereItCounts(w, v) && MidHop(t)
    ensures Drained(w, t) == Drained(v, t)
    decreases |t.pending.value|
  {
    if t.pending.value != [] {
      var n := t.resolved;
      assert AskedAbout(w, n) || !AskedAbout(w, n);
      assert w.toolOutput(n) == v.toolOutput(n);
      DrainedAlike(w, v, Resolved(t, Outcome(w, n, t.pending.value[0])));
    }
  }

  /** A refused call is never resent and no decision lets an unasked call through:
    * the turn ends the same whatever those would have brought. */
  lemma {:induction false} OnlyApprovedCallsAreResent(w: World, v: World, t: State)
    requires SameWhereItCounts(w, v) && (t.pending.Some? ==> MidHop(t))
    ensures Finished(w, t) == Finished(v, t)
    decreases |w.replies| - t.asked, if t.pending.Some? then 1 else 0
  {
    if t.pending.Some? {
      DrainedAlike(w, v, t);
      OnlyApprovedCallsAreResent(w, v, EndHop(Drained(w, t)));
    } else if MoreCalls(w, t) {
      var reply := w.replies[t.asked];
      OnlyApprovedCallsAreResent(w, v, Heard(t, reply).(pending := Some(reply.calls), outputs := Some([])));
    }
  }

  // ---- Where a turn ends, and with what -----------------------------------------------

  function TextsOf(replies: seq<Reply>): string {
    if replies == [] then "" else replies[0].text + TextsOf(replies[1..])
  }

  /** What the logs record of one call: commands and transfers go to logs of their own. */
  function OneRecorded(w: World, n: nat, call: Call, shell: bool): seq<(string, Output)> {
    if (if shell then call.tool.RunShellCommand? else call.tool.TransferFile?) then [(call.arguments, Outcome(w, n, call))] else []
  }

  /** What the logs record of some calls, the first being the n-th of the turn. */
  function Recorded(w: World, n: nat, calls: seq<Call>, shell: bool): seq<(string, Output)>
    decreases |calls|
  {
    if calls == [] then []
    else
      OneRecorded(w, n, calls[0], shell) + Recorded(w, n + 1, calls[1..], shell)
  }

  /** All calls of some replies, in order. */
  function AllCalls(replies: seq<Reply>): seq<Call> {
    if replies == [] then [] else replies[0].calls + AllCalls(replies[1..])
  }

  lemma {:induction false} RecordedSplit(w: World, n: nat, a: seq<Call>, b: seq<Call>, shell: bool)
    ensures Recorded(w, n, a + b, shell) == Recorded(w, n, a, shell) + Recorded(w, n + |a|, b, shell)
    decreases |a|
  {
    if a == [] {
      assert a + b == b;
    } else {
      assert (a + b)[1..] == a[1..] + b;
      RecordedSplit(w, n + 1, a[1..], b, shell);
    }
  }

  lemma LogsGlue<T>(log: seq<T>, one: seq<T>, rest: seq<T>, next: seq<T>)
    requires next == log + one
    ensures next + rest == log + (one + rest)
  {
  }

  lemma FrontRecords(w: World, t: State) returns (next: State)
    requires MidHop(t) && t.pending.value != []
    ensures MidHop(next) && next.pending.value == t.pending.value[1..] && next.resolved == t.resolved + 1
    ensures next.shellLog == t.shellLog + OneRecorded(w, t.resolved, t.pending.value[0], true)
    ensures next.transferLog == t.transferLog + OneRecorded(w, t.resolved, t.pending.value[0], false)
    ensures next.response == t.response && next.previousId == t.previousId
    ensures Drained(w, t) == Drained(w, next)
  {
    next := Resolved(t, Outcome(w, t.resolved, t.pending.value[0]));
  }

  lemma {:induction false} DrainedLogs(w: World, t: State)
    requires MidHop(t)
    ensures Drained(w, t).shellLog == t.shellLog + Recorded(w, t.resolved, t.pending.value, true)
    ensures Drained(w, t).transferLog == t.transferLog + Recorded(w, t.resolved, t.pending.value, false)
    ensures Drained(w, t).response == t.response && Drained(w, t).previousId == t.previousId
    decreases |t.pending.value|
  {
    if t.pending.value != [] {
      var call, n := t.pending.value[0], t.resolved;
      var next := FrontRecords(w, t);
      DrainedLogs(w, next);
      LogsGlue(t.shellLog, OneRecorded(w, n, call, true), Recorded(w, n + 1, t.pending.value[1..], true), next.shellLog);
      LogsGlue(t.transferLog, OneRecorded(w, n, call, false), Recorded(w, n + 1, t.pending.value[1..], false), next.transferLog);
    }
  }

  /** One whole hop, as far as text and logs go. */
  lemma HopRecords(w: World, t: State) returns (next: State)
    requires AtRest(t) && MoreCalls(w, t)
    ensures AtRest(next) && next.asked == t.asked + 1 && Finished(w, t) == Finished(w, next)
    ensures next.response == t.response + w.replies[t.asked].text && next.previousId == Some(w.replies[t.asked].id)
    ensures next.resolved == t.resolved + |w.replies[t.asked].calls|
    ensures next.shellLog == t.shellLog + Recorded(w, t.resolved, w.replies[t.asked].calls, true)
    ensures next.transferLog == t.transferLog + Recorded(w, t.resolved, w.replies[t.asked].calls, false)
  {
    var reply := w.replies[t.asked];
    var hop := Heard(t, reply).(pending := Some(reply.calls), outputs := Some([]));
    DrainedLogs(w, hop);
    DrainedCounts(w, hop);
    next := EndHop(Drained(w, hop));
  }

  lemma OneMoreReply(replies: seq<Reply>, from: nat, upto: nat)
    requires from < upto <= |replies|
    ensures TextsOf(replies[from..upto]) == replies[from].text + TextsOf(replies[from + 1..upto])
    ensures AllCalls(replies[from..upto]) == replies[from].calls + AllCalls(replies[from + 1..upto])
  {
    assert replies[from..upto][0] == replies[from] && replies[from..upto][1..] == replies[from + 1..upto];
  }

  /** end has heard the replies from t on, up to the first without a call. */
  ghost predicate HeardOut(w: World, t: State, end: State) {
    && t.asked <= end.asked <= |w.replies|
    && (end.asked == |w.replies| || (t.asked < end.asked && w.replies[end.asked - 1].calls == []))
    && (forall k :: t.asked <= k < end.asked - 1 ==> w.replies[k].calls != [])
    && end.previousId == (if end.asked == t.asked then t.previousId else Some(w.replies[end.asked - 1].id))
  }

  /** Its text is theirs, end to end, and its logs hold every command and
    * transfer they proposed, in order, with what it came to. */
  ghost predicate TellsAll(w: World, t: State, end: State)
    requires t.asked <= end.asked <= |w.replies|
  {
    var heard := w.replies[t.asked..end.asked];
    && end.response == t.response + TextsOf(heard)
    && end.shellLog == t.shellLog + Recorded(w, t.resolved, AllCalls(heard), true)
    && end.transferLog == t.transferLog + Recorded(w, t.resolved, AllCalls(heard), false)
  }

  lemma {:induction false} TurnEndsWith(w: World, t: State)
    requires AtRest(t) && t.asked <= |w.replies|
    ensures HeardOut(w, t, Finished(w, t)) && TellsAll(w, t, Finished(w, t))
    decreases |w.replies| - t.asked
  {
    if MoreCalls(w, t) {
      var next := HopRecords(w, t);
      TurnEndsWith(w, next);
      TellsOneMore(w, t, next, Finished(w, t));
    } else if t.asked < |w.replies| {
      LastReply(w, t, Heard(t, w.replies[t.asked]));
    }
  }

  lemma LastReply(w: World, t: State, end: State)
    requires t.asked < |w.replies| && w.replies[t.asked].calls == [] && end == Heard(t, w.replies[t.asked])
    ensures TellsAll(w, t, end)
  {
    OneMoreReply(w.replies, t.asked, end.asked);
    assert w.replies[t.asked + 1..end.asked] == [];
    assert w.replies[t.asked].text + "" == w.replies[t.asked].text;
  }

  lemma TellsOneMore(w: World, t: State, next: State, end: State)
    requires t.asked < |w.replies| && next.asked == t.asked + 1 <= end.asked <= |w.replies|
    requires next.response == t.response + w.replies[t.asked].text
    requires next.resolved == t.resolved + |w.replies[t.asked].calls|
    requires next.shellLog == t.shellLog + Recorded(w, t.resolved, w.replies[t.asked].calls, true)
    requires next.transferLog == t.transferLog + Recorded(w, t.resolved, w.replies[t.asked].calls, false)
    requires TellsAll(w, next, end)
    ensures TellsAll(w, t, end)
  {
    OneMoreReply(w.replies, t.asked, end.asked);
    var calls, rest := w.replies[t.asked].calls, AllCalls(w.replies[t.asked + 1..end.asked]);
    var later := next.resolved;
    LogsGlue(t.response, w.replies[t.asked].text, TextsOf(w.replies[t.asked + 1..end.asked]), next.response);
    RecordedSplit(w, t.resolved, calls, rest, true);
    LogsGlue(t.shellLog, Recorded(w, t.resolved, calls, true), Recorded(w, later, rest, true), next.shellLog);
    RecordedSplit(w, t.resolved, calls, rest, false);
    LogsGlue(t.transferLog, Recorded(w, t.resolved, calls, false), Recorded(w, later, rest, false), next.transferLog);
  }
}
