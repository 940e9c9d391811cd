/** The decision and execution scaffold: signals ingested into an
    in-memory knowledge graph, a daily brief drawn from the most recent
    ones, a policy that validates actions and flags those needing approval,
    and an executor that queues the rest. */
module Hila {
  import opened Frames
  import opened Seqs

  /** A normalised event; the timestamp is a tick count. */
  datatype Signal = Signal(source: string, timestamp: int, payload: map<string, Value>)

  datatype InMemoryConnector = InMemoryConnector(signals: seq<Signal>)

  datatype KnowledgeGraph = KnowledgeGraph(signals: seq<Signal>)

  /** `fetch_signals` returns the list the connector was built with. */
  function FetchSignals(c: InMemoryConnector): (r: seq<Signal>)
    ensures |r| == |c.signals| && forall i :: 0 <= i < |r| ==> r[i] == c.signals[i]
  {
    c.signals
  }

  /** `ingest` appends, in order, after what is already stored. */
  function Ingest(kg: KnowledgeGraph, signals: seq<Signal>): (r: KnowledgeGraph)
    ensures |r.signals| == |kg.signals| + |signals|
    ensures r.signals[..|kg.signals|] == kg.signals && r.signals[|kg.signals|..] == signals
  {
    KnowledgeGraph(kg.signals + signals)
  }

  /** Newest first. */
  predicate Descending(s: seq<Signal>)
  {
    forall i, j :: 0 <= i < j < |s| ==> s[i].timestamp >= s[j].timestamp
  }

  /** Places `x` before the first element no newer than it, so that among
      equal timestamps earlier insertions stay in front. */
  function Insert(x: Signal, r: seq<Signal>): (q: seq<Signal>)
    requires Descending(r)
    ensures |q| == |r| + 1
    ensures multiset(q) == multiset(r) + multiset{x}
    ensures q[0] == x || (|r| > 0 && q[0] == r[0])
    ensures Descending(q)
    decreases |r|
  {
    if |r| == 0 || r[0].timestamp <= x.timestamp then [x] + r
    else
      var rest := Insert(x, r[1..]);
      assert r[0].timestamp >= rest[0].timestamp;
      assert forall i :: 0 <= i < |rest| ==> rest[0].timestamp >= rest[i].timestamp;
      assert r == [r[0]] + r[1..];
      [r[0]] + rest
  }

  /** `sorted(signals, key=timestamp, reverse=True)`: Python's sort is
      stable, also in reverse. */
  function SortByRecency(s: seq<Signal>): (r: seq<Signal>)
    ensures |r| == |s|
    ensures multiset(r) == multiset(s)
    ensures Descending(r)
    decreases |s|
  {
    if |s| == 0 then []
    else
      assert s == [s[0]] + s[1..];
      Insert(s[0], SortByRecency(s[1..]))
  }

  /** The signals carrying timestamp `t`. */
  function At(t: int): Signal -> bool
  {
    (y: Signal) => y.timestamp == t
  }

  lemma {:induction false} InsertStable(x: Signal, r: seq<Signal>, t: int)
    requires Descending(r)
    ensures Filter(Insert(x, r), At(t)) == (if x.timestamp == t then [x] else []) + Filter(r, At(t))
    decreases |r|
  {
    if |r| == 0 || r[0].timestamp <= x.timestamp {
      var q := [x] + r;
      assert q[0] == x && q[1..] == r;
      if x.timestamp == t && |r| > 0 {
        assert r[0].timestamp <= t;
      }
    } else {
      var q := Insert(x, r);
      assert q[0] == r[0] && q[1..] == Insert(x, r[1..]);
      InsertStable(x, r[1..], t);
      if x.timestamp == t {
        assert !At(t)(r[0]);
      }
    }
  }

  /** The sort is stable: for every timestamp, the signals carrying it keep
      their relative order. */
  lemma {:induction false} SortStable(s: seq<Signal>, t: int)
    ensures Filter(SortByRecency(s), At(t)) == Filter(s, At(t))
    decreases |s|
  {
    if |s| > 0 {
      SortStable(s[1..], t);
      InsertStable(s[0], SortByRecency(s[1..]), t);
    }
  }

  /** How many elements `xs[:limit]` keeps from a list of length `n`. */
  function SliceEnd(n: nat, limit: int): (k: nat)
    ensures k <= n
    ensures limit >= 0 ==> k == if limit < n then limit else n
    ensures limit < 0 ==> k == if n + limit > 0 then n + limit else 0
  {
    if limit >= 0 then (if limit < n then limit else n)
    else if n + limit > 0 then n + limit else 0
  }

  /** The `limit` `recent_signals` uses when its caller gives none. */
  const DefaultRecentLimit := 50

  /** `recent_signals`: the newest signals, at most `limit` of them (a
      negative `limit` drops that many from the end, as a Python slice
      does). */
  function RecentSignals(kg: KnowledgeGraph, limit: int): (r: seq<Signal>)
    ensures |r| == SliceEnd(|kg.signals|, limit)
    ensures multiset(r) <= multiset(kg.signals)
    ensures Descending(r)
  {
    var sorted := SortByRecency(kg.signals);
    assert sorted == sorted[..SliceEnd(|sorted|, limit)] + sorted[SliceEnd(|sorted|, limit)..];
    sorted[..SliceEnd(|sorted|, limit)]
  }

  /** Called without a limit, `recent_signals` returns at most 50 signals,
      and every signal ingested when there are no more than 50. */
  lemma RecentSignalsDefault(kg: KnowledgeGraph)
    ensures var r := RecentSignals(kg, DefaultRecentLimit);
            && |r| <= DefaultRecentLimit
            && (|kg.signals| <= DefaultRecentLimit ==> multiset(r) == multiset(kg.signals))
  {
    var r := RecentSignals(kg, DefaultRecentLimit);
    if |kg.signals| <= DefaultRecentLimit {
      var extra := multiset(kg.signals) - multiset(r);
      assert multiset(kg.signals) == multiset(r) + extra;
      assert |multiset(kg.signals)| == |multiset(r)| + |extra|;
      assert |extra| == 0;
    }
  }

  lemma DescendingSplit(s: seq<Signal>, k: nat)
    requires Descending(s) && k <= |s|
    ensures multiset(s[..k]) + multiset(s[k..]) == multiset(s)
    ensures forall i, j :: 0 <= i < k && 0 <= j < |s| - k ==> s[..k][i].timestamp >= s[k..][j].timestamp
  {
    assert s == s[..k] + s[k..];
    forall i, j | 0 <= i < k && 0 <= j < |s| - k
      ensures s[..k][i].timestamp >= s[k..][j].timestamp
    {
      assert s[..k][i] == s[i] && s[k..][j] == s[k + j];
    }
  }

  /** The signals returned and those left out make up the graph, and none
      left out is newer than any returned. */
  lemma RecentSignalsTopK(kg: KnowledgeGraph, limit: int)
    ensures var r := RecentSignals(kg, limit);
            var rest := SortByRecency(kg.signals)[|r|..];
            && multiset(r) + multiset(rest) == multiset(kg.signals)
            && forall i, j :: 0 <= i < |r| && 0 <= j < |rest| ==> r[i].timestamp >= rest[j].timestamp
  {
    DescendingSplit(SortByRecency(kg.signals), SliceEnd(|kg.signals|, limit));
  }

  /** The first of the returned signals is the newest in the graph. */
  lemma RecentSignalsNewestFirst(kg: KnowledgeGraph, limit: int)
    requires |RecentSignals(kg, limit)| > 0
    ensures RecentSignals(kg, limit)[0] in kg.signals
    ensures forall i :: 0 <= i < |kg.signals| ==> RecentSignals(kg, limit)[0].timestamp >= kg.signals[i].timestamp
  {
    var sorted := SortByRecency(kg.signals);
    assert RecentSignals(kg, limit)[0] == sorted[0];
    assert sorted[0] in multiset(kg.signals);
    forall i | 0 <= i < |kg.signals|
      ensures sorted[0].timestamp >= kg.signals[i].timestamp
    {
      assert kg.signals[i] in multiset(sorted);
      var j :| 0 <= j < |sorted| && sorted[j] == kg.signals[i];
    }
  }

  const BriefLimit := 5
  const LowConfidence: real := 0.2
  const HighConfidence: real := 0.72
  const NotifyOwner := "notify_owner"
  const OpenEscalation := "open_escalation"
  const CreateTask := "create_task"
  const RefundCustomer := "refund_customer"
  const UpdateContract := "update_contract"
  const UnknownRisk := "Unknown risk"

  /** The summary line: no risk, or the top signal's `title` (a default
      when it has none). */
  datatype Summary = NoCriticalRisks | TopRisk(title: Value)

  /** The rationale line: no signals, or the source and time of the latest. */
  datatype Rationale = NoRecentSignals | LatestSignal(source: string, timestamp: int)

  datatype Decision = Decision(summary: Summary, rationale: Rationale, confidence: real, recommendedActions: seq<string>)

  /** `payload.get('title', 'Unknown risk')`: the payload's title when it
      has one, whatever its type, and the default text otherwise. */
  function TitleOf(s: Signal): (title: Value)
    ensures "title" in s.payload ==> title == s.payload["title"]
    ensures "title" !in s.payload ==> title == Str(UnknownRisk)
  {
    if "title" in s.payload then s.payload["title"] else Str(UnknownRisk)
  }

  /** `daily_brief`: built from the newest of the five most recent
      signals. */
  function DailyBrief(kg: KnowledgeGraph): (d: Decision)
    ensures |kg.signals| == 0 <==> d.recommendedActions == []
    ensures |kg.signals| == 0 ==> d == Decision(NoCriticalRisks, NoRecentSignals, LowConfidence, [])
    ensures |kg.signals| > 0 ==>
              && d.confidence == HighConfidence
              && d.recommendedActions == [NotifyOwner, OpenEscalation]
              && d.rationale.LatestSignal? && d.summary.TopRisk?
              && exists i :: 0 <= i < |kg.signals| && kg.signals[i].source == d.rationale.source
                                                  && kg.signals[i].timestamp == d.rationale.timestamp
                                                  && d.summary == TopRisk(TitleOf(kg.signals[i]))
  {
    var recent := RecentSignals(kg, BriefLimit);
    if |recent| == 0 then
      Decision(NoCriticalRisks, NoRecentSignals, LowConfidence, [])
    else
      var top := recent[0];
      RecentSignalsNewestFirst(kg, BriefLimit);
      Decision(TopRisk(TitleOf(top)), LatestSignal(top.source, top.timestamp), HighConfidence, [NotifyOwner, OpenEscalation])
  }

  /** The brief names the newest signal of the whole graph. */
  lemma DailyBriefNamesNewest(kg: KnowledgeGraph)
    requires |kg.signals| > 0
    ensures var d := DailyBrief(kg);
            forall i :: 0 <= i < |kg.signals| ==> d.rationale.timestamp >= kg.signals[i].timestamp
  {
    RecentSignalsNewestFirst(kg, BriefLimit);
  }

  /** Among signals sharing the newest timestamp, the brief is drawn from
      the one ingested first: its summary carries that signal's `title` (or
      the default) and its rationale names that same signal's source and
      time. */
  lemma DailyBriefFirstNewest(kg: KnowledgeGraph)
    requires |kg.signals| > 0
    ensures var top := RecentSignals(kg, BriefLimit)[0];
            && DailyBrief(kg).summary == TopRisk(TitleOf(top))
            && DailyBrief(kg).rationale == LatestSignal(top.source, top.timestamp)
            && exists i :: 0 <= i < |kg.signals| && kg.signals[i] == top &&
                           forall j :: 0 <= j < i ==> kg.signals[j].timestamp < top.timestamp
  {
    var s := kg.signals;
    var sorted := SortByRecency(s);
    var top := sorted[0];
    assert RecentSignals(kg, BriefLimit)[0] == top;
    RecentSignalsNewestFirst(kg, BriefLimit);
    var t := top.timestamp;
    SortStable(s, t);
    assert Filter(sorted, At(t))[0] == top;
    FilterHead(s, At(t));
  }

  /** `PolicyEngine.validate_action`: only the three known actions pass. */
  function IsValidAction(a: string): (valid: bool)
    ensures valid <==> a == NotifyOwner || a == OpenEscalation || a == CreateTask
  {
    a in {NotifyOwner, OpenEscalation, CreateTask}
  }

  /** `PolicyEngine.requires_approval`: escalations, refunds and contract
      updates need a human. */
  function RequiresApproval(a: string): (required: bool)
    ensures required <==> a == OpenEscalation || a == RefundCustomer || a == UpdateContract
  {
    a in {OpenEscalation, RefundCustomer, UpdateContract}
  }

  /** An action the coordinator sends for approval. */
  predicate NeedsApproval(a: string)
  {
    IsValidAction(a) && RequiresApproval(a)
  }

  /** An action the coordinator executes straight away. */
  predicate Executable(a: string)
  {
    IsValidAction(a) && !RequiresApproval(a)
  }

  /** An action the coordinator drops. */
  predicate Skipped(a: string)
  {
    !IsValidAction(a)
  }

  /** Of the actions that need approval, only `open_escalation` can ever be
      proposed: refunds and contract updates fail validation first. */
  lemma ApprovalOnlyForEscalation(a: string)
    ensures NeedsApproval(a) <==> a == OpenEscalation
    ensures Executable(a) <==> a == NotifyOwner || a == CreateTask
  {
  }

  datatype ActionResult = ActionResult(action: string, status: string, details: map<string, Value>)

  const Queued := "queued"
  const QueuedAt := "queued_at"

  /** `ActionExecutor.execute`: the action is queued at time `now`. */
  function Execute(a: string, now: int): (r: ActionResult)
    ensures r.action == a && r.status == Queued
    ensures QueuedAt in r.details && r.details[QueuedAt] == Num(now) && |r.details.Keys| == 1
  {
    ActionResult(a, Queued, map[QueuedAt := Num(now)])
  }

  /** The routing loop of `run_daily_brief` (lines 151-157). */
  /** The results of executing each of `xs` at time `now`, in order. */
  function ExecuteAll(xs: seq<string>, now: int): (rs: seq<ActionResult>)
    ensures |rs| == |xs| && forall k :: 0 <= k < |xs| ==> rs[k] == Execute(xs[k], now)
  {
    seq(|xs|, k requires 0 <= k < |xs| => Execute(xs[k], now))
  }

  /** One more recommendation extends the approvals when it needs approval
      and the executed results when it is executable. */
  lemma RouteStep(done: seq<string>, a: string, now: int)
    ensures Filter(done + [a], NeedsApproval) == Filter(done, NeedsApproval) + (if NeedsApproval(a) then [a] else [])
    ensures ExecuteAll(Filter(done + [a], Executable), now)
         == ExecuteAll(Filter(done, Executable), now) + (if Executable(a) then [Execute(a, now)] else [])
  {
    FilterSnoc(done, a, NeedsApproval);
    FilterSnoc(done, a, Executable);
    if Executable(a) {
      var xs := Filter(done, Executable);
      assert ExecuteAll(xs + [a], now) == ExecuteAll(xs, now) + [Execute(a, now)];
    }
  }

  method RouteActions(actions: seq<string>, now: int) returns (executed: seq<ActionResult>, approvals: seq<string>)
    ensures approvals == Filter(actions, NeedsApproval)
    ensures |executed| == |Filter(actions, Executable)|
    ensures forall k :: 0 <= k < |executed| ==> executed[k] == Execute(Filter(actions, Executable)[k], now)
  {
    executed, approvals := [], [];
    var i := 0;
    while i < |actions|
      invariant 0 <= i <= |actions|
      invariant approvals == Filter(actions[..i], NeedsApproval)
      invariant executed == ExecuteAll(Filter(actions[..i], Executable), now)
    {
      var a := actions[i];
      assert actions[..i + 1] == actions[..i] + [a];
      RouteStep(actions[..i], a, now);
      if !IsValidAction(a) {
        i := i + 1;
        continue;
      }
      if RequiresApproval(a) {
        approvals := approvals + [a];
      } else {
        executed := executed + [Execute(a, now)];
      }
      i := i + 1;
    }
    assert actions[..|actions|] == actions;
  }

  /** Every proposed action is executed, sent for approval, or dropped, and
      exactly one of these. */
  lemma RoutingPartition(actions: seq<string>)
    ensures multiset(Filter(actions, Executable)) + multiset(Filter(actions, NeedsApproval)) + multiset(Filter(actions, Skipped))
            == multiset(actions)
  {
    FilterPartition(actions, Executable, NeedsApproval, Skipped);
  }

  /** What `run_daily_brief` returns. */
  datatype BriefOutput = BriefOutput(decision: Decision, signalsIngested: nat, executed: seq<ActionResult>, approvalsNeeded: seq<string>)

  /** `run_daily_brief` (lines 144-164). The reasoning engine reads the same
      knowledge graph the coordinator ingests into; `now` stands for the
      clock read by the executor. */
  method RunDailyBrief(connector: InMemoryConnector, kg: KnowledgeGraph, now: int) returns (out: BriefOutput, kg': KnowledgeGraph)
    ensures kg'.signals == kg.signals + connector.signals
    ensures out.signalsIngested == |connector.signals|
    ensures out.decision == DailyBrief(kg')
    ensures out.approvalsNeeded == Filter(out.decision.recommendedActions, NeedsApproval)
    ensures |out.executed| == |Filter(out.decision.recommendedActions, Executable)|
    ensures forall k :: 0 <= k < |out.executed| ==>
              out.executed[k] == Execute(Filter(out.decision.recommendedActions, Executable)[k], now)
  {
    var signals := FetchSignals(connector);
    kg' := Ingest(kg, signals);
    var decision := DailyBrief(kg');
    var executed, approvals := RouteActions(decision.recommendedActions, now);
    out := BriefOutput(decision, |signals|, executed, approvals);
  }

  /** Once anything has been ingested, the brief always queues
      `notify_owner` and asks approval for `open_escalation`; with nothing
      ingested it does neither. */
  lemma BriefRouting(kg: KnowledgeGraph)
    ensures var acts := DailyBrief(kg).recommendedActions;
            && (|kg.signals| > 0 ==> Filter(acts, Executable) == [NotifyOwner] && Filter(acts, NeedsApproval) == [OpenEscalation])
            && (|kg.signals| == 0 ==> Filter(acts, Executable) == [] && Filter(acts, NeedsApproval) == [])
  {
    var acts := DailyBrief(kg).recommendedActions;
    if |kg.signals| > 0 {
      assert acts == [NotifyOwner] + [OpenEscalation];
      assert Filter([OpenEscalation], Executable) == [];
      assert Filter([OpenEscalation], NeedsApproval) == [OpenEscalation];
    }
  }
}
