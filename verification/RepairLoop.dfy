/** The bounded generate-and-repair loop, for any provider and any gate (application/orchestrator.py). */
module RepairLoop {
  import opened Collections
  import opened Issues
  import opened ValidatorSpec
  import opened Placement
  import opened Limits
  import opened Cost
  import opened Guards
  import opened GateSpec
  import opened Repair

  datatype RepairContext = RepairContext(attempt: nat, previousSql: string, errors: seq<string>)

  /** A generation request: the prompt, the same throughout, and what the previous attempt got wrong. */
  datatype GenerationRequest = GenerationRequest(prompt: string, repair: Option<RepairContext>)

  /** An untrusted provider: its answer may depend on everything it has been asked so far. */
  type Provider = seq<GenerationRequest> -> string

  type SqlGate = string -> Verdict

  datatype Turn = Turn(request: GenerationRequest, sql: string, verdict: Verdict)

  // ----- the run as a function -----

  function Requests(turns: seq<Turn>): (r: seq<GenerationRequest>)
    ensures |r| == |turns|
    ensures forall i :: 0 <= i < |turns| ==> r[i] == turns[i].request
  {
    seq(|turns|, i requires 0 <= i < |turns| => turns[i].request)
  }

  function Ask(provider: Provider, gate: SqlGate, earlier: seq<Turn>, request: GenerationRequest): Turn {
    var sql := provider(Requests(earlier) + [request]);
    Turn(request, sql, gate(sql))
  }

  /** Whether a turn is followed by another one when `left` more may be made. */
  predicate GoesOn(turn: Turn, left: nat) {
    turn.verdict.Rejected? && left > 0 && IsRepairable(turn.verdict.issues)
  }

  function Retry(turn: Turn, attempt: nat): GenerationRequest
    requires turn.verdict.Rejected?
  {
    turn.request.(repair := Some(RepairContext(attempt, turn.sql, Feedback(turn.verdict.issues))))
  }

  /** All turns, given those already made and how many more may follow this one. */
  function Turns(provider: Provider, gate: SqlGate, earlier: seq<Turn>, request: GenerationRequest, left: nat):
    (turns: seq<Turn>)
    ensures |earlier| < |turns| <= |earlier| + left + 1
    decreases left
  {
    var turn := Ask(provider, gate, earlier, request);
    var made := earlier + [turn];
    if GoesOn(turn, left) then Turns(provider, gate, made, Retry(turn, |made|), left - 1) else made
  }

  function Run(provider: Provider, gate: SqlGate, prompt: string, maxRepair: nat): seq<Turn> {
    Turns(provider, gate, [], GenerationRequest(prompt, None), maxRepair)
  }

  // ----- what every run satisfies -----

  /** The turn answers its request and carries the gate's verdict on that answer. */
  ghost predicate FaithfulTurn(provider: Provider, gate: SqlGate, turns: seq<Turn>, k: nat)
    requires k < |turns|
  {
    turns[k].sql == provider(Requests(turns[..k + 1])) && turns[k].verdict == gate(turns[k].sql)
  }

  ghost predicate Faithful(provider: Provider, gate: SqlGate, turns: seq<Turn>) {
    forall k :: 0 <= k < |turns| ==> FaithfulTurn(provider, gate, turns, k)
  }

  /** The turn failed, and on nothing but correctness. */
  ghost predicate RepairingTurn(turn: Turn) {
    turn.verdict.Rejected? && turn.verdict.issues != [] && Codes(turn.verdict.issues) <= REPAIRABLE_CODES
  }

  /** Every turn but the last failed on correctness. */
  ghost predicate Repairing(turns: seq<Turn>) {
    forall k :: 0 <= k < |turns| - 1 ==> RepairingTurn(turns[k])
  }

  /** The first request carries no context; request k carries candidate k - 1 and its correctness hints. */
  ghost predicate InformedTurn(prompt: string, turns: seq<Turn>, k: nat)
    requires k < |turns|
  {
    && turns[k].request.prompt == prompt
    && if k == 0 then turns[k].request.repair == None
       else
         && turns[k - 1].verdict.Rejected?
         && turns[k].request.repair ==
              Some(RepairContext(k, turns[k - 1].sql, Feedback(turns[k - 1].verdict.issues)))
  }

  ghost predicate Informed(prompt: string, turns: seq<Turn>) {
    forall k :: 0 <= k < |turns| ==> InformedTurn(prompt, turns, k)
  }

  /** The loop stopped for a reason. */
  ghost predicate Finished(turns: seq<Turn>, maxRepair: nat) {
    && 1 <= |turns| <= maxRepair + 1
    && (|turns| == maxRepair + 1 || turns[|turns| - 1].verdict.Accepted? ||
        !IsRepairable(turns[|turns| - 1].verdict.issues))
  }

  ghost predicate IsRun(provider: Provider, gate: SqlGate, prompt: string, maxRepair: nat, turns: seq<Turn>) {
    && Faithful(provider, gate, turns) && Repairing(turns) && Informed(prompt, turns) && Finished(turns, maxRepair)
  }

  /** A partial run whose next request is known. */
  ghost predicate Underway(provider: Provider, gate: SqlGate, prompt: string, turns: seq<Turn>,
                          request: GenerationRequest) {
    && Faithful(provider, gate, turns) && Informed(prompt, turns)
    && (forall k :: 0 <= k < |turns| ==> turns[k].verdict.Rejected? && IsRepairable(turns[k].verdict.issues))
    && request.prompt == prompt
    && (|turns| == 0 ==> request.repair == None)
    && (|turns| > 0 ==> request == Retry(turns[|turns| - 1], |turns|))
  }

  lemma FaithfulSnoc(provider: Provider, gate: SqlGate, earlier: seq<Turn>, request: GenerationRequest)
    requires Faithful(provider, gate, earlier)
    ensures Faithful(provider, gate, earlier + [Ask(provider, gate, earlier, request)])
  {
    var made := earlier + [Ask(provider, gate, earlier, request)];
    forall k | 0 <= k < |made|
      ensures FaithfulTurn(provider, gate, made, k)
    {
      if k < |earlier| {
        assert FaithfulTurn(provider, gate, earlier, k);
        assert made[..k + 1] == earlier[..k + 1];
      } else {
        assert made[..k + 1] == made;
        assert Requests(made) == Requests(earlier) + [request];
      }
    }
  }

  lemma InformedSnoc(prompt: string, earlier: seq<Turn>, turn: Turn)
    requires Informed(prompt, earlier) && turn.request.prompt == prompt
    requires |earlier| == 0 ==> turn.request.repair == None
    requires |earlier| > 0 ==>
      earlier[|earlier| - 1].verdict.Rejected? && turn.request == Retry(earlier[|earlier| - 1], |earlier|)
    ensures Informed(prompt, earlier + [turn])
  {
    forall k | 0 <= k < |earlier| + 1
      ensures InformedTurn(prompt, earlier + [turn], k)
    {
      if k < |earlier| {
        assert InformedTurn(prompt, earlier, k);
      }
    }
  }

  lemma OneMore(provider: Provider, gate: SqlGate, prompt: string, earlier: seq<Turn>, request: GenerationRequest)
    requires Underway(provider, gate, prompt, earlier, request)
    ensures var made := earlier + [Ask(provider, gate, earlier, request)];
      Faithful(provider, gate, made) && Informed(prompt, made) && Repairing(made)
  {
    FaithfulSnoc(provider, gate, earlier, request);
    InformedSnoc(prompt, earlier, Ask(provider, gate, earlier, request));
    forall k | 0 <= k < |earlier|
      ensures RepairingTurn(earlier[k])
    {
      RepairableExactly(earlier[k].verdict.issues);
    }
  }

  lemma StillUnderway(provider: Provider, gate: SqlGate, prompt: string, earlier: seq<Turn>,
                      request: GenerationRequest, made: seq<Turn>, left: nat)
    requires Underway(provider, gate, prompt, earlier, request)
    requires made == earlier + [Ask(provider, gate, earlier, request)]
    requires GoesOn(Ask(provider, gate, earlier, request), left)
    ensures Underway(provider, gate, prompt, made, Retry(made[|earlier|], |made|))
  {
    OneMore(provider, gate, prompt, earlier, request);
  }

  /** One turn of the recursion. */
  lemma TurnsStep(provider: Provider, gate: SqlGate, earlier: seq<Turn>, request: GenerationRequest, left: nat)
    ensures var turn := Ask(provider, gate, earlier, request);
      Turns(provider, gate, earlier, request, left) ==
        var made := earlier + [turn];
        if GoesOn(turn, left) then Turns(provider, gate, made, Retry(turn, |made|), left - 1) else made
  {
  }

  lemma StopsHere(provider: Provider, gate: SqlGate, prompt: string, earlier: seq<Turn>,
                  request: GenerationRequest, turns: seq<Turn>, left: nat)
    requires Underway(provider, gate, prompt, earlier, request)
    requires turns == earlier + [Ask(provider, gate, earlier, request)]
    requires !GoesOn(Ask(provider, gate, earlier, request), left)
    ensures IsRun(provider, gate, prompt, |earlier| + left, turns)
  {
    OneMore(provider, gate, prompt, earlier, request);
  }

  lemma {:induction false} TurnsAreRun(provider: Provider, gate: SqlGate, prompt: string, earlier: seq<Turn>,
                                       request: GenerationRequest, left: nat, maxRepair: nat, turns: seq<Turn>)
    requires Underway(provider, gate, prompt, earlier, request) && |earlier| + left == maxRepair
    requires turns == Turns(provider, gate, earlier, request, left)
    ensures IsRun(provider, gate, prompt, maxRepair, turns)
    decreases left
  {
    var turn := Ask(provider, gate, earlier, request);
    var made := earlier + [turn];
    TurnsStep(provider, gate, earlier, request, left);
    if GoesOn(turn, left) {
      StillUnderway(provider, gate, prompt, earlier, request, made, left);
      TurnsAreRun(provider, gate, prompt, made, Retry(turn, |made|), left - 1, maxRepair, turns);
    } else {
      StopsHere(provider, gate, prompt, earlier, request, turns, left);
    }
  }

  /** For every provider and gate: at most `maxRepair + 1` calls, every turn but the last failed on
      correctness only, each request carries the previous candidate and only repairable feedback. */
  lemma RunIsRun(provider: Provider, gate: SqlGate, prompt: string, maxRepair: nat)
    ensures IsRun(provider, gate, prompt, maxRepair, Run(provider, gate, prompt, maxRepair))
  {
    TurnsAreRun(provider, gate, prompt, [], GenerationRequest(prompt, None), maxRepair, maxRepair,
                Run(provider, gate, prompt, maxRepair));
  }

  /** These properties leave only one run. */
  lemma RunsAgree(provider: Provider, gate: SqlGate, prompt: string, maxRepair: nat, a: seq<Turn>, b: seq<Turn>)
    requires IsRun(provider, gate, prompt, maxRepair, a) && IsRun(provider, gate, prompt, maxRepair, b)
    ensures a == b
  {
    var n := if |a| <= |b| then |a| else |b|;
    PrefixesAgree(provider, gate, prompt, a, b, n);
    assert a[n - 1] == a[..n][n - 1] == b[..n][n - 1] == b[n - 1];
    if |a| < |b| {
      RepairableExactly(b[n - 1].verdict.issues);
    }
    if |b| < |a| {
      RepairableExactly(a[n - 1].verdict.issues);
    }
    assert a == a[..n] && b == b[..n];
  }

  lemma {:induction false} PrefixesAgree(provider: Provider, gate: SqlGate, prompt: string, a: seq<Turn>,
                                         b: seq<Turn>, n: nat)
    requires Faithful(provider, gate, a) && Informed(prompt, a)
    requires Faithful(provider, gate, b) && Informed(prompt, b)
    requires n <= |a| && n <= |b|
    ensures a[..n] == b[..n]
  {
    if n != 0 {
      PrefixesAgree(provider, gate, prompt, a, b, n - 1);
      NextAgrees(provider, gate, prompt, a, b, n - 1);
      assert a[..n] == a[..n - 1] + [a[n - 1]] && b[..n] == b[..n - 1] + [b[n - 1]];
    }
  }

  lemma NextAgrees(provider: Provider, gate: SqlGate, prompt: string, a: seq<Turn>, b: seq<Turn>, k: nat)
    requires Faithful(provider, gate, a) && Informed(prompt, a)
    requires Faithful(provider, gate, b) && Informed(prompt, b)
    requires k < |a| && k < |b| && a[..k] == b[..k]
    ensures a[k] == b[k]
  {
    assert k > 0 ==> a[k - 1] == a[..k][k - 1] == b[..k][k - 1] == b[k - 1];
    assert InformedTurn(prompt, a, k) && InformedTurn(prompt, b, k);
    assert FaithfulTurn(provider, gate, a, k) && FaithfulTurn(provider, gate, b, k);
    assert a[k].request == b[k].request;
    assert Requests(a[..k + 1]) == Requests(a[..k]) + [a[k].request];
    assert Requests(b[..k + 1]) == Requests(b[..k]) + [b[k].request];
  }

  // ----- the loop -----

  /** The whole run, seen from one of its requests. */
  ghost predicate Remaining(provider: Provider, gate: SqlGate, made: seq<Turn>, request: GenerationRequest, left: nat,
                            run: seq<Turn>)
    decreases left
  {
    var turn := Ask(provider, gate, made, request);
    if GoesOn(turn, left) then
      Remaining(provider, gate, made + [turn], Retry(turn, |made| + 1), left - 1, run)
    else run == made + [turn]
  }

  lemma {:induction false} TurnsRemain(provider: Provider, gate: SqlGate, made: seq<Turn>, request: GenerationRequest,
                                       left: nat, run: seq<Turn>)
    requires run == Turns(provider, gate, made, request, left)
    ensures Remaining(provider, gate, made, request, left, run)
    decreases left
  {
    var turn := Ask(provider, gate, made, request);
    TurnsStep(provider, gate, made, request, left);
    if GoesOn(turn, left) {
      TurnsRemain(provider, gate, made + [turn], Retry(turn, |made| + 1), left - 1, run);
    }
  }

  lemma {:induction false} OneTurn(provider: Provider, gate: SqlGate, made: seq<Turn>, request: GenerationRequest,
                                   left: nat, run: seq<Turn>, turn: Turn)
    requires Remaining(provider, gate, made, request, left, run) && turn == Ask(provider, gate, made, request)
    ensures GoesOn(turn, left) ==>
      Remaining(provider, gate, made + [turn], Retry(turn, |made| + 1), left - 1, run)
    ensures !GoesOn(turn, left) ==> run == made + [turn]
  {
  }

  method GenerateWithRepair(provider: Provider, gate: SqlGate, prompt: string, maxRepair: nat)
    returns (lastSql: string, verdict: Verdict, attempts: nat)
    ensures var run := Run(provider, gate, prompt, maxRepair);
      && lastSql == run[|run| - 1].sql && verdict == run[|run| - 1].verdict
      && attempts + 1 == |run| <= maxRepair + 1
    ensures verdict == gate(lastSql)
  {
    ghost var run := Run(provider, gate, prompt, maxRepair);
    TurnsRemain(provider, gate, [], GenerationRequest(prompt, None), maxRepair, run);
    lastSql, verdict, attempts := Attempts(provider, gate, GenerationRequest(prompt, None), maxRepair, run);
  }

  /** The loop; `run` is what it is expected to go through. */
  method Attempts(provider: Provider, gate: SqlGate, first: GenerationRequest, maxRepair: nat, ghost run: seq<Turn>)
    returns (lastSql: string, verdict: Verdict, attempts: nat)
    requires Remaining(provider, gate, [], first, maxRepair, run)
    ensures |run| == attempts + 1 <= maxRepair + 1
    ensures run[attempts].sql == lastSql && run[attempts].verdict == verdict == gate(lastSql)
  {
    var request := first;
    var asked: seq<GenerationRequest> := [];
    ghost var made: seq<Turn> := [];
    lastSql, verdict, attempts := "", Rejected([]), 0;
    for attempt := 0 to maxRepair + 1
      invariant attempts == attempt == |made| <= maxRepair && asked == Requests(made)
      invariant Remaining(provider, gate, made, request, maxRepair - attempt, run)
    {
      asked := asked + [request];
      lastSql := provider(asked);
      verdict := gate(lastSql);
      ghost var turn := Turn(request, lastSql, verdict);
      OneTurn(provider, gate, made, request, maxRepair - attempt, run, turn);
      made := made + [turn];
      if verdict.Accepted? {
        return;
      }
      if attempt < maxRepair && IsRepairable(verdict.issues) {
        attempts := attempts + 1;
        var errors := SanitizedFeedback(verdict.issues);
        request := request.(repair := Some(RepairContext(attempts, lastSql, errors)));
        continue;
      }
      return;
    }
  }

  // ----- how runs end -----

  /** Whenever the failure is reported as exhausted, the whole budget was spent. */
  lemma ExhaustedMeansSpent(provider: Provider, gate: SqlGate, prompt: string, maxRepair: nat)
    requires forall sql :: gate(sql).Rejected? ==> gate(sql).issues != []
    ensures var run := Run(provider, gate, prompt, maxRepair);
      var last := run[|run| - 1].verdict;
      last.Rejected? ==>
        (ClassifyFailure(last.issues) == RepairExhausted <==> IsRepairable(last.issues)) &&
        (ClassifyFailure(last.issues) == RepairExhausted ==> |run| == maxRepair + 1)
  {
    RunIsRun(provider, gate, prompt, maxRepair);
    var run := Run(provider, gate, prompt, maxRepair);
    var last := run[|run| - 1].verdict;
    assert FaithfulTurn(provider, gate, run, |run| - 1);
    if last.Rejected? {
      assert last == gate(run[|run| - 1].sql);
      ExhaustedExactly(last.issues);
      RepairableExactly(last.issues);
    }
  }

  /** A candidate that broke a safety, policy or cost rule ends the run there and then. */
  lemma HardRejectionEndsRun(provider: Provider, gate: SqlGate, prompt: string, maxRepair: nat, k: nat)
    requires k < |Run(provider, gate, prompt, maxRepair)|
    requires var verdict := Run(provider, gate, prompt, maxRepair)[k].verdict;
      verdict.Rejected? && Codes(verdict.issues) * NON_REPAIRABLE_CODES != {}
    ensures k == |Run(provider, gate, prompt, maxRepair)| - 1
  {
    RunIsRun(provider, gate, prompt, maxRepair);
    var issues := Run(provider, gate, prompt, maxRepair)[k].verdict.issues;
    var code :| code in Codes(issues) * NON_REPAIRABLE_CODES;
    CodesPartitioned(code);
  }

  // ----- with the real gate -----

  /** The gate of one request, for any parser. */
  ghost function GateOf(g: GateConfig, r: Request, parse: string -> Parsed): SqlGate {
    (sql: string) => Gate(g, r, parse(sql))
  }

  /** A success is a statement that is clean, guarded by every tenant predicate, bounded and
      affordable; a failure comes with a reason. */
  ghost predicate SafeOutcome(g: GateConfig, r: Request, verdict: Verdict) {
    match verdict
    case Accepted(final) =>
      && Clean(g.validator, r.tenancy.schema, final)
      && Guarded(r.tenancy, final)
      && Bounded(final, r.maxRows)
      && Affordable(g.cost, final, g.planner(final))
    case Rejected(issues) => issues != []
  }

  /** Whatever the provider answers, the run ends in a safe outcome. */
  lemma EveryRunIsSafe(provider: Provider, g: GateConfig, r: Request, parse: string -> Parsed,
                       prompt: string, maxRepair: nat)
    requires r.maxRows < UNKNOWN_LIMIT
    requires forall sql :: parse(sql).Parsed? ==> forall s :: s in parse(sql).statements ==> Shaped(s)
    ensures var run := Run(provider, GateOf(g, r, parse), prompt, maxRepair);
      SafeOutcome(g, r, run[|run| - 1].verdict)
  {
    RunIsRun(provider, GateOf(g, r, parse), prompt, maxRepair);
    var run := Run(provider, GateOf(g, r, parse), prompt, maxRepair);
    var last := run[|run| - 1];
    assert FaithfulTurn(provider, GateOf(g, r, parse), run, |run| - 1);
    assert last.verdict == GateOf(g, r, parse)(last.sql) == Gate(g, r, parse(last.sql));
    GateIsSafe(g, r, parse(last.sql));
  }

  lemma GateIsSafe(g: GateConfig, r: Request, parsed: Parsed)
    requires r.maxRows < UNKNOWN_LIMIT
    requires parsed.Parsed? ==> forall s :: s in parsed.statements ==> Shaped(s)
    ensures SafeOutcome(g, r, Gate(g, r, parsed))
  {
    if Gate(g, r, parsed).Accepted? {
      AcceptedIsSafe(g, r, parsed);
    } else {
      RejectionCodes(g, r, parsed);
    }
  }
}
