/** Tricks and their execution (src/tricks.rs): the steps run in order until one yields a
    final status, every step run is reported, the names of spawned containers are
    collected, and once the status is fixed every collected container is reaped. */
module Tricks {
  import opened Results
  import opened Statuses
  import opened VersionChecks
  import opened Steps
  import opened Reports
  import DockerContainer

  datatype Trick = Trick(name: string, steps: seq<Step>)

  /** Where the step loop ended: the step reports, the last status, and the names of the
      containers to clean up. */
  datatype Execution = Execution(reports: seq<StepReport>, status: Status, containers: set<string>)

  /** The status each step's run yields: the `i`th step meets the world `env(i)`. */
  function Outcomes(steps: seq<Step>, env: nat -> StepEnv): (outcome: nat -> Status)
    ensures forall i | 0 <= i < |steps| :: outcome(i) == Steps.Run(steps[i], env(i))
  {
    (i: nat) => if i < |steps| then Steps.Run(steps[i], env(i)) else Undecided
  }

  /** The report of the `i`th step, whose run yielded `outcome(i)`. */
  function ReportOf(steps: seq<Step>, outcome: nat -> Status, i: nat): (r: StepReport)
    requires i < |steps|
    ensures r.inner == steps[i] && r.status == outcome(i)
  {
    NewStepReport(steps[i], outcome(i))
  }

  /** The names collected for cleanup once `step` has run: one more for a spawn step. */
  function Collect(names: set<string>, step: Step): (names': set<string>)
    ensures names' == (if step.SpawnContainerStep? then names + {step.spawnContainer.name} else names)
  {
    match SpawnedName(step)
    case Some(name) => names + {name}
    case None => names
  }

  /** The names the first `n` steps register for cleanup. */
  function SpawnedIn(steps: seq<Step>, n: nat): (names: set<string>)
    requires n <= |steps|
  {
    if n == 0 then {} else Collect(SpawnedIn(steps, n - 1), steps[n - 1])
  }

  /** A name is collected exactly when one of the first `n` steps spawns a container with
      that name, whether or not the spawn worked. */
  lemma {:induction false} SpawnedInNames(steps: seq<Step>, n: nat, name: string)
    requires n <= |steps|
    ensures name in SpawnedIn(steps, n) <==>
      exists i | 0 <= i < n :: steps[i].SpawnContainerStep? && steps[i].spawnContainer.name == name
  {
    if n > 0 {
      SpawnedInNames(steps, n - 1, name);
      if steps[n - 1].SpawnContainerStep? && steps[n - 1].spawnContainer.name == name {
        assert name in SpawnedIn(steps, n);
      }
    }
  }

  /** The loop state after `k` steps, none of which yielded a final status. */
  predicate Ongoing(steps: seq<Step>, outcome: nat -> Status, k: nat, reports: seq<StepReport>,
                    status: Status, containers: set<string>)
  {
    && k <= |steps|
    && |reports| == k
    && (forall i | 0 <= i < k :: reports[i] == ReportOf(steps, outcome, i))
    && (forall i | 0 <= i < k :: !IsFinal(reports[i].status))
    && status == (if k == 0 then Undecided else reports[k - 1].status)
    && containers == SpawnedIn(steps, k)
  }

  /** The step loop from step `k` on, the `i`th step's run yielding `outcome(i)`. */
  function Loop(steps: seq<Step>, outcome: nat -> Status, k: nat, reports: seq<StepReport>,
                status: Status, containers: set<string>): (e: Execution)
    requires Ongoing(steps, outcome, k, reports, status, containers)
    ensures k <= |e.reports| <= |steps|
    ensures forall i | 0 <= i < |e.reports| :: e.reports[i] == ReportOf(steps, outcome, i)
    ensures forall i | 0 <= i < |e.reports| - 1 :: !IsFinal(e.reports[i].status)
    ensures e.status == (if |e.reports| == 0 then Undecided else e.reports[|e.reports| - 1].status)
    ensures |e.reports| < |steps| ==> IsFinal(e.status)
    ensures e.containers == SpawnedIn(steps, |e.reports|)
    decreases |steps| - k
  {
    if k == |steps| then Execution(reports, status, containers)
    else
      var s := outcome(k);
      var containers' := Collect(containers, steps[k]);
      var reports' := reports + [NewStepReport(steps[k], s)];
      assert forall i | 0 <= i < k :: reports'[i] == reports[i];
      if IsFinal(s) then Execution(reports', s, containers')
      else Loop(steps, outcome, k + 1, reports', s, containers')
  }

  /** One turn of the step loop: the `k`th step runs, and the loop either stops with its
      final status or goes on from step `k + 1`. */
  lemma LoopTurn(steps: seq<Step>, outcome: nat -> Status, k: nat, reports: seq<StepReport>,
                 status: Status, containers: set<string>)
    requires Ongoing(steps, outcome, k, reports, status, containers) && k < |steps|
    ensures var reports' := reports + [NewStepReport(steps[k], outcome(k))];
      var containers' := Collect(containers, steps[k]);
      && (IsFinal(outcome(k)) ==>
            Loop(steps, outcome, k, reports, status, containers) == Execution(reports', outcome(k), containers'))
      && (!IsFinal(outcome(k)) ==>
            && Ongoing(steps, outcome, k + 1, reports', outcome(k), containers')
            && Loop(steps, outcome, k, reports, status, containers)
               == Loop(steps, outcome, k + 1, reports', outcome(k), containers'))
  {
    var reports' := reports + [NewStepReport(steps[k], outcome(k))];
    assert forall i | 0 <= i < k :: reports'[i] == reports[i];
  }

  /** The step loop of `Trick::run`: run each step in declaration order, collect the name
      of each spawned container, report the step, and stop after a final status. */
  function Execute(steps: seq<Step>, env: nat -> StepEnv): (e: Execution)
    ensures |e.reports| <= |steps|
    ensures forall i | 0 <= i < |e.reports| ::
      e.reports[i].inner == steps[i] && e.reports[i].status == Steps.Run(steps[i], env(i))
    ensures forall i | 0 <= i < |e.reports| - 1 :: !IsFinal(e.reports[i].status)
    ensures e.status == (if |e.reports| == 0 then Undecided else e.reports[|e.reports| - 1].status)
    ensures |e.reports| < |steps| ==> IsFinal(e.status)
    ensures e.containers == SpawnedIn(steps, |e.reports|)
  {
    var outcome := Outcomes(steps, env);
    var e := Loop(steps, outcome, 0, [], Undecided, {});
    assert forall i | 0 <= i < |e.reports| ::
      e.reports[i].inner == steps[i] && e.reports[i].status == Steps.Run(steps[i], env(i)) by {
      forall i | 0 <= i < |e.reports|
        ensures e.reports[i].inner == steps[i] && e.reports[i].status == outcome(i)
      {
        assert e.reports[i] == ReportOf(steps, outcome, i);
      }
    }
    e
  }

  /** The index of the first step from `k` on whose run yields a final status, the `i`th
      step's run yielding `outcome(i)`, or the number of steps when there is none. */
  function FirstFinal(steps: seq<Step>, outcome: nat -> Status, k: nat): (n: nat)
    requires k <= |steps|
    ensures k <= n <= |steps|
    decreases |steps| - k
  {
    if k == |steps| then k
    else if IsFinal(outcome(k)) then k
    else FirstFinal(steps, outcome, k + 1)
  }

  /** `FirstFinal` is the first final index: every step before it yields a non-final
      status, and the step at it, if any, a final one. */
  lemma {:induction false} FirstFinalIsFirst(steps: seq<Step>, outcome: nat -> Status, k: nat)
    requires k <= |steps|
    ensures forall i | k <= i < FirstFinal(steps, outcome, k) :: !IsFinal(outcome(i))
    ensures FirstFinal(steps, outcome, k) < |steps| ==> IsFinal(outcome(FirstFinal(steps, outcome, k)))
    decreases |steps| - k
  {
    if k < |steps| && !IsFinal(outcome(k)) {
      FirstFinalIsFirst(steps, outcome, k + 1);
    }
  }

  /** Exactly the steps up to and including the first one whose run yields a final status
      run, and every step runs when none does. */
  lemma ExecuteStopsAtFirstFinal(steps: seq<Step>, env: nat -> StepEnv)
    ensures var f := FirstFinal(steps, Outcomes(steps, env), 0);
      |Execute(steps, env).reports| == (if f < |steps| then f + 1 else |steps|)
  {
    var outcome := Outcomes(steps, env);
    var e := Execute(steps, env);
    var n := |e.reports|;
    var f := FirstFinal(steps, outcome, 0);
    FirstFinalIsFirst(steps, outcome, 0);
    if n > 0 && n - 1 < f {
      assert e.reports[n - 1].status == outcome(n - 1);
    }
  }

  /** A trick with no steps ends `Undecided`, with nothing reported or collected. */
  lemma EmptyTrickIsUndecided(env: nat -> StepEnv)
    ensures Execute([], env) == Execution([], Undecided, {})
  {
  }

  /** Every spawn step that ran has its name collected for cleanup, even when its own run
      failed, and no other name is collected. */
  lemma CleanupCoversSpawns(steps: seq<Step>, env: nat -> StepEnv, name: string)
    ensures var e := Execute(steps, env);
      name in e.containers <==>
        exists i | 0 <= i < |e.reports| :: steps[i].SpawnContainerStep? && steps[i].spawnContainer.name == name
  {
    SpawnedInNames(steps, |Execute(steps, env).reports|, name);
  }

  /** The step loop of `Trick::run` as a loop, the `i`th step's run yielding `outcome(i)`:
      run the steps in order, collecting names and reports, and leave after the first
      final status. */
  method LoopSteps(steps: seq<Step>, outcome: nat -> Status)
    returns (reports: seq<StepReport>, status: Status, containers: set<string>)
    ensures Execution(reports, status, containers) == Loop(steps, outcome, 0, [], Undecided, {})
  {
    reports, status, containers := [], Undecided, {};
    var k := 0;
    var halted := false;
    while k < |steps| && !halted
      invariant !halted ==> Ongoing(steps, outcome, k, reports, status, containers)
      invariant !halted ==> Loop(steps, outcome, k, reports, status, containers) == Loop(steps, outcome, 0, [], Undecided, {})
      invariant halted ==> Execution(reports, status, containers) == Loop(steps, outcome, 0, [], Undecided, {})
      decreases |steps| - k, if halted then 0 else 1
    {
      LoopTurn(steps, outcome, k, reports, status, containers);
      status := outcome(k);
      containers := Collect(containers, steps[k]);
      reports := reports + [NewStepReport(steps[k], status)];
      k := k + 1;
      halted := IsFinal(status);
    }
  }

  /** The step loop of `Trick::run`, each step meeting its own part of the world. */
  method RunSteps(steps: seq<Step>, env: nat -> StepEnv)
    returns (reports: seq<StepReport>, status: Status, containers: set<string>)
    ensures Execution(reports, status, containers) == Execute(steps, env)
  {
    reports, status, containers := LoopSteps(steps, Outcomes(steps, env));
  }

  /** One cleanup: the container reaped and what reaping it did. */
  datatype Reap = Reap(name: string, effect: DockerContainer.Effect)

  /** The names of the containers reaped, in the order they were reaped. */
  function ReapedNames(reaps: seq<Reap>): (names: seq<string>)
    ensures |names| == |reaps|
    ensures forall i | 0 <= i < |reaps| :: names[i] == reaps[i].name
  {
    seq(|reaps|, i requires 0 <= i < |reaps| => reaps[i].name)
  }

  /** Each cleanup is `reap_container` on its container, against the daemon's answers
      `reap(name)`. */
  predicate ReapsFollow(reaps: seq<Reap>, reap: string -> DockerContainer.ReapOracle) {
    forall i | 0 <= i < |reaps| ::
      reaps[i].effect == DockerContainer.ReapContainer(reaps[i].name, reap(reaps[i].name))
  }

  /** Reaping one more container, not reaped before, adds its name once to those reaped. */
  lemma ReapOneMore(reaps: seq<Reap>, done: set<string>, r: Reap)
    requires multiset(ReapedNames(reaps)) == multiset(done) && r.name !in done
    ensures multiset(ReapedNames(reaps + [r])) == multiset(done + {r.name})
  {
    assert ReapedNames(reaps + [r]) == ReapedNames(reaps) + [r.name];
    assert multiset(done + {r.name}) == multiset(done) + multiset{r.name};
  }

  /** The cleanup of `Trick::run`: `reap_container` runs once on every collected container,
      in some order; a failed reap is ignored and the others still run. */
  method ReapAll(containers: set<string>, reap: string -> DockerContainer.ReapOracle)
    returns (reaps: seq<Reap>)
    ensures multiset(ReapedNames(reaps)) == multiset(containers)
    ensures ReapsFollow(reaps, reap)
  {
    var remaining := containers;
    var done: set<string> := {};
    reaps := [];
    while remaining != {}
      invariant remaining + done == containers && remaining !! done
      invariant multiset(ReapedNames(reaps)) == multiset(done)
      invariant ReapsFollow(reaps, reap)
      decreases |remaining|
    {
      var id :| id in remaining;
      var effect := DockerContainer.ReapContainer(id, reap(id));
      ReapOneMore(reaps, done, Reap(id, effect));
      reaps := reaps + [Reap(id, effect)];
      done := done + {id};
      remaining := remaining - {id};
    }
  }

  /** `Trick::run`. The world answers the `i`th step as `env(i)`, the system information
      probes as `sys`, and the reap of container `name` as `reap(name)`. The report holds
      the name, the system information, a report per step run and the final status; every
      collected container is reaped exactly once, whatever the reaps answer. */
  method Run(trick: Trick, env: nat -> StepEnv, sys: System, reap: string -> DockerContainer.ReapOracle)
    returns (report: TrickReport, reaps: seq<Reap>)
    ensures report.name == trick.name
    ensures report.systemInfo == Populate(sys)
    ensures report.steps == Execute(trick.steps, env).reports
    ensures report.status == Execute(trick.steps, env).status
    ensures multiset(ReapedNames(reaps)) == multiset(Execute(trick.steps, env).containers)
    ensures ReapsFollow(reaps, reap)
  {
    report := NewTrickReport(trick.name);
    report := SetSystemInfo(report, sys);
    var reports, status, containers := RunSteps(trick.steps, env);
    report := report.(steps := reports);
    report := SetStatus(report, status);
    reaps := ReapAll(containers, reap);
  }
}
