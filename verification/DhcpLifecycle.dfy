/**
 The life of the dhcpd process (pkg/dhcpserver/server.go and the restart decision of
 pkg/dhcpserver/monitor.go) as steps of a concurrent system: Start and Stop under the mutex, the launch
 goroutines, the process itself, the monitor's reads without the mutex, and the shutdown path. A signal
 fails only on a process that was waited for; the launch part and the exit part of the goroutine are one
 step each. The goroutine reads s.cmd and s.waitDone when it uses them, so a goroutine that has not run
 yet is just a count.
 */
module DhcpLifecycle {
  import opened GoStrings

  // An exec.Cmd: not started (Process nil), running, exited, exited and waited for
  datatype Proc = Fresh | Live | Dead | Done

  datatype Actor = Monitor | Shutdown

  // Who holds the mutex inside Stop, after SIGTERM or after SIGKILL, for which command
  datatype Stopping = Free | Terminating(who: Actor, target: nat) | Killing(who: Actor, target: nat)

  // Where the monitor is: not started (main is before its first Start), waiting for the ticker, past the read
  // `s.cmd == nil`, past the read `s.cmd.Process == nil`, about to call Stop or inside it, about to call Start
  datatype Place = Unborn | Asleep | Looked | Probing | Due | Starting

  datatype Agent = Up | Panicked | Exited

  // cmd, waitDone and monitorStarted are the fields; `waiters` are the commands some goroutine waits for.
  datatype State = State(
    procs: seq<Proc>, cmd: Option<nat>, waitDone: nat, closed: set<nat>, pending: nat, waiters: set<nat>,
    stopping: Stopping, monitorStarted: bool, monitor: Place, agent: Agent)

  const BOOT := State([], None, 0, {}, 0, {}, Free, false, Unborn, Up)

  datatype Step =
    | Look                       // the monitor reads s.cmd == nil
    | LookProcess                // it reads s.cmd again, for s.cmd.Process == nil
    | Probe(changed: bool)       // it reads s.cmd again, sends signal 0 and, if that works, asks for changed bindings
    | StopNotRunning(who: Actor) // cmd or its Process is nil: returns nil
    | StopGone(who: Actor)       // SIGTERM and SIGKILL both fail: returns the error
    | StopTerm(who: Actor)       // SIGTERM delivered, now waiting
    | StopSeen                   // waitDone closed: returns nil
    | StopTimeout                // ten seconds passed: SIGKILL, which may fail
    | StopKilled                 // waitDone closed after SIGKILL: returns nil
    | StartFails(late: bool)     // an error before or after the new command is stored
    | StartWorks
    | Launch(works: bool)        // a goroutine runs s.cmd.Start()
    | Exits(p: nat)              // the process ends
    | Reaps(p: nat)              // its goroutine's Wait returns and the channel is closed

  predicate HasProcess(s: State) {
    s.cmd.Some? && s.cmd.value < |s.procs| && !s.procs[s.cmd.value].Fresh?
  }

  // Signal 0 reaches the process, which may be dead but not waited for
  predicate Answers(s: State) {
    HasProcess(s) && !s.procs[s.cmd.value].Done?
  }

  // Main calls Stop at shutdown, after its Start returned.
  predicate MayStop(s: State, who: Actor) {
    s.stopping.Free? && if who == Monitor then s.monitor.Due? else s.monitorStarted
  }

  predicate MayStart(s: State) {
    s.stopping.Free? && (s.monitor.Unborn? || s.monitor.Starting?)
  }

  predicate Enabled(s: State, step: Step) {
    s.agent.Up? &&
    match step
    case Look => s.monitor.Asleep?
    case LookProcess => s.monitor.Looked?
    case Probe(changed) => s.monitor.Probing? && (changed ==> Answers(s))
    case StopNotRunning(who) => MayStop(s, who) && !HasProcess(s)
    case StopGone(who) => MayStop(s, who) && HasProcess(s) && s.procs[s.cmd.value].Done?
    case StopTerm(who) => MayStop(s, who) && Answers(s)
    case StopSeen => s.stopping.Terminating? && s.waitDone in s.closed
    case StopTimeout => s.stopping.Terminating? && s.stopping.target < |s.procs|
    case StopKilled => s.stopping.Killing? && s.waitDone in s.closed
    case StartFails(_) => MayStart(s)
    case StartWorks => MayStart(s)
    case Launch(_) => s.pending > 0
    case Exits(p) => p < |s.procs| && s.procs[p].Live?
    case Reaps(p) => p < |s.procs| && p in s.waiters && s.procs[p].Dead?
  }

  // close(s.waitDone): closing a closed channel panics
  function Close(s: State): State {
    if s.waitDone in s.closed then s.(agent := Panicked) else s.(closed := s.closed + {s.waitDone})
  }

  // Stop has returned: the monitor goes on to Start
  function Returned(s: State, who: Actor): State {
    s.(stopping := Free, monitor := if who == Monitor then Starting else s.monitor)
  }

  function NewChannel(s: State): State { s.(waitDone := s.waitDone + 1) }

  function NewCommand(s: State): State { s.(procs := s.procs + [Fresh], cmd := Some(|s.procs|)) }

  // Start has failed: main exits, the monitor goes on
  function StartFailed(s: State): State {
    if s.monitor.Unborn? then s.(agent := Exited) else s.(monitor := Asleep)
  }

  function Launched(s: State, works: bool): State
    requires s.pending > 0
  {
    var t := s.(pending := s.pending - 1);
    if s.cmd.None? then t.(agent := Panicked)
    else if s.cmd.value < |s.procs| && s.procs[s.cmd.value].Fresh? && works then
      t.(procs := s.procs[s.cmd.value := Live], waiters := s.waiters + {s.cmd.value})
    else Close(t)
  }

  function Next(s: State, step: Step): State
    requires Enabled(s, step)
  {
    match step
    case Look => s.(monitor := if s.cmd.None? then Due else Looked)
    case LookProcess =>
      if s.cmd.None? then s.(agent := Panicked) else s.(monitor := if HasProcess(s) then Probing else Due)
    case Probe(changed) =>
      if !HasProcess(s) then s.(agent := Panicked)
      else s.(monitor := if changed || !Answers(s) then Due else Asleep)
    case StopNotRunning(who) => Returned(s, who)
    case StopGone(who) => Returned(s, who)
    case StopTerm(who) => s.(stopping := Terminating(who, s.cmd.value))
    case StopSeen => Returned(s.(cmd := None), s.stopping.who)
    case StopTimeout =>
      if s.procs[s.stopping.target].Done? then Returned(s, s.stopping.who)
      else s.(stopping := Killing(s.stopping.who, s.stopping.target))
    case StopKilled => Returned(s.(cmd := None), s.stopping.who)
    case StartFails(late) =>
      var t := NewChannel(s);
      StartFailed(if late then NewCommand(t) else t)
    case StartWorks => NewCommand(NewChannel(s)).(pending := s.pending + 1, monitorStarted := true, monitor := Asleep)
    case Launch(works) => Launched(s, works)
    case Exits(p) => s.(procs := s.procs[p := Dead])
    case Reaps(p) => Close(s.(procs := s.procs[p := Done], waiters := s.waiters - {p}))
  }

  // ---- Properties ----------------------------------------------------------------------

  ghost predicate AtMostOneLive(s: State) {
    forall p, q :: 0 <= p < |s.procs| && 0 <= q < |s.procs| && s.procs[p].Live? && s.procs[q].Live? ==> p == q
  }

  ghost predicate NoneLive(s: State) {
    forall p :: 0 <= p < |s.procs| ==> !s.procs[p].Live?
  }

  // A Stop that returns nil
  predicate ReturnsNil(step: Step) {
    step.StopNotRunning? || step.StopSeen? || step.StopKilled?
  }

  // The monitor has found s.cmd set and is going to read it again.
  predicate Reading(s: State) { s.monitor.Looked? || s.monitor.Probing? }

  // The monitor calls Stop only after the last launch goroutine has run, and no Stop clears s.cmd between the
  // monitor's reads of it.
  predicate Prompt(s: State, step: Step) {
    && ((step.StopNotRunning? || step.StopGone? || step.StopTerm?) && step.who == Monitor ==> s.pending == 0)
    && (step.StopSeen? || step.StopKilled? ==> !Reading(s))
  }

  // ---- The invariant ----------------------------------------------------------------------

  ghost predicate Inv(s: State) {
    && !s.agent.Panicked? && s.pending <= 1
    && (forall c :: c in s.closed ==> c <= s.waitDone)
    && (s.cmd.Some? ==> s.cmd.value < |s.procs|)
    && (forall p :: p in s.waiters <==> 0 <= p < |s.procs| && (s.procs[p].Live? || s.procs[p].Dead?))
    && (forall p :: p in s.waiters ==> s.cmd == Some(p))
    && (s.waiters != {} ==> s.pending == 0 && s.waitDone !in s.closed)
    && (s.pending == 1 ==> s.cmd.Some? && s.procs[s.cmd.value].Fresh? && s.waitDone !in s.closed)
    && (!s.stopping.Free? ==>
          s.cmd == Some(s.stopping.target) && s.pending == 0 && !s.procs[s.stopping.target].Fresh?
          && (s.stopping.who == Monitor ==> s.monitor.Due?))
    && MonitorInv(s)
  }

  ghost predicate MonitorInv(s: State) {
    && (s.monitorStarted <==> !s.monitor.Unborn?)
    && (s.monitor.Unborn? || s.monitor.Starting? ==> s.pending == 0 && s.waiters == {} && s.stopping.Free?)
    && (s.monitor.Looked? ==> s.cmd.Some?)
    && (s.monitor.Probing? ==> HasProcess(s))
  }

  // Every prompt step keeps the invariant, and a Stop that returns nil leaves no process alive.
  lemma StepKeepsInv(s: State, step: Step)
    requires Inv(s) && Enabled(s, step) && Prompt(s, step)
    ensures Inv(Next(s, step))
    ensures ReturnsNil(step) ==> NoneLive(Next(s, step))
  {
  }

  // ---- Runs -----------------------------------------------------------------------------------

  ghost predicate Run(s: State, steps: seq<Step>)
    decreases steps
  {
    steps == [] || (Enabled(s, steps[0]) && Run(Next(s, steps[0]), steps[1..]))
  }

  ghost predicate PromptRun(s: State, steps: seq<Step>): (r: bool)
    ensures r ==> Run(s, steps)
    decreases steps
  {
    steps == [] || (Enabled(s, steps[0]) && Prompt(s, steps[0]) && PromptRun(Next(s, steps[0]), steps[1..]))
  }

  ghost function After(s: State, steps: seq<Step>): State
    requires Run(s, steps)
    decreases steps
  {
    if steps == [] then s else After(Next(s, steps[0]), steps[1..])
  }

  // After these steps at most one process lives, the agent has not panicked, and if the last step was a Stop
  // returning nil no process lives.
  ghost predicate Sound(s: State, steps: seq<Step>)
    requires Run(s, steps)
  {
    var t := After(s, steps);
    AtMostOneLive(t) && !t.agent.Panicked? && (steps != [] && ReturnsNil(steps[|steps| - 1]) ==> NoneLive(t))
  }

  // Every prompt continuation is sound.
  ghost predicate Safe(s: State) {
    forall steps :: PromptRun(s, steps) ==> Sound(s, steps)
  }

  lemma {:induction false} RunKeepsInv(s: State, steps: seq<Step>)
    requires Inv(s) && PromptRun(s, steps)
    ensures Inv(After(s, steps)) && Sound(s, steps)
    decreases steps
  {
    if steps != [] {
      StepKeepsInv(s, steps[0]);
      RunKeepsInv(Next(s, steps[0]), steps[1..]);
    }
  }

  lemma InvIsSafe(s: State)
    requires Inv(s)
    ensures Safe(s)
  {
    forall steps | PromptRun(s, steps) ensures Sound(s, steps) {
      RunKeepsInv(s, steps);
    }
  }

  // From the start of the agent, every prompt run is safe.
  lemma BootIsSafe()
    ensures Safe(BOOT)
  {
    InvIsSafe(BOOT);
  }

  // A run of given steps, one by one
  lemma {:induction false} RunCons(s: State, step: Step, rest: seq<Step>)
    requires Enabled(s, step) && Run(Next(s, step), rest)
    ensures Run(s, [step] + rest) && After(s, [step] + rest) == After(Next(s, step), rest)
    ensures Prompt(s, step) && PromptRun(Next(s, step), rest) ==> PromptRun(s, [step] + rest)
  {
    assert ([step] + rest)[1..] == rest;
  }

  // ---- The launch that comes late -----------------------------------------------------------

  // The steps by which a Stop that overlooked a pending launch ends in two live processes: the old goroutine starts
  // the new command, the new goroutine fails to and closes the channel of the running process, and a restart for
  // changed bindings takes that process for finished.
  const OVERLOOKED := [StartWorks] + ([Launch(true)] + ([Launch(true)] + FALSELY_FINISHED))
  const FALSELY_FINISHED :=
    [Look] + ([LookProcess] + ([Probe(true)]
    + ([StopTerm(Monitor)] + ([StopSeen] + ([StartWorks] + ([Launch(true)] + []))))))

  lemma OverlookedLaunch(s: State)
    requires Inv(s) && Enabled(s, StopNotRunning(Monitor)) && s.pending == 1
    ensures var t := Next(s, StopNotRunning(Monitor)); PromptRun(t, OVERLOOKED) && !AtMostOneLive(After(t, OVERLOOKED))
  {
    var n := |s.procs|;
    var t0 := Next(s, StopNotRunning(Monitor));
    var t1 := Next(t0, StartWorks);
    var t2 := Next(t1, Launch(true));
    assert t2.procs[n].Live? && t2.pending == 1;
    var t3 := Next(t2, Launch(true));
    assert t3.waitDone in t3.closed && t3.pending == 0;
    FalselyFinished(t3);
    RunCons(t2, Launch(true), FALSELY_FINISHED);
    RunCons(t1, Launch(true), [Launch(true)] + FALSELY_FINISHED);
    RunCons(t0, StartWorks, [Launch(true)] + ([Launch(true)] + FALSELY_FINISHED));
  }

  // Two other ends of such a Stop: when the process ends, its channel is closed a second time; or a shutdown clears the
  // command before the second goroutine has run, which then dereferences nil.
  lemma OverlookedLaunchPanics(s: State)
    requires Inv(s) && Enabled(s, StopNotRunning(Monitor)) && s.pending == 1
    ensures var t, n := Next(s, StopNotRunning(Monitor)), |s.procs|;
      var twice := [StartWorks] + ([Launch(true)] + ([Launch(true)] + ([Exits(n)] + ([Reaps(n)] + []))));
      var gone := [StartWorks] + ([Launch(true)] + ([StopTerm(Shutdown)] + ([Exits(n)] + ([Reaps(n)] + ([StopSeen]
                  + ([Launch(true)] + []))))));
      && Run(t, twice) && After(t, twice).agent.Panicked?
      && Run(t, gone) && After(t, gone).agent.Panicked?
  {
    var n := |s.procs|;
    var t0 := Next(s, StopNotRunning(Monitor));
    var t1 := Next(t0, StartWorks);
    var t2 := Next(t1, Launch(true));
    assert t2.procs[n].Live? && t2.pending == 1 && t2.cmd == Some(n) && n in t2.waiters && t2.waitDone !in t2.closed;
    ClosedTwice(t2, n);
    ClearedBeforeLaunch(t2, n);
    var twice := [Launch(true)] + ([Exits(n)] + ([Reaps(n)] + []));
    RunCons(t1, Launch(true), twice);
    RunCons(t0, StartWorks, [Launch(true)] + twice);
    var gone := [StopTerm(Shutdown)] + ([Exits(n)] + ([Reaps(n)] + ([StopSeen] + ([Launch(true)] + []))));
    RunCons(t1, Launch(true), gone);
    RunCons(t0, StartWorks, [Launch(true)] + gone);
  }

  lemma ClosedTwice(s: State, n: nat)
    requires s.agent.Up? && s.pending == 1 && n < |s.procs| && s.procs[n].Live? && n in s.waiters && s.cmd == Some(n)
    requires s.waitDone !in s.closed
    ensures var steps := [Launch(true)] + ([Exits(n)] + ([Reaps(n)] + []));
      Run(s, steps) && After(s, steps).agent.Panicked?
  {
    var s1 := Next(s, Launch(true));
    var s2 := Next(s1, Exits(n));
    RunCons(s2, Reaps(n), []);
    RunCons(s1, Exits(n), [Reaps(n)] + []);
    RunCons(s, Launch(true), [Exits(n)] + ([Reaps(n)] + []));
  }

  lemma ClearedBeforeLaunch(s: State, n: nat)
    requires s.agent.Up? && s.pending == 1 && n < |s.procs| && s.procs[n].Live? && n in s.waiters && s.cmd == Some(n)
    requires s.waitDone !in s.closed && s.stopping.Free? && s.monitorStarted
    ensures var steps := [StopTerm(Shutdown)] + ([Exits(n)] + ([Reaps(n)] + ([StopSeen] + ([Launch(true)] + []))));
      Run(s, steps) && After(s, steps).agent.Panicked?
  {
    var s1 := Next(s, StopTerm(Shutdown));
    var s2 := Next(s1, Exits(n));
    var s3 := Next(s2, Reaps(n));
    var s4 := Next(s3, StopSeen);
    RunCons(s4, Launch(true), []);
    RunCons(s3, StopSeen, [Launch(true)] + []);
    RunCons(s2, Reaps(n), [StopSeen] + ([Launch(true)] + []));
    RunCons(s1, Exits(n), [Reaps(n)] + ([StopSeen] + ([Launch(true)] + [])));
    RunCons(s, StopTerm(Shutdown), [Exits(n)] + ([Reaps(n)] + ([StopSeen] + ([Launch(true)] + []))));
  }

  // A live process whose channel is closed already is taken for finished by the next restart.
  lemma FalselyFinished(s: State)
    requires s.agent.Up? && s.monitor.Asleep? && s.stopping.Free? && s.pending == 0 && s.waitDone in s.closed
    requires HasProcess(s) && s.procs[s.cmd.value].Live?
    ensures PromptRun(s, FALSELY_FINISHED) && !AtMostOneLive(After(s, FALSELY_FINISHED))
  {
    var s1 := s.(monitor := Due);
    var s2 := Next(s1, StopTerm(Monitor));
    var s3 := Next(s2, StopSeen);
    TwoLive(s3, s.cmd.value);
    var rest := [StartWorks] + ([Launch(true)] + []);
    RunCons(s2, StopSeen, rest);
    RunCons(s1, StopTerm(Monitor), [StopSeen] + rest);
    TickThenRestart(s, [StopTerm(Monitor)] + ([StopSeen] + rest));
  }

  // The monitor's test of an answering process whose bindings changed
  lemma TickThenRestart(s: State, rest: seq<Step>)
    requires s.agent.Up? && s.monitor.Asleep? && Answers(s) && PromptRun(s.(monitor := Due), rest)
    ensures var steps := [Look] + ([LookProcess] + ([Probe(true)] + rest));
      PromptRun(s, steps) && After(s, steps) == After(s.(monitor := Due), rest)
  {
    var s1 := Next(s, Look);
    var s2 := Next(s1, LookProcess);
    RunCons(s2, Probe(true), rest);
    RunCons(s1, LookProcess, [Probe(true)] + rest);
    RunCons(s, Look, [LookProcess] + ([Probe(true)] + rest));
  }

  lemma TwoLive(s: State, n: nat)
    requires s.agent.Up? && s.monitor.Starting? && s.stopping.Free? && s.pending == 0
    requires n < |s.procs| && s.procs[n].Live?
    ensures var steps := [StartWorks] + ([Launch(true)] + []); PromptRun(s, steps) && !AtMostOneLive(After(s, steps))
  {
    var t := Next(s, StartWorks);
    var u := Next(t, Launch(true));
    assert u.procs[n].Live? && u.procs[|s.procs|].Live?;
    RunCons(t, Launch(true), []);
    RunCons(s, StartWorks, [Launch(true)] + []);
  }

  // A Stop that clears s.cmd between the monitor's reads makes the next read dereference nil.
  lemma NextReadPanics(s: State)
    requires s.agent.Up? && s.cmd.None? && Reading(s)
    ensures var steps := [if s.monitor.Looked? then LookProcess else Probe(false)] + [];
      PromptRun(s, steps) && After(s, steps).agent.Panicked?
  {
    RunCons(s, if s.monitor.Looked? then LookProcess else Probe(false), []);
  }

  // A step is safe exactly when it is prompt: it is not the monitor's Stop before a pending launch, and not the end of
  // a Stop between the monitor's reads.
  lemma StepIsSafeIff(s: State, step: Step)
    requires Inv(s) && Enabled(s, step)
    ensures Safe(Next(s, step)) <==> Prompt(s, step)
  {
    var t := Next(s, step);
    if Prompt(s, step) {
      StepKeepsInv(s, step);
      InvIsSafe(t);
    } else if step.StopNotRunning? {
      OverlookedLaunch(s);
      assert !Sound(t, OVERLOOKED);
    } else {
      NextReadPanics(t);
      assert !Sound(t, [if t.monitor.Looked? then LookProcess else Probe(false)] + []);
    }
  }

  // Both failures come about from the start of the agent: a first launch that has not run when the monitor looks, and
  // a shutdown between the monitor's reads.
  const LATE_LAUNCH := [StartWorks] + ([Look] + ([LookProcess] + ([StopNotRunning(Monitor)] + OVERLOOKED)))
  const SHUTDOWN_BETWEEN_READS :=
    [StartWorks] + ([Launch(true)] + ([Look] + ([LookProcess] + ([StopTerm(Shutdown)] + ([Exits(0)] + ([Reaps(0)]
    + ([StopSeen] + ([Probe(false)] + []))))))))

  lemma LateLaunchFromBoot()
    ensures Run(BOOT, LATE_LAUNCH) && !AtMostOneLive(After(BOOT, LATE_LAUNCH))
  {
    var s1 := Next(BOOT, StartWorks);
    StepKeepsInv(BOOT, StartWorks);
    var s2 := Next(s1, Look);
    StepKeepsInv(s1, Look);
    var s3 := Next(s2, LookProcess);
    StepKeepsInv(s2, LookProcess);
    OverlookedLaunch(s3);
    RunCons(s3, StopNotRunning(Monitor), OVERLOOKED);
    RunCons(s2, LookProcess, [StopNotRunning(Monitor)] + OVERLOOKED);
    RunCons(s1, Look, [LookProcess] + ([StopNotRunning(Monitor)] + OVERLOOKED));
    RunCons(BOOT, StartWorks, [Look] + ([LookProcess] + ([StopNotRunning(Monitor)] + OVERLOOKED)));
  }

  // The only process, probed by the monitor, is stopped and ends.
  lemma StoppedWhileProbed(s: State)
    requires s.agent.Up? && s.monitor.Probing? && s.monitorStarted && s.stopping.Free? && s.procs == [Live]
    requires s.cmd == Some(0) && s.waiters == {0} && s.waitDone !in s.closed
    ensures var steps :=
        [StopTerm(Shutdown)] + ([Exits(0)] + ([Reaps(0)] + ([StopSeen] + ([Probe(false)] + []))));
      Run(s, steps) && After(s, steps).agent.Panicked?
  {
    var s1 := Next(s, StopTerm(Shutdown));
    var s2 := Next(s1, Exits(0));
    var s3 := Next(s2, Reaps(0));
    var s4 := Next(s3, StopSeen);
    NextReadPanics(s4);
    var rest := [Probe(false)] + [];
    RunCons(s3, StopSeen, rest);
    RunCons(s2, Reaps(0), [StopSeen] + rest);
    RunCons(s1, Exits(0), [Reaps(0)] + ([StopSeen] + rest));
    RunCons(s, StopTerm(Shutdown), [Exits(0)] + ([Reaps(0)] + ([StopSeen] + rest)));
  }

  lemma ShutdownBetweenReads()
    ensures Run(BOOT, SHUTDOWN_BETWEEN_READS) && After(BOOT, SHUTDOWN_BETWEEN_READS).agent.Panicked?
  {
    var s1 := Next(BOOT, StartWorks);
    var s2 := Next(s1, Launch(true));
    var s3 := Next(s2, Look);
    var s4 := Next(s3, LookProcess);
    StoppedWhileProbed(s4);
    var rest := [StopTerm(Shutdown)] + ([Exits(0)] + ([Reaps(0)] + ([StopSeen] + ([Probe(false)] + []))));
    RunCons(s3, LookProcess, rest);
    RunCons(s2, Look, [LookProcess] + rest);
    RunCons(s1, Launch(true), [Look] + ([LookProcess] + rest));
    RunCons(BOOT, StartWorks, [Launch(true)] + ([Look] + ([LookProcess] + rest)));
  }

  // ---- Restarts -----------------------------------------------------------------------------

  // No process, none to come, and nobody inside Stop: the server is down.
  ghost predicate Down(s: State) {
    Inv(s) && s.agent.Up? && s.monitorStarted && s.waiters == {} && s.pending == 0 && s.stopping.Free?
  }

  predicate IsStart(step: Step) { step.StartWorks? || step.StartFails? }

  // Steps of the monitor other than Start
  predicate OfMonitor(step: Step) {
    step.Look? || step.LookProcess? || step.Probe?
    || ((step.StopNotRunning? || step.StopGone? || step.StopTerm?) && step.who == Monitor)
  }

  function MonitorSteps(steps: seq<Step>): seq<Step>
    decreases steps
  {
    if steps == [] then [] else (if OfMonitor(steps[0]) then [steps[0]] else []) + MonitorSteps(steps[1..])
  }

  // What the monitor still does before it calls Start: its reads find the server down, and its Stop signals nothing.
  function Remaining(s: State): seq<Step> {
    var stop := [if HasProcess(s) then StopGone(Monitor) else StopNotRunning(Monitor)];
    var probe := if HasProcess(s) then [Probe(false)] + stop else stop;
    match s.monitor
    case Asleep => [Look] + if s.cmd.None? then stop else [LookProcess] + probe
    case Looked => [LookProcess] + probe
    case Probing => probe
    case Due => stop
    case _ => []
  }

  lemma DownStep(s: State, step: Step)
    requires Down(s) && Enabled(s, step) && !IsStart(step)
    ensures Down(Next(s, step)) && Next(s, step).procs == s.procs
    ensures if OfMonitor(step) then Remaining(s) == [step] + Remaining(Next(s, step))
            else Remaining(Next(s, step)) == Remaining(s)
  {
    StepKeepsInv(s, step);
  }

  lemma DownOffers(s: State)
    requires Down(s)
    ensures if Remaining(s) == [] then MayStart(s) else Enabled(s, Remaining(s)[0])
  {
  }

  lemma DownHasNoneLive(s: State)
    requires Down(s)
    ensures NoneLive(s)
  {
  }

  lemma {:induction false} DownRun(s: State, steps: seq<Step>)
    requires Down(s) && Run(s, steps) && forall i :: 0 <= i < |steps| ==> !IsStart(steps[i])
    ensures Down(After(s, steps)) && Remaining(s) == MonitorSteps(steps) + Remaining(After(s, steps))
    decreases steps
  {
    if steps != [] {
      var next, step, rest := Next(s, steps[0]), steps[0], steps[1..];
      assert Down(next) && Remaining(s) == (if OfMonitor(step) then [step] else []) + Remaining(next) by {
        DownStep(s, step);
      }
      assert forall i :: 0 <= i < |rest| ==> rest[i] == steps[i + 1];
      DownRun(next, rest);
    }
  }

  // In every interleaving up to the next Start no process appears, and the monitor does what `Remaining` lists, in
  // order, always able to do the next thing, and then may call Start.
  ghost predicate IsRestarted(s: State) {
    forall steps :: Run(s, steps) && (forall i :: 0 <= i < |steps| ==> !IsStart(steps[i])) ==>
      var t := After(s, steps);
      && NoneLive(t)
      && Remaining(s) == MonitorSteps(steps) + Remaining(t)
      && if Remaining(t) == [] then MayStart(t) else Enabled(t, Remaining(t)[0])
  }

  lemma DownIsRestarted(s: State)
    requires Down(s)
    ensures IsRestarted(s)
  {
    forall steps | Run(s, steps) && (forall i :: 0 <= i < |steps| ==> !IsStart(steps[i]))
      ensures var t := After(s, steps);
        && NoneLive(t)
        && Remaining(s) == MonitorSteps(steps) + Remaining(t)
        && if Remaining(t) == [] then MayStart(t) else Enabled(t, Remaining(t)[0])
    {
      DownRun(s, steps);
      DownOffers(After(s, steps));
      DownHasNoneLive(After(s, steps));
    }
  }

  // The monitor's failed Start is followed by a whole test that asks for a restart, a Stop that signals nothing, and
  // Start again; main's failed Start ends the agent.
  lemma FailedStartIsRetried(s: State, late: bool)
    requires Inv(s) && Enabled(s, StartFails(late))
    ensures var t := Next(s, StartFails(late));
      if s.monitor.Unborn? then t.agent.Exited? && forall step :: !Enabled(t, step)
      else && t.monitor.Asleep? && IsRestarted(t)
           && (late ==> Remaining(t) == [Look, LookProcess, StopNotRunning(Monitor)])
           && (!late && s.cmd.None? ==> Remaining(t) == [Look, StopNotRunning(Monitor)])
  {
    StepKeepsInv(s, StartFails(late));
    if !s.monitor.Unborn? {
      DownIsRestarted(Next(s, StartFails(late)));
    }
  }

  // The monitor's reads, with nobody in between and unchanged bindings
  function Test(s: State): seq<Step> {
    [Look] + if s.cmd.None? then [] else [LookProcess] + if HasProcess(s) then [Probe(false)] + [] else []
  }

  // Its test asks for a restart exactly when no process is running or unreaped.
  lemma RestartIsDue(s: State)
    requires Inv(s) && s.agent.Up? && s.monitor.Asleep?
    ensures Run(s, Test(s)) && After(s, Test(s)) == s.(monitor := if s.waiters == {} then Due else Asleep)
  {
    var s1 := Next(s, Look);
    if s.cmd.Some? {
      var s2 := Next(s1, LookProcess);
      if HasProcess(s) {
        RunCons(s2, Probe(false), []);
        RunCons(s1, LookProcess, [Probe(false)] + []);
        RunCons(s, Look, [LookProcess] + ([Probe(false)] + []));
      } else {
        RunCons(s1, LookProcess, []);
        RunCons(s, Look, [LookProcess] + []);
      }
    } else {
      RunCons(s, Look, []);
    }
  }
}
