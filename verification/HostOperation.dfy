/**
 Execution of a HostOperation (pkg/agent/hostoperation/controller.go) over an optimistically versioned
 object: reads may be stale, any number of reconciles may be in flight, writes may conflict, be refused by
 the schema, or fail before or after they took effect. Nobody else updates the object: the webhook refuses
 updates (pkg/webhook/hostoperation/hostoperation_webhook.go), and status writes bypass it.
 */
module HostOperation {
  import opened GoStrings

  const PENDING := "pending"
  const SUCCESS := "success"
  const FAILED := "failed"

  datatype OpStatus = OpStatus(
    status: string, message: string, lastUpdateTime: string, clusterAgent: string, ipAddr: string)

  datatype HostOp = HostOp(action: string, hostStatusName: string, status: OpStatus)

  // The fields of the HostStatus that Reconcile reads
  datatype HostView = HostView(clusterAgent: string, ipAddr: string)

  // What Reconcile meets: the HostStatus read (None on an error), whether the cache has the connection data, the errors
  // of connecting and of the power call, and the clock
  datatype Outside = Outside(
    host: Option<HostView>, cached: bool, connectError: Option<string>, powerError: Option<string>, now: string)

  // What Reconcile does: nothing, return an error, ask to be called again, or write a status
  datatype Plan = Skip | Fails | Requeue | Write(op: HostOp, powered: bool)

  predicate IsOpen(status: string) { status == "" || status == PENDING }
  predicate IsTerminal(status: string) { status == SUCCESS || status == FAILED }

  predicate ValidAction(action: string) {
    action in ["On", "ForceOn", "ForceOff", "GracefulShutdown", "ForceRestart", "GracefulRestart", "PxeReboot"]
  }

  // Why the operation fails, if it does
  function Failure(op: HostOp, o: Outside): Option<string> {
    if o.connectError.Some? then o.connectError
    else if ValidAction(op.action) then o.powerError
    else Some("invalid action " + op.action)
  }

  function Decide(agent: string, op: HostOp, o: Outside): Plan {
    if o.host.None? then Fails
    else if o.host.value.clusterAgent != agent || !IsOpen(op.status.status) then Skip
    else if !o.cached then Requeue
    else
      var f := Failure(op, o);
      var status := OpStatus(if f.Some? then FAILED else SUCCESS, if f.Some? then f.value else op.status.message,
                             o.now, agent, o.host.value.ipAddr);
      Write(op.(status := status), o.connectError.None? && ValidAction(op.action))
  }

  // Reconcile up to the status write, from the operation as read
  method Reconcile(agent: string, read: HostOp, o: Outside) returns (plan: Plan)
    ensures plan == Decide(agent, read, o)
  {
    if o.host.None? {
      return Fails;
    }
    var hostStatus := o.host.value;
    if hostStatus.clusterAgent != agent {
      return Skip;
    }
    if read.status.status == "" || read.status.status == PENDING {
      var status := read.status.(status := PENDING, lastUpdateTime := o.now, clusterAgent := agent,
                                 ipAddr := hostStatus.ipAddr);
      if !o.cached {
        return Requeue;
      }
      var err: Option<string> := None;
      var powered := false;
      if o.connectError.Some? {
        err := o.connectError;
      } else {
        if ValidAction(read.action) {
          powered := true;
          err := o.powerError;
        } else {
          err := Some("invalid action " + read.action);
        }
      }
      if err.Some? {
        status := status.(status := FAILED, message := err.value);
      } else {
        status := status.(status := SUCCESS);
      }
      return Write(read.(status := status), powered);
    }
    return Skip;
  }

  // ---- The system ---------------------------------------------------------------------

  // A reconcile between its power call and its status write; `version` is that of the object it read
  datatype Job = Job(agent: string, version: nat, op: HostOp)

  // All versions of the object so far, the jobs in flight, the agents that are to reconcile again, and what happened
  datatype World = World(
    history: seq<HostOp>, jobs: seq<Job>, due: set<string>, powerCalls: nat, okWrites: nat, failedWrites: nat)

  // The answer of the API server to a write: served, or an error without or in spite of an effect
  datatype Answer = Served | ErrorNoEffect | ErrorAfterEffect

  datatype Move = Begin(agent: string, seen: nat, outside: Outside) | Commit(i: nat, answer: Answer)

  predicate Enabled(w: World, m: Move) {
    match m
    case Begin(_, seen, _) => seen < |w.history|
    case Commit(i, _) => i < |w.jobs|
  }

  // The server takes a write of the current version whose status the schema knows.
  predicate Accepts(enum: set<string>, w: World, j: Job) {
    j.version + 1 == |w.history| && j.op.status.status in enum
  }

  // A reconcile takes its agent off the list of those due; one that asks for it or returns an error puts it back.
  function Next(enum: set<string>, w: World, m: Move): World
    requires Enabled(w, m)
  {
    match m
    case Begin(agent, seen, o) =>
      var rest := w.due - {agent};
      (match Decide(agent, w.history[seen], o)
       case Write(op, powered) =>
         w.(jobs := w.jobs + [Job(agent, seen, op)], due := rest,
            powerCalls := w.powerCalls + if powered then 1 else 0)
       case Requeue => w.(due := rest + {agent})
       case Fails => w.(due := rest + {agent})
       case Skip => w.(due := rest))
    case Commit(i, answer) =>
      var j := w.jobs[i];
      var effect := answer != ErrorNoEffect && Accepts(enum, w, j);
      var ok := answer == Served && effect;
      World(if effect then w.history + [j.op] else w.history, w.jobs[..i] + w.jobs[i + 1..],
            if ok then w.due else w.due + {j.agent}, w.powerCalls,
            w.okWrites + (if ok then 1 else 0), w.failedWrites + (if ok then 0 else 1))
  }

  function Created(op: HostOp): World { World([op], [], {}, 0, 0, 0) }

  ghost predicate Run(enum: set<string>, w: World, moves: seq<Move>)
    decreases moves
  {
    moves == [] || (Enabled(w, moves[0]) && Run(enum, Next(enum, w, moves[0]), moves[1..]))
  }

  ghost function After(enum: set<string>, w: World, moves: seq<Move>): World
    requires Run(enum, w, moves)
    decreases moves
  {
    if moves == [] then w else After(enum, Next(enum, w, moves[0]), moves[1..])
  }

  // ---- The invariant ----------------------------------------------------------------------

  // The actions for which the power of a host is switched
  predicate SwitchesPower(action: string) {
    || action == "On" || action == "ForceOn" || action == "ForceOff" || action == "GracefulShutdown"
    || action == "ForceRestart" || action == "GracefulRestart" || action == "PxeReboot"
  }

  // The reconcile that decided a write: the HostStatus it read names its agent, and the write is the operation as
  // created with that agent's name, the host's address, the clock, and the outcome of connecting and of the power call.
  ghost predicate Decided(created: HostOp, m: Move, op: HostOp) {
    && m.Begin? && m.outside.host.Some? && m.outside.cached
    && m.agent == m.outside.host.value.clusterAgent == op.status.clusterAgent
    && op.action == created.action && op.hostStatusName == created.hostStatusName
    && op.status.ipAddr == m.outside.host.value.ipAddr && op.status.lastUpdateTime == m.outside.now
    && (op.status.status == "success" || op.status.status == "failed")
    && (op.status.status == "success" <==>
          m.outside.connectError.None? && SwitchesPower(created.action) && m.outside.powerError.None?)
    && (op.status.status == "success" ==> op.status.message == created.status.message)
    && (op.status.status == "failed" ==>
          op.status.message == (if m.outside.connectError.Some? then m.outside.connectError.value
                                else if SwitchesPower(created.action) then m.outside.powerError.value
                                else "invalid action " + created.action))
  }

  // Some move of the past decided it.
  ghost predicate Comes(created: HostOp, past: seq<Move>, op: HostOp) {
    exists i :: 0 <= i < |past| && Decided(created, past[i], op)
  }

  // The reconciles that call Power: those of the named agent that find the operation open, the host cached and
  // connected, and the action valid
  predicate Powers(created: HostOp, m: Move) {
    && m.Begin? && m.seen == 0 && m.outside.host.Some? && m.outside.host.value.clusterAgent == m.agent
    && m.outside.cached && m.outside.connectError.None? && SwitchesPower(created.action)
  }

  function PowerMoves(created: HostOp, past: seq<Move>): nat {
    if past == [] then 0
    else PowerMoves(created, past[..|past| - 1]) + if Powers(created, past[|past| - 1]) then 1 else 0
  }

  ghost predicate Inv(enum: set<string>, created: HostOp, past: seq<Move>, w: World) {
    && 1 <= |w.history| <= 2 && w.history[0] == created && IsOpen(created.status.status)
    && (|w.history| == 2 ==> Comes(created, past, w.history[1]) && w.history[1].status.status in enum)
    && (forall k :: 0 <= k < |w.jobs| ==> w.jobs[k].version == 0 && Comes(created, past, w.jobs[k].op))
    && w.okWrites <= |w.history| - 1
    && w.powerCalls == PowerMoves(created, past) && w.powerCalls <= w.okWrites + w.failedWrites + |w.jobs|
  }

  lemma ComesLater(created: HostOp, past: seq<Move>, m: Move, op: HostOp)
    ensures Comes(created, past, op) ==> Comes(created, past + [m], op)
    ensures Decided(created, m, op) ==> Comes(created, past + [m], op)
  {
    if i :| 0 <= i < |past| && Decided(created, past[i], op) {
      assert (past + [m])[i] == past[i];
    }
    if Decided(created, m, op) {
      assert (past + [m])[|past|] == m;
    }
  }

  lemma PowerSnoc(created: HostOp, past: seq<Move>, m: Move)
    ensures PowerMoves(created, past + [m]) == PowerMoves(created, past) + if Powers(created, m) then 1 else 0
  {
    assert (past + [m])[..|past|] == past;
  }

  lemma MoveKeepsInv(enum: set<string>, created: HostOp, past: seq<Move>, w: World, m: Move)
    requires Inv(enum, created, past, w) && Enabled(w, m)
    ensures Inv(enum, created, past + [m], Next(enum, w, m)) && w.history <= Next(enum, w, m).history
  {
    PowerSnoc(created, past, m);
    if m.Commit? {
      var rest := w.jobs[..m.i] + w.jobs[m.i + 1..];
      forall k | 0 <= k < |rest| ensures rest[k].version == 0 && Comes(created, past + [m], rest[k].op) {
        assert rest[k] == if k < m.i then w.jobs[k] else w.jobs[k + 1];
        ComesLater(created, past, m, rest[k].op);
      }
      ComesLater(created, past, m, w.jobs[m.i].op);
      ComesLater(created, past, m, w.history[|w.history| - 1]);
    } else {
      BeginKeepsInv(enum, created, past, w, m);
    }
  }

  lemma BeginKeepsInv(enum: set<string>, created: HostOp, past: seq<Move>, w: World, m: Move)
    requires Inv(enum, created, past, w) && m.Begin? && Enabled(w, m)
    ensures Inv(enum, created, past + [m], Next(enum, w, m)) && w.history == Next(enum, w, m).history
  {
    PowerSnoc(created, past, m);
    ComesLater(created, past, m, w.history[|w.history| - 1]);
    var jobs := Next(enum, w, m).jobs;
    forall k | 0 <= k < |jobs| ensures jobs[k].version == 0 && Comes(created, past + [m], jobs[k].op) {
      ComesLater(created, past, m, jobs[k].op);
      BeginDecides(enum, created, past, w, m);
    }
    BeginPowers(enum, created, past, w, m);
  }

  lemma BeginDecides(enum: set<string>, created: HostOp, past: seq<Move>, w: World, m: Move)
    requires Inv(enum, created, past, w) && m.Begin? && Enabled(w, m)
    ensures Next(enum, w, m).jobs == w.jobs
      || exists j :: Next(enum, w, m).jobs == w.jobs + [j] && j.version == 0 && Decided(created, m, j.op)
  {
    var jobs := Next(enum, w, m).jobs;
    if jobs != w.jobs {
      TerminalIsSeen(created, past, w.history[m.seen]);
      var j := jobs[|jobs| - 1];
      assert jobs == w.jobs + [j] && j.version == 0 && Decided(created, m, j.op);
    }
  }

  lemma TerminalIsSeen(created: HostOp, past: seq<Move>, op: HostOp)
    ensures Comes(created, past, op) ==> IsTerminal(op.status.status)
  {
  }

  lemma BeginPowers(enum: set<string>, created: HostOp, past: seq<Move>, w: World, m: Move)
    requires Inv(enum, created, past, w) && m.Begin? && Enabled(w, m)
    ensures Next(enum, w, m).powerCalls == w.powerCalls + if Powers(created, m) then 1 else 0
  {
    TerminalIsSeen(created, past, w.history[m.seen]);
  }

  // What every move keeps, every run keeps; `past` are the moves before.
  lemma {:induction false} RunInduction(enum: set<string>, p: (seq<Move>, World) -> bool, past: seq<Move>, w: World,
                                        moves: seq<Move>)
    requires forall ms, v, m :: p(ms, v) && Enabled(v, m) ==> p(ms + [m], Next(enum, v, m))
    requires p(past, w) && Run(enum, w, moves)
    ensures p(past + moves, After(enum, w, moves))
    decreases moves
  {
    if moves == [] {
      assert past + moves == past;
    } else {
      RunInduction(enum, p, past + [moves[0]], Next(enum, w, moves[0]), moves[1..]);
      assert past + [moves[0]] + moves[1..] == past + moves;
    }
  }

  lemma RunKeepsInv(enum: set<string>, created: HostOp, moves: seq<Move>)
    requires IsOpen(created.status.status) && Run(enum, Created(created), moves)
    ensures Inv(enum, created, moves, After(enum, Created(created), moves))
  {
    var p := (past: seq<Move>, w: World) => Inv(enum, created, past, w);
    forall past, w, m | p(past, w) && Enabled(w, m) ensures p(past + [m], Next(enum, w, m)) {
      MoveKeepsInv(enum, created, past, w, m);
    }
    RunInduction(enum, p, [], Created(created), moves);
    assert [] + moves == moves;
  }

  // In every run: the status stays as created or has moved once, to a terminal value the schema knows, by the write of
  // a reconcile in this run whose agent the HostStatus named; "success" is written exactly when connecting and the
  // power call of that reconcile succeeded; at most one write succeeds; power calls are those of the named agents'
  // reconciles, at most one plus the failed writes plus the reconciles still in flight.
  lemma OperationRunsSafely(enum: set<string>, created: HostOp, moves: seq<Move>)
    requires created.status.status == "" || created.status.status == "pending"
    requires Run(enum, Created(created), moves)
    ensures var w := After(enum, Created(created), moves);
      && (w.history == [created]
          || exists op, i :: w.history == [created, op] && op.status.status in enum
                             && 0 <= i < |moves| && Decided(created, moves[i], op))
      && w.okWrites <= 1
      && w.powerCalls == PowerMoves(created, moves) && w.powerCalls <= 1 + w.failedWrites + |w.jobs|
  {
    RunKeepsInv(enum, created, moves);
    var w := After(enum, Created(created), moves);
    if |w.history| == 2 {
      assert w.history == [created, w.history[1]];
    } else {
      assert w.history == [created];
    }
  }

  // ---- Other agents -------------------------------------------------------------------------

  // A reconcile by an agent the HostStatus does not name
  predicate Foreign(m: Move) {
    m.Begin? && m.outside.host.Some? && m.outside.host.value.clusterAgent != m.agent
  }

  function OwnMoves(moves: seq<Move>): seq<Move>
    decreases moves
  {
    if moves == [] then [] else (if Foreign(moves[0]) then [] else [moves[0]]) + OwnMoves(moves[1..])
  }

  // The same in all but who is due
  predicate SameWork(w: World, w': World) { w.(due := {}) == w'.(due := {}) }

  lemma {:induction false} SameWorkRuns(enum: set<string>, w: World, w': World, moves: seq<Move>)
    requires SameWork(w, w') && Run(enum, w, moves)
    ensures Run(enum, w', moves) && SameWork(After(enum, w, moves), After(enum, w', moves))
    decreases moves
  {
    if moves != [] {
      SameWorkRuns(enum, Next(enum, w, moves[0]), Next(enum, w', moves[0]), moves[1..]);
    }
  }

  // They make no difference: from any state, a run without them makes the same power calls and the same writes.
  lemma {:induction false} ForeignAgentsAreIdle(enum: set<string>, w: World, moves: seq<Move>)
    requires Run(enum, w, moves)
    ensures Run(enum, w, OwnMoves(moves)) && SameWork(After(enum, w, OwnMoves(moves)), After(enum, w, moves))
    decreases moves
  {
    if moves != [] {
      var next, own := Next(enum, w, moves[0]), OwnMoves(moves[1..]);
      ForeignAgentsAreIdle(enum, next, moves[1..]);
      if Foreign(moves[0]) {
        assert OwnMoves(moves) == own;
        SameWorkRuns(enum, next, w, own);
      } else {
        assert OwnMoves(moves)[0] == moves[0] && OwnMoves(moves)[1..] == own;
      }
    }
  }

  // ---- Nothing is forgotten ------------------------------------------------------------------

  // The agent's last reconcile in these moves
  function LastBegin(past: seq<Move>, agent: string): (r: Option<Move>)
    ensures r.Some? ==> r.value.Begin? && r.value.agent == agent
  {
    if past == [] then None
    else if past[|past| - 1].Begin? && past[|past| - 1].agent == agent then Some(past[|past| - 1])
    else LastBegin(past[..|past| - 1], agent)
  }

  // The agent's last reconcile found the agent named by the HostStatus, or could not read the HostStatus.
  predicate Concerned(past: seq<Move>, agent: string) {
    var m := LastBegin(past, agent);
    m.Some? && (m.value.outside.host.None? || m.value.outside.host.value.clusterAgent == agent)
  }

  // The agent has a write in flight or is to reconcile again.
  ghost predicate AtWork(w: World, agent: string) {
    agent in w.due || exists k :: 0 <= k < |w.jobs| && w.jobs[k].agent == agent
  }

  // The agent has a reason to come back: it could not read the HostStatus, or found the open operation its own.
  predicate IsReason(m: Move, agent: string) {
    && m.Begin? && m.agent == agent
    && (m.outside.host.None? || (m.outside.host.value.clusterAgent == agent && m.seen == 0))
  }

  ghost predicate HadReason(past: seq<Move>, agent: string) {
    exists i :: 0 <= i < |past| && IsReason(past[i], agent)
  }

  ghost predicate NotForgotten(past: seq<Move>, w: World) {
    && (|w.history| == 1 ==> forall a :: Concerned(past, a) ==> AtWork(w, a))
    && (forall a :: AtWork(w, a) ==> HadReason(past, a))
  }

  lemma LastBeginSnoc(past: seq<Move>, m: Move, agent: string)
    ensures LastBegin(past + [m], agent) == if m.Begin? && m.agent == agent then Some(m) else LastBegin(past, agent)
  {
    assert (past + [m])[..|past|] == past;
  }

  lemma ReasonSnoc(past: seq<Move>, m: Move, agent: string)
    ensures HadReason(past, agent) ==> HadReason(past + [m], agent)
    ensures IsReason(m, agent) ==> HadReason(past + [m], agent)
  {
    if i :| 0 <= i < |past| && IsReason(past[i], agent) {
      assert (past + [m])[i] == past[i];
    }
    assert (past + [m])[|past|] == m;
  }

  lemma BeginForgetsNothing(enum: set<string>, created: HostOp, past: seq<Move>, w: World, m: Move)
    requires Inv(enum, created, past, w) && NotForgotten(past, w) && Enabled(w, m) && m.Begin?
    ensures NotForgotten(past + [m], Next(enum, w, m))
  {
    var w' := Next(enum, w, m);
    forall a
      ensures |w'.history| == 1 && Concerned(past + [m], a) ==> AtWork(w', a)
      ensures AtWork(w', a) ==> HadReason(past + [m], a)
    {
      LastBeginSnoc(past, m, a);
      ReasonSnoc(past, m, a);
      if a == m.agent {
        BeginsToWork(enum, created, past, w, m);
      } else {
        OtherAtWork(enum, w, m, a);
      }
    }
  }

  // The agent of a reconcile
  lemma BeginsToWork(enum: set<string>, created: HostOp, past: seq<Move>, w: World, m: Move)
    requires Inv(enum, created, past, w) && Enabled(w, m) && m.Begin?
    ensures var w', o := Next(enum, w, m), m.outside;
      && (|w'.history| == 1 && (o.host.None? || o.host.value.clusterAgent == m.agent) ==> AtWork(w', m.agent))
      && (AtWork(w', m.agent) ==> AtWork(w, m.agent) || IsReason(m, m.agent))
  {
    var w' := Next(enum, w, m);
    TerminalIsSeen(created, past, w.history[m.seen]);
    assert |w'.jobs| > |w.jobs| ==> w'.jobs[|w.jobs|].agent == m.agent;
    assert forall k :: 0 <= k < |w.jobs| ==> w'.jobs[k] == w.jobs[k];
  }

  // Any other agent
  lemma OtherAtWork(enum: set<string>, w: World, m: Move, a: string)
    requires Enabled(w, m) && m.Begin? && a != m.agent
    ensures AtWork(Next(enum, w, m), a) <==> AtWork(w, a)
  {
    var w' := Next(enum, w, m);
    assert forall k :: 0 <= k < |w.jobs| ==> w'.jobs[k] == w.jobs[k];
    assert |w'.jobs| > |w.jobs| ==> w'.jobs[|w.jobs|].agent == m.agent;
  }

  lemma CommitForgetsNothing(enum: set<string>, created: HostOp, past: seq<Move>, w: World, m: Move)
    requires Inv(enum, created, past, w) && NotForgotten(past, w) && Enabled(w, m) && m.Commit?
    ensures NotForgotten(past + [m], Next(enum, w, m))
  {
    var w' := Next(enum, w, m);
    forall a
      ensures |w'.history| == 1 && Concerned(past + [m], a) ==> AtWork(w', a)
      ensures AtWork(w', a) ==> HadReason(past + [m], a)
    {
      LastBeginSnoc(past, m, a);
      ReasonSnoc(past, m, a);
      StillAtWork(enum, w, m, a);
    }
  }

  lemma StillAtWork(enum: set<string>, w: World, m: Move, a: string)
    requires m.Commit? && Enabled(w, m)
    ensures var w' := Next(enum, w, m);
      && (AtWork(w, a) && |w'.history| == |w.history| ==> AtWork(w', a))
      && (AtWork(w', a) ==> AtWork(w, a))
  {
    var w' := Next(enum, w, m);
    assert forall k :: 0 <= k < |w'.jobs| ==> w'.jobs[k] == w.jobs[if k < m.i then k else k + 1];
    if k :| 0 <= k < |w.jobs| && w.jobs[k].agent == a && k != m.i {
      assert w'.jobs[if k < m.i then k else k - 1] == w.jobs[k];
    }
  }

  lemma MoveForgetsNothing(enum: set<string>, created: HostOp, past: seq<Move>, w: World, m: Move)
    requires Inv(enum, created, past, w) && NotForgotten(past, w) && Enabled(w, m)
    ensures Inv(enum, created, past + [m], Next(enum, w, m)) && NotForgotten(past + [m], Next(enum, w, m))
  {
    MoveKeepsInv(enum, created, past, w, m);
    if m.Begin? {
      BeginForgetsNothing(enum, created, past, w, m);
    } else {
      CommitForgetsNothing(enum, created, past, w, m);
    }
  }

  // In every run: as long as no status write took effect, an agent that the HostStatus named when it last looked, or
  // that could not read the HostStatus, has a write in flight or is to reconcile again. An agent that only ever found
  // the operation foreign or finished is not.
  lemma OperationIsNotForgotten(enum: set<string>, created: HostOp, moves: seq<Move>, agent: string)
    requires created.status.status == "" || created.status.status == "pending"
    requires Run(enum, Created(created), moves)
    ensures var w := After(enum, Created(created), moves);
      && (w.history == [created] && Concerned(moves, agent) ==> AtWork(w, agent))
      && (AtWork(w, agent) ==> HadReason(moves, agent))
  {
    var p := (past: seq<Move>, w: World) => Inv(enum, created, past, w) && NotForgotten(past, w);
    forall past, w, m | p(past, w) && Enabled(w, m) ensures p(past + [m], Next(enum, w, m)) {
      MoveForgetsNothing(enum, created, past, w, m);
    }
    RunInduction(enum, p, [], Created(created), moves);
    assert [] + moves == moves;
  }

  // A reconcile that finds the operation foreign or finished changes nothing and is not repeated.
  lemma SettledIsNotDue(enum: set<string>, w: World, m: Move)
    requires m.Begin? && Enabled(w, m) && m.outside.host.Some?
    requires var s := w.history[m.seen].status.status;
      m.outside.host.value.clusterAgent != m.agent || !(s == "" || s == "pending")
    ensures Next(enum, w, m) == w.(due := w.due - {m.agent})
  {
  }

  // A write that took effect but was answered by an error finishes the operation; its agent comes back and finds it so.
  lemma LostAnswer(enum: set<string>, w: World, i: nat, o: Outside)
    requires i < |w.jobs| && Accepts(enum, w, w.jobs[i]) && IsTerminal(w.jobs[i].op.status.status) && o.host.Some?
    ensures var j := w.jobs[i];
      var w' := Next(enum, w, Commit(i, ErrorAfterEffect));
      && w'.history == w.history + [j.op] && j.agent in w'.due && w'.failedWrites == w.failedWrites + 1
      && Next(enum, w', Begin(j.agent, |w.history|, o)) == w'.(due := w'.due - {j.agent})
  {
    var w' := Next(enum, w, Commit(i, ErrorAfterEffect));
    assert w'.history[|w.history|] == w.jobs[i].op;
    SettledIsNotDue(enum, w', Begin(w.jobs[i].agent, |w.history|, o));
  }

  // ---- The schema --------------------------------------------------------------------------

  // The values of the CustomResourceDefinition; the code writes "failed".
  const SHIPPED_ENUM := {"pending", "success", "failure"}

  // With the shipped schema a failed operation is never recorded: the only terminal status ever stored is "success".
  lemma FailureIsNeverRecorded(created: HostOp, moves: seq<Move>)
    requires created.status.status == "" || created.status.status == "pending"
    requires Run(SHIPPED_ENUM, Created(created), moves)
    ensures var w := After(SHIPPED_ENUM, Created(created), moves);
      w.history == [created] || exists op :: w.history == [created, op] && op.status.status == "success"
  {
    OperationRunsSafely(SHIPPED_ENUM, created, moves);
    var w := After(SHIPPED_ENUM, Created(created), moves);
    if w.history != [created] {
      var op, i :| w.history == [created, op] && op.status.status in SHIPPED_ENUM
                   && 0 <= i < |moves| && Decided(created, moves[i], op);
      assert op.status.status == SUCCESS;
    }
  }

  // A reconcile that fails, its write served by the API server
  function FailingRound(agent: string, o: Outside): seq<Move> { [Begin(agent, 0, o), Commit(0, Served)] }

  // The named agent executes the open operation and it fails: no connection, a failed power call or an invalid action.
  ghost predicate ExecutionFails(agent: string, created: HostOp, o: Outside) {
    && o.host.Some? && o.host.value.clusterAgent == agent && o.cached
    && (created.status.status == "" || created.status.status == "pending")
    && (o.connectError.Some? || !SwitchesPower(created.action) || o.powerError.Some?)
  }

  // Whether the round gets as far as the power call
  function PowerCalls(agent: string, created: HostOp, o: Outside): nat {
    if Powers(created, Begin(agent, 0, o)) then 1 else 0
  }

  // One failing round ends the operation exactly when the schema knows "failed".
  lemma FailingRoundRecordedIff(enum: set<string>, agent: string, created: HostOp, o: Outside, calls: nat, failed: nat)
    requires ExecutionFails(agent, created, o)
    ensures var w := World([created], [], {agent}, calls, 0, failed);
      && Run(enum, w, FailingRound(agent, o))
      && var w' := After(enum, w, FailingRound(agent, o));
         && (|w'.history| == 2 <==> FAILED in enum)
         && (FAILED in enum ==>
               w'.history[1].status == OpStatus(FAILED, Failure(created, o).value, o.now, agent, o.host.value.ipAddr))
         && (FAILED !in enum ==>
               w' == World([created], [], {agent}, calls + PowerCalls(agent, created, o), 0, failed + 1))
  {
    var w := World([created], [], {agent}, calls, 0, failed);
    var round := FailingRound(agent, o);
    var w1 := Next(enum, w, round[0]);
    assert w1.jobs[..0] + w1.jobs[1..] == [];
    assert round[1..] == [Commit(0, Served)] && round[1..][1..] == [];
    assert After(enum, w, round) == After(enum, w1, round[1..]);
    assert After(enum, w1, round[1..]) == Next(enum, w1, Commit(0, Served));
  }

  function Rounds(agent: string, o: Outside, n: nat): seq<Move> {
    if n == 0 then [] else FailingRound(agent, o) + Rounds(agent, o, n - 1)
  }

  lemma {:induction false} RunAppend(enum: set<string>, w: World, a: seq<Move>, b: seq<Move>)
    requires Run(enum, w, a) && Run(enum, After(enum, w, a), b)
    ensures Run(enum, w, a + b) && After(enum, w, a + b) == After(enum, After(enum, w, a), b)
    decreases a
  {
    if a == [] {
      assert a + b == b;
    } else {
      assert (a + b)[0] == a[0] && (a + b)[1..] == a[1..] + b;
      RunAppend(enum, Next(enum, w, a[0]), a[1..], b);
    }
  }

  // So an operation that fails is executed again and again: for every n there is a run of n rounds, each with its
  // power call if it gets that far, and still no status.
  lemma {:induction false} FailingOperationRepeats(agent: string, created: HostOp, o: Outside, n: nat, calls: nat,
                                                   failed: nat)
    requires ExecutionFails(agent, created, o)
    ensures var w := World([created], [], {agent}, calls, 0, failed);
      && Run(SHIPPED_ENUM, w, Rounds(agent, o, n))
      && After(SHIPPED_ENUM, w, Rounds(agent, o, n))
         == World([created], [], {agent}, calls + n * PowerCalls(agent, created, o), 0, failed + n)
    decreases n
  {
    if n > 0 {
      var w, p := World([created], [], {agent}, calls, 0, failed), PowerCalls(agent, created, o);
      FailingRoundRecordedIff(SHIPPED_ENUM, agent, created, o, calls, failed);
      FailingOperationRepeats(agent, created, o, n - 1, calls + p, failed + 1);
      RunAppend(SHIPPED_ENUM, w, FailingRound(agent, o), Rounds(agent, o, n - 1));
      assert p + (n - 1) * p == n * p;
    }
  }
}
