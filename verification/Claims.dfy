/** Processes that share a root directory: claiming an execution, publishing its records, and dispatching once. */
module Claims {

  // ---- plans, records and files

  /** A revision of the plan of one run; `valid` says whether P0 accepts it. */
  datatype Plan = Plan(runId: string, revision: nat, valid: bool)

  /** The digest of the run id alone, taken as injective, so that every revision shares it. */
  datatype ExecutionId = Digest(runId: string)

  function IdOf(plan: Plan): ExecutionId {
    Digest(plan.runId)
  }

  datatype Name =
    | ClaimJson | OperatorPlan | P0Plan | Invocation | Policy | HaikuPrice | TitanPrice | RequestJson | AttemptJson

  datatype Content =
    | ClaimOf(plan: Plan)
    | InputOf(name: Name, plan: Plan)
    | RequestOf(plan: Plan)
    | MarkerOf(request: Content)

  /** A file is durable once it was written in full, flushed and closed. */
  datatype File = Partial | Durable(content: Content)

  type Directory = map<Name, File>

  /** The order in which an execution publishes its files before it dispatches. */
  function Files(kind: Kind): seq<Name> {
    match kind
    case ClaimOnly => [ClaimJson]
    case Consume =>
      [ClaimJson, OperatorPlan, P0Plan, Invocation, Policy, HaikuPrice, TitanPrice, RequestJson, AttemptJson]
  }

  function ContentOf(name: Name, plan: Plan): Content {
    match name
    case ClaimJson => ClaimOf(plan)
    case RequestJson => RequestOf(plan)
    case AttemptJson => MarkerOf(RequestOf(plan))
    case _ => InputOf(name, plan)
  }

  // ---- processes

  /** `publish_claim` alone, or the operator that goes on to dispatch. */
  datatype Kind = ClaimOnly | Consume

  /** Where a process is: about to write or in the middle of writing file k, holding a client, or over. */
  datatype Stage = Ready | Writing(k: nat, begun: bool) | Built | Over

  datatype Process = Process(kind: Kind, plan: Plan, stage: Stage, claimed: bool, dispatched: bool)

  datatype Dispatch = Dispatch(process: nat, plan: Plan)

  datatype World = World(root: map<ExecutionId, Directory>, processes: seq<Process>, dispatches: seq<Dispatch>)

  datatype Event =
    | Spawn(kind: Kind, plan: Plan)
    | Advance(process: nat, fails: bool)
    | Crash(process: nat)

  function Empty(): World {
    World(map[], [], [])
  }

  function WithProcess(w: World, p: nat, process: Process): World
    requires p < |w.processes|
  {
    w.(processes := w.processes[p := process])
  }

  /** Validation, then an atomic mkdir that fails when the directory exists. */
  function Claim(w: World, p: nat, fails: bool): World
    requires p < |w.processes|
  {
    var process := w.processes[p];
    if fails || !process.plan.valid || IdOf(process.plan) in w.root then
      WithProcess(w, p, process.(stage := Over))
    else
      var owner := process.(stage := Writing(0, false), claimed := true);
      WithProcess(w, p, owner).(root := w.root[IdOf(process.plan) := map[]])
  }

  /** An exclusive open creates the file or fails; the write, the flush and the close then complete it or fail. */
  function Write(w: World, p: nat, fails: bool): World
    requires p < |w.processes| && w.processes[p].stage.Writing?
    requires IdOf(w.processes[p].plan) in w.root && w.processes[p].stage.k < |Files(w.processes[p].kind)|
  {
    var process := w.processes[p];
    var id := IdOf(process.plan);
    var k := process.stage.k;
    var name := Files(process.kind)[k];
    if !process.stage.begun then
      if fails || name in w.root[id] then
        WithProcess(w, p, process.(stage := Over))
      else
        WithProcess(w, p, process.(stage := Writing(k, true))).(root := w.root[id := w.root[id][name := Partial]])
    else if fails then
      WithProcess(w, p, process.(stage := Over))
    else
      WithProcess(w, p, process.(stage := NextStage(process.kind, k)))
      .(root := w.root[id := w.root[id][name := Durable(ContentOf(name, process.plan))]])
  }

  function NextStage(kind: Kind, k: nat): Stage {
    if k + 1 < |Files(kind)| then Writing(k + 1, false) else if kind == Consume then Built else Over
  }

  /** The factory may fail; otherwise the one-use transport dispatches. */
  function Send(w: World, p: nat, fails: bool): World
    requires p < |w.processes|
  {
    var process := w.processes[p];
    if fails then
      WithProcess(w, p, process.(stage := Over))
    else
      WithProcess(w, p, process.(stage := Over, dispatched := true))
      .(dispatches := w.dispatches + [Dispatch(p, process.plan)])
  }

  function Next(w: World, event: Event): World {
    match event
    case Spawn(kind, plan) => w.(processes := w.processes + [Process(kind, plan, Ready, false, false)])
    case Crash(p) => if p < |w.processes| then WithProcess(w, p, w.processes[p].(stage := Over)) else w
    case Advance(p, fails) =>
      if p >= |w.processes| then w
      else
        var process := w.processes[p];
        match process.stage
        case Ready => Claim(w, p, fails)
        case Writing(k, _) =>
          if IdOf(process.plan) in w.root && k < |Files(process.kind)| then Write(w, p, fails) else w
        case Built => Send(w, p, fails)
        case Over => w
  }

  /** Any interleaving of any processes, with crashes and failures anywhere. */
  function Run(events: seq<Event>): World {
    if events == [] then Empty() else Next(Run(events[..|events| - 1]), events[|events| - 1])
  }

  // ---- invariants

  /** The first k files of the process are in its directory, complete and with its contents. */
  predicate Published(w: World, process: Process, k: nat) {
    && IdOf(process.plan) in w.root
    && k <= |Files(process.kind)|
    && forall j: nat | j < k ::
         && Files(process.kind)[j] in w.root[IdOf(process.plan)]
         && w.root[IdOf(process.plan)][Files(process.kind)[j]]
           == Durable(ContentOf(Files(process.kind)[j], process.plan))
  }

  /** No file beyond the first k exists yet. */
  predicate Untouched(w: World, process: Process, k: nat)
    requires IdOf(process.plan) in w.root
  {
    forall j: nat | k <= j < |Files(process.kind)| :: Files(process.kind)[j] !in w.root[IdOf(process.plan)]
  }

  predicate BeingWritten(w: World, process: Process, k: nat)
    requires IdOf(process.plan) in w.root && k < |Files(process.kind)|
  {
    Files(process.kind)[k] in w.root[IdOf(process.plan)]
      && w.root[IdOf(process.plan)][Files(process.kind)[k]] == Partial
  }

  predicate ProcessOk(w: World, process: Process) {
    && (process.claimed ==> IdOf(process.plan) in w.root)
    && (process.stage.Ready? ==> !process.claimed)
    && (process.stage.Writing? || process.stage.Built? || process.dispatched ==> process.claimed)
    && (!process.stage.Over? ==> !process.dispatched)
    && (process.stage.Writing? ==>
          && process.stage.k < |Files(process.kind)|
          && Published(w, process, process.stage.k)
          && Untouched(w, process, process.stage.k + (if process.stage.begun then 1 else 0))
          && (process.stage.begun ==> BeingWritten(w, process, process.stage.k)))
    && (process.stage.Built? || process.dispatched ==>
          process.kind == Consume && Published(w, process, |Files(Consume)|))
  }

  /** No two processes ever hold a claim on the same execution. */
  predicate OneOwner(w: World) {
    forall p: nat, q: nat | p < q < |w.processes| && w.processes[p].claimed && w.processes[q].claimed ::
      IdOf(w.processes[p].plan) != IdOf(w.processes[q].plan)
  }

  predicate DispatchesOk(w: World) {
    && (forall i: nat | i < |w.dispatches| ::
          && w.dispatches[i].process < |w.processes|
          && w.processes[w.dispatches[i].process].dispatched
          && w.processes[w.dispatches[i].process].plan == w.dispatches[i].plan)
    && (forall i: nat, j: nat | i < j < |w.dispatches| :: w.dispatches[i].process != w.dispatches[j].process)
  }

  predicate Invariant(w: World) {
    && (forall p: nat | p < |w.processes| :: ProcessOk(w, w.processes[p]))
    && OneOwner(w)
    && DispatchesOk(w)
  }

  lemma FilesAreDistinct(kind: Kind, i: nat, j: nat)
    requires i < j < |Files(kind)|
    ensures Files(kind)[i] != Files(kind)[j]
  {}

  /** A process is unaffected by what happens in other directories. */
  lemma ElsewhereKeepsProcess(w: World, w': World, process: Process)
    requires ProcessOk(w, process)
    requires process.claimed ==> IdOf(process.plan) in w'.root
    requires process.claimed ==> w'.root[IdOf(process.plan)] == w.root[IdOf(process.plan)]
    ensures ProcessOk(w', process)
  {}

  lemma ClaimKeeps(w: World, p: nat, fails: bool)
    requires Invariant(w) && p < |w.processes| && w.processes[p].stage.Ready?
    ensures Invariant(Claim(w, p, fails))
  {
    var w' := Claim(w, p, fails);
    forall q: nat | q < |w'.processes| ensures ProcessOk(w', w'.processes[q]) {
      assert ProcessOk(w, w.processes[q]);
      if q != p {
        ElsewhereKeepsProcess(w, w', w.processes[q]);
      }
    }
  }

  lemma OtherDirectory(w: World, p: nat, q: nat)
    requires Invariant(w) && p < |w.processes| && q < |w.processes| && p != q
    requires w.processes[p].claimed && w.processes[q].claimed
    ensures IdOf(w.processes[p].plan) != IdOf(w.processes[q].plan)
  {
    if p < q {
    } else {
      assert q < p;
    }
  }

  lemma WriteKeepsItself(w: World, p: nat, fails: bool)
    requires Invariant(w) && p < |w.processes| && w.processes[p].stage.Writing?
    ensures IdOf(w.processes[p].plan) in w.root && w.processes[p].stage.k < |Files(w.processes[p].kind)|
    ensures ProcessOk(Write(w, p, fails), Write(w, p, fails).processes[p])
  {
    var process := w.processes[p];
    assert ProcessOk(w, process);
    var k := process.stage.k;
    forall j: nat | j < |Files(process.kind)| && j != k ensures Files(process.kind)[j] != Files(process.kind)[k] {
      if j < k {
        FilesAreDistinct(process.kind, j, k);
      } else {
        FilesAreDistinct(process.kind, k, j);
      }
    }
  }

  lemma WriteKeeps(w: World, p: nat, fails: bool)
    requires Invariant(w) && p < |w.processes| && w.processes[p].stage.Writing?
    ensures IdOf(w.processes[p].plan) in w.root && w.processes[p].stage.k < |Files(w.processes[p].kind)|
    ensures Invariant(Write(w, p, fails))
  {
    WriteKeepsItself(w, p, fails);
    var w' := Write(w, p, fails);
    forall q: nat | q < |w'.processes| ensures ProcessOk(w', w'.processes[q]) {
      if q != p {
        assert ProcessOk(w, w.processes[q]);
        if w.processes[q].claimed {
          OtherDirectory(w, p, q);
        }
        ElsewhereKeepsProcess(w, w', w.processes[q]);
      }
    }
  }

  lemma StepKeeps(w: World, event: Event)
    requires Invariant(w)
    ensures Invariant(Next(w, event))
  {
    var w' := Next(w, event);
    if event.Advance? && event.process < |w.processes| && w.processes[event.process].stage.Ready? {
      ClaimKeeps(w, event.process, event.fails);
    } else if event.Advance? && event.process < |w.processes| && w.processes[event.process].stage.Writing? {
      WriteKeeps(w, event.process, event.fails);
    } else {
      forall q: nat | q < |w'.processes| ensures ProcessOk(w', w'.processes[q]) {
        if q < |w.processes| {
          assert ProcessOk(w, w.processes[q]);
          ElsewhereKeepsProcess(w, w', w.processes[q]);
        }
      }
    }
  }

  lemma {:induction false} RunsAreInvariant(events: seq<Event>)
    ensures Invariant(Run(events))
  {
    if events != [] {
      RunsAreInvariant(events[..|events| - 1]);
      StepKeeps(Run(events[..|events| - 1]), events[|events| - 1]);
    }
  }

  // ---- what the protocol guarantees

  /** However processes interleave, fail and crash, and whichever revisions they hold, a run id is dispatched at most
      once. */
  lemma AtMostOneDispatch(events: seq<Event>, i: nat, j: nat)
    requires i < j < |Run(events).dispatches|
    ensures Run(events).dispatches[i].plan.runId != Run(events).dispatches[j].plan.runId
  {
    RunsAreInvariant(events);
    var w := Run(events);
    var p, q := w.dispatches[i].process, w.dispatches[j].process;
    assert ProcessOk(w, w.processes[p]) && ProcessOk(w, w.processes[q]);
    OtherDirectory(w, p, q);
  }

  predicate Recorded(w: World, plan: Plan) {
    var id := IdOf(plan);
    && id in w.root
    && forall name: Name :: name in w.root[id] && w.root[id][name] == Durable(ContentOf(name, plan))
  }

  /** Every dispatch finds its claim, its inputs, its request and its attempt marker complete, all of its own plan. */
  lemma DispatchIsRecorded(events: seq<Event>, i: nat)
    requires i < |Run(events).dispatches|
    ensures Recorded(Run(events), Run(events).dispatches[i].plan)
  {
    RunsAreInvariant(events);
    var w := Run(events);
    var plan := w.dispatches[i].plan;
    var process := w.processes[w.dispatches[i].process];
    assert ProcessOk(w, process);
    forall name: Name ensures name in w.root[IdOf(plan)] && w.root[IdOf(plan)][name] == Durable(ContentOf(name, plan)) {
      EveryNameIsAFile(name);
      var j: nat :| j < |Files(Consume)| && Files(Consume)[j] == name;
    }
  }

  lemma EveryNameIsAFile(name: Name)
    ensures exists j: nat :: j < |Files(Consume)| && Files(Consume)[j] == name
  {
    var files := Files(Consume);
    assert files[0] == ClaimJson && files[1] == OperatorPlan && files[2] == P0Plan && files[3] == Invocation
      && files[4] == Policy;
    assert files[5] == HaikuPrice && files[6] == TitanPrice && files[7] == RequestJson && files[8] == AttemptJson;
  }

  /** The records are complete before the step that dispatches. */
  lemma RecordsComeFirst(events: seq<Event>, event: Event)
    requires |Next(Run(events), event).dispatches| > |Run(events).dispatches|
    ensures event.Advance? && Recorded(Run(events), Run(events).processes[event.process].plan)
    ensures Next(Run(events), event).dispatches
      == Run(events).dispatches + [Dispatch(event.process, Run(events).processes[event.process].plan)]
  {
    RunsAreInvariant(events);
    var w := Run(events);
    var process := w.processes[event.process];
    assert ProcessOk(w, process);
    assert process.stage.Built?;
    forall name: Name ensures name in w.root[IdOf(process.plan)]
      && w.root[IdOf(process.plan)][name] == Durable(ContentOf(name, process.plan)) {
      EveryNameIsAFile(name);
      var j: nat :| j < |Files(Consume)| && Files(Consume)[j] == name;
    }
  }

  // ---- claims and files are never taken back

  /** Directories stay, complete files stay as they are, and no claim, dispatch or end of a process is undone. */
  predicate Extends(w: World, w': World) {
    && (forall id: ExecutionId | id in w.root :: id in w'.root && FilesKept(w.root[id], w'.root[id]))
    && |w.processes| <= |w'.processes|
    && (forall p: nat | p < |w.processes| :: StaysOver(w.processes[p], w'.processes[p]))
    && w.dispatches <= w'.dispatches
  }

  predicate FilesKept(d: Directory, d': Directory) {
    forall name: Name | name in d :: name in d' && (d[name].Durable? ==> d'[name] == d[name])
  }

  predicate StaysOver(process: Process, process': Process) {
    && process'.plan == process.plan
    && (process.claimed ==> process'.claimed)
    && (process.stage.Over? ==> process' == process)
  }

  lemma StepExtends(w: World, event: Event)
    requires Invariant(w)
    ensures Extends(w, Next(w, event))
  {
    if event.Advance? && event.process < |w.processes| && w.processes[event.process].stage.Writing? {
      var process := w.processes[event.process];
      assert ProcessOk(w, process);
    }
  }

  lemma {:induction false} RunExtends(events: seq<Event>, more: seq<Event>)
    ensures Extends(Run(events), Run(events + more))
  {
    if more == [] {
      assert events + more == events;
    } else {
      var before := events + more[..|more| - 1];
      assert (events + more)[..|events + more| - 1] == before
        && (events + more)[|events + more| - 1] == more[|more| - 1];
      RunExtends(events, more[..|more| - 1]);
      RunsAreInvariant(before);
      StepExtends(Run(before), more[|more| - 1]);
    }
  }

  /** A claim whose process ended or crashed before it dispatched blocks its run id for good. */
  lemma AbandonedClaimBlocks(events: seq<Event>, p: nat, more: seq<Event>, i: nat)
    requires p < |Run(events).processes| && Run(events).processes[p].claimed
    requires Run(events).processes[p].stage.Over? && !Run(events).processes[p].dispatched
    requires i < |Run(events + more).dispatches|
    ensures Run(events + more).dispatches[i].plan.runId != Run(events).processes[p].plan.runId
  {
    RunExtends(events, more);
    RunsAreInvariant(events + more);
    var w := Run(events + more);
    var q := w.dispatches[i].process;
    assert StaysOver(Run(events).processes[p], w.processes[p]);
    assert ProcessOk(w, w.processes[q]);
    assert q != p;
    OtherDirectory(w, p, q);
  }

  // ---- an undisturbed process does dispatch

  function Undisturbed(p: nat, steps: nat): seq<Event> {
    seq(steps, _ => Advance(p, false))
  }

  lemma FileIsWritten(w: World, w1: World, w2: World, p: nat, k: nat)
    requires Invariant(w) && p < |w.processes| && w.processes[p].kind == Consume
    requires w.processes[p].stage == Writing(k, false)
    requires w1 == Next(w, Advance(p, false)) && w2 == Next(w1, Advance(p, false))
    ensures k < |Files(Consume)| && Invariant(w2) && p < |w2.processes| && w2.dispatches == w.dispatches
    ensures w2.processes[p] == w.processes[p].(stage := NextStage(Consume, k))
  {
    assert ProcessOk(w, w.processes[p]);
    StepKeeps(w, Advance(p, false));
    StepKeeps(w1, Advance(p, false));
    assert ProcessOk(w1, w1.processes[p]) && w1.processes[p].stage == Writing(k, true);
  }

  lemma {:induction false} WritesFinish(w: World, p: nat, k: nat)
    requires Invariant(w) && p < |w.processes| && w.processes[p].kind == Consume
    requires w.processes[p].stage == Writing(k, false)
    ensures k < |Files(Consume)|
    ensures AfterAll(w, Undisturbed(p, 2 * (|Files(Consume)| - k) + 1)).dispatches
      == w.dispatches + [Dispatch(p, w.processes[p].plan)]
    decreases |Files(Consume)| - k
  {
    var w1 := Next(w, Advance(p, false));
    var w2 := Next(w1, Advance(p, false));
    FileIsWritten(w, w1, w2, p, k);
    var rest := 2 * (|Files(Consume)| - k - 1) + 1;
    AfterOne(w, p, rest + 1);
    AfterOne(w1, p, rest);
    if k + 1 < |Files(Consume)| {
      WritesFinish(w2, p, k + 1);
    } else {
      AfterOne(w2, p, 0);
    }
  }

  lemma AfterOne(w: World, p: nat, rest: nat)
    ensures AfterAll(w, Undisturbed(p, rest + 1)) == AfterAll(Next(w, Advance(p, false)), Undisturbed(p, rest))
  {
    assert Undisturbed(p, rest + 1)[1..] == Undisturbed(p, rest);
  }

  function AfterAll(w: World, events: seq<Event>): World
    decreases |events|
  {
    if events == [] then w else AfterAll(Next(w, events[0]), events[1..])
  }

  lemma {:induction false} RunContinues(events: seq<Event>, more: seq<Event>)
    ensures Run(events + more) == AfterAll(Run(events), more)
    decreases |more|
  {
    if more == [] {
      assert events + more == events;
    } else {
      var first := events + [more[0]];
      assert first[..|first| - 1] == events && first + more[1..] == events + more;
      RunContinues(first, more[1..]);
    }
  }

  /** The guards are not vacuous: a valid plan of an unclaimed run, left alone, is claimed, recorded and dispatched. */
  lemma UndisturbedDispatches(events: seq<Event>, p: nat)
    requires p < |Run(events).processes| && Run(events).processes[p].kind == Consume
    requires Run(events).processes[p].stage.Ready? && Run(events).processes[p].plan.valid
    requires IdOf(Run(events).processes[p].plan) !in Run(events).root
    ensures Run(events + Undisturbed(p, 2 * |Files(Consume)| + 2)).dispatches
         == Run(events).dispatches + [Dispatch(p, Run(events).processes[p].plan)]
  {
    RunsAreInvariant(events);
    ClaimedDispatches(Run(events), p);
    RunContinues(events, Undisturbed(p, 2 * |Files(Consume)| + 2));
  }

  lemma ClaimedDispatches(w: World, p: nat)
    requires Invariant(w) && p < |w.processes| && w.processes[p].kind == Consume
    requires w.processes[p].stage.Ready? && w.processes[p].plan.valid && IdOf(w.processes[p].plan) !in w.root
    ensures AfterAll(w, Undisturbed(p, 2 * |Files(Consume)| + 2)).dispatches
      == w.dispatches + [Dispatch(p, w.processes[p].plan)]
  {
    var n := 2 * |Files(Consume)| + 1;
    var now := Next(w, Advance(p, false));
    StepKeeps(w, Advance(p, false));
    assert Undisturbed(p, n + 1)[1..] == Undisturbed(p, n);
    assert AfterAll(w, Undisturbed(p, n + 1)) == AfterAll(now, Undisturbed(p, n));
    WritesFinish(now, p, 0);
  }

  // ---- the sequential program

  /** The i-th system call of one process, with its outcome. */
  predicate CallAt(trace: seq<World>, p: nat, fails: nat -> bool, i: nat) {
    i + 1 < |trace| && trace[i + 1] == Next(trace[i], Advance(p, fails(i)))
  }

  /** The worlds one process goes through while nobody else moves. */
  predicate SoloTrace(trace: seq<World>, p: nat, fails: nat -> bool) {
    forall i: nat | i + 1 < |trace| :: CallAt(trace, p, fails, i)
  }

  /** Nothing happens after the end of a process. */
  lemma {:induction false} OverIsOver(trace: seq<World>, p: nat, fails: nat -> bool, i: nat, j: nat)
    requires SoloTrace(trace, p, fails) && i <= j < |trace|
    requires p < |trace[i].processes| && trace[i].processes[p].stage.Over?
    ensures trace[j] == trace[i]
    decreases j - i
  {
    if i < j {
      assert CallAt(trace, p, fails, i);
      OverIsOver(trace, p, fails, i + 1, j);
    }
  }

  /** How many system calls a process makes at most: the mkdir, an open and a write for every file, and the dispatch. */
  function CallCount(kind: Kind): nat {
    2 * |Files(kind)| + 2
  }

  /** The shared directory tree, changed in place. */
  class Root {
    var directories: map<ExecutionId, Directory>

    constructor ()
      ensures directories == map[]
    {
      directories := map[];
    }

    /** The exclusive open of `_write`: it creates the file or fails. */
    method Open(id: ExecutionId, name: Name, fails: bool) returns (ok: bool)
      requires id in directories
      modifies this
      ensures ok <==> !fails && name !in old(directories)[id]
      ensures directories == if ok then Put(old(directories), id, name, Partial) else old(directories)
    {
      if fails || name in directories[id] {
        return false;
      }
      directories := directories[id := directories[id][name := Partial]];
      return true;
    }

    /** The write, flush and close of `_write`. */
    method Fill(id: ExecutionId, name: Name, content: Content, fails: bool) returns (ok: bool)
      requires id in directories
      modifies this
      ensures ok <==> !fails
      ensures directories == if ok then Put(old(directories), id, name, Durable(content)) else old(directories)
    {
      if fails {
        return false;
      }
      directories := directories[id := directories[id][name := Durable(content)]];
      return true;
    }

    /** The program of one process; false when it ends before the dispatch. */
    method Execute(kind: Kind, plan: Plan, fails: nat -> bool) returns (dispatched: bool)
      modifies this
      ensures directories == SoloRun(old(directories), kind, plan, fails).0
      ensures dispatched == SoloRun(old(directories), kind, plan, fails).1
    {
      var id, files := IdOf(plan), Files(kind);
      if fails(0) || !plan.valid || id in directories {
        return false;
      }
      directories := directories[id := map[]];
      for k := 0 to |files|
        invariant id in directories
        invariant PublishFrom(directories, kind, plan, fails, k)
          == PublishFrom(old(directories)[id := map[]], kind, plan, fails, 0)
      {
        var ok := Open(id, files[k], fails(1 + 2 * k));
        if !ok {
          return false;
        }
        ok := Fill(id, files[k], ContentOf(files[k], plan), fails(2 + 2 * k));
        if !ok {
          return false;
        }
      }
      dispatched := kind == Consume && !fails(1 + 2 * |files|);
    }
  }

  /** The tree when nobody interferes from the k-th file on, and whether the process goes on to dispatch. */
  function PublishFrom(root: map<ExecutionId, Directory>, kind: Kind, plan: Plan, fails: nat -> bool, k: nat)
    : (map<ExecutionId, Directory>, bool)
    requires IdOf(plan) in root
    decreases |Files(kind)| - k
  {
    if k >= |Files(kind)| then (root, kind == Consume && !fails(1 + 2 * |Files(kind)|))
    else if fails(1 + 2 * k) || Files(kind)[k] in root[IdOf(plan)] then (root, false)
    else FillFrom(Put(root, IdOf(plan), Files(kind)[k], Partial), kind, plan, fails, k)
  }

  function FillFrom(root: map<ExecutionId, Directory>, kind: Kind, plan: Plan, fails: nat -> bool, k: nat)
    : (map<ExecutionId, Directory>, bool)
    requires IdOf(plan) in root && k < |Files(kind)|
    decreases |Files(kind)| - k, 0
  {
    if fails(2 + 2 * k) then (root, false)
    else PublishFrom(Put(root, IdOf(plan), Files(kind)[k], Durable(ContentOf(Files(kind)[k], plan))), kind, plan,
      fails, k + 1)
  }

  /** The tree after an undisturbed process, and whether it dispatched. */
  function SoloRun(root: map<ExecutionId, Directory>, kind: Kind, plan: Plan, fails: nat -> bool)
    : (map<ExecutionId, Directory>, bool)
  {
    if fails(0) || !plan.valid || IdOf(plan) in root then (root, false)
    else PublishFrom(root[IdOf(plan) := map[]], kind, plan, fails, 0)
  }

  /** What a run of one process leaves: the tree, and its dispatch if any. */
  predicate Leaves(w: World, after: World, p: nat, plan: Plan, outcome: (map<ExecutionId, Directory>, bool)) {
    after.root == outcome.0 && after.dispatches == w.dispatches + (if outcome.1 then [Dispatch(p, plan)] else [])
  }

  lemma {:induction false} PublishingRefines(trace: seq<World>, p: nat, kind: Kind, plan: Plan, fails: nat -> bool,
      k: nat)
    requires SoloTrace(trace, p, fails) && |trace| == CallCount(kind) + 1 && k <= |Files(kind)|
    requires Publishing(trace[1 + 2 * k], p, kind, plan, if k == 0 then Writing(0, false) else NextStage(kind, k - 1))
    ensures Leaves(trace[1 + 2 * k], trace[CallCount(kind)], p, plan,
      PublishFrom(trace[1 + 2 * k].root, kind, plan, fails, k))
    decreases |Files(kind)| - k, 1
  {
    if k == |Files(kind)| {
      LastCall(trace, p, kind, plan, fails);
    } else {
      OpenCall(trace, p, kind, plan, fails, k);
      if fails(1 + 2 * k) || Files(kind)[k] in trace[1 + 2 * k].root[IdOf(plan)] {
        OverIsOver(trace, p, fails, 2 + 2 * k, CallCount(kind));
      } else {
        FillingRefines(trace, p, kind, plan, fails, k);
      }
    }
  }

  lemma {:induction false} FillingRefines(trace: seq<World>, p: nat, kind: Kind, plan: Plan, fails: nat -> bool, k: nat)
    requires SoloTrace(trace, p, fails) && |trace| == CallCount(kind) + 1 && k < |Files(kind)|
    requires Publishing(trace[2 + 2 * k], p, kind, plan, Writing(k, true))
    ensures Leaves(trace[2 + 2 * k], trace[CallCount(kind)], p, plan,
      FillFrom(trace[2 + 2 * k].root, kind, plan, fails, k))
    decreases |Files(kind)| - k, 0
  {
    FillCall(trace, p, kind, plan, fails, k);
    if fails(2 + 2 * k) {
      OverIsOver(trace, p, fails, 3 + 2 * k, CallCount(kind));
    } else {
      PublishingRefines(trace, p, kind, plan, fails, k + 1);
    }
  }

  /** The sequential program refines the state machine: on any tree, the moves of one process alone leave exactly the
      tree and the dispatch of its program. */
  lemma SoloRunRefines(trace: seq<World>, p: nat, kind: Kind, plan: Plan, fails: nat -> bool)
    requires SoloTrace(trace, p, fails) && |trace| == CallCount(kind) + 1
    requires p < |trace[0].processes| && trace[0].processes[p] == Process(kind, plan, Ready, false, false)
    ensures Leaves(trace[0], trace[CallCount(kind)], p, plan, SoloRun(trace[0].root, kind, plan, fails))
  {
    assert CallAt(trace, p, fails, 0);
    if fails(0) || !plan.valid || IdOf(plan) in trace[0].root {
      OverIsOver(trace, p, fails, 1, CallCount(kind));
    } else {
      PublishingRefines(trace, p, kind, plan, fails, 0);
    }
  }

  function Put(root: map<ExecutionId, Directory>, id: ExecutionId, name: Name, file: File): map<ExecutionId, Directory>
    requires id in root
  {
    root[id := root[id][name := file]]
  }

  /** A process that holds its claim, at some stage of its publication. */
  predicate Publishing(w: World, p: nat, kind: Kind, plan: Plan, stage: Stage) {
    && p < |w.processes| && w.processes[p] == Process(kind, plan, stage, true, false)
    && IdOf(plan) in w.root
  }

  lemma OpenCall(trace: seq<World>, p: nat, kind: Kind, plan: Plan, fails: nat -> bool, k: nat)
    requires SoloTrace(trace, p, fails) && 2 + 2 * k < |trace| && k < |Files(kind)|
    requires Publishing(trace[1 + 2 * k], p, kind, plan, Writing(k, false))
    ensures var w, now := trace[1 + 2 * k], trace[2 + 2 * k];
      && now.dispatches == w.dispatches && p < |now.processes|
      && var shut := fails(1 + 2 * k) || Files(kind)[k] in w.root[IdOf(plan)];
      && (shut ==> now.root == w.root && now.processes[p].stage.Over?)
      && (!shut ==> now.root == Put(w.root, IdOf(plan), Files(kind)[k], Partial))
      && (!shut ==> Publishing(now, p, kind, plan, Writing(k, true)))
  {
    assert CallAt(trace, p, fails, 1 + 2 * k);
  }

  lemma FillCall(trace: seq<World>, p: nat, kind: Kind, plan: Plan, fails: nat -> bool, k: nat)
    requires SoloTrace(trace, p, fails) && 3 + 2 * k < |trace| && k < |Files(kind)|
    requires Publishing(trace[2 + 2 * k], p, kind, plan, Writing(k, true))
    ensures var w, now := trace[2 + 2 * k], trace[3 + 2 * k];
      && now.dispatches == w.dispatches && p < |now.processes|
      && (if fails(2 + 2 * k) then now.root == w.root && now.processes[p].stage.Over?
          else (now.root == Put(w.root, IdOf(plan), Files(kind)[k], Durable(ContentOf(Files(kind)[k], plan)))
                && Publishing(now, p, kind, plan, NextStage(kind, k))))
  {
    assert CallAt(trace, p, fails, 2 + 2 * k);
  }

  lemma LastCall(trace: seq<World>, p: nat, kind: Kind, plan: Plan, fails: nat -> bool)
    requires SoloTrace(trace, p, fails) && |trace| == CallCount(kind) + 1
    requires Publishing(trace[CallCount(kind) - 1], p, kind, plan, if kind == Consume then Built else Over)
    ensures var w := trace[CallCount(kind) - 1];
      Leaves(w, trace[CallCount(kind)], p, plan, (w.root, kind == Consume && !fails(CallCount(kind) - 1)))
  {
    assert CallAt(trace, p, fails, CallCount(kind) - 1);
  }
}
