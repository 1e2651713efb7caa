/** Notebook cells run as coroutines that interleave at their awaits; a token decides who may write a cell's runtime. */
module NotebookProtocol {
  import opened Options

  /** What the server reports about a query. */
  datatype Query = Query(id: nat, status: string, pendingClusterStart: bool)

  predicate IsTerminal(status: string) {
    status == "Finished" || status == "Failed" || status == "Cancelled"
  }

  function ShownStatus(query: Query): string {
    if query.pendingClusterStart then "Starting cluster" else query.status
  }

  datatype Runtime = Runtime(
    runSeq: nat, running: bool, status: string, result: Option<Query>,
    error: Option<string>, activeQueryId: Option<nat>)

  const FRESH := Runtime(0, false, "Ready", None, None, None)

  /** Where a run waits: for the submission, for the next second, for a poll; or it has returned. */
  datatype Phase = Submitting | Delaying(query: Query) | Polling(query: Query) | Returned

  /** A run keeps the runtime object it started on, by its number, and the token it drew there. */
  datatype Run = Run(runtime: nat, token: nat, phase: Phase)

  datatype Restore = Restore(runtime: nat, token: nat, notebook: nat, waiting: bool)

  /** A result that reached a runtime, in the order of arrival. */
  datatype Landing = Landing(runtime: nat, token: nat, restored: bool)

  /** The request by which a run that has landed saves its query with its cell, in the notebook that is open then. */
  datatype Save = Save(notebook: nat, cell: nat, run: nat, query: nat)

  /** All runtimes ever made with their cells, the ones the open cells
      have, every coroutine ever started and what they sent. */
  datatype Page = Page(
    notebook: Option<nat>, live: map<nat, nat>, runtimes: seq<Runtime>, cells: seq<nat>,
    runs: seq<Run>, restores: seq<Restore>, landings: seq<Landing>, saves: seq<Save>)

  const EMPTY := Page(None, map[], [], [], [], [], [], [])

  /** What can happen between two awaits. */
  datatype Action =
    | Open(notebook: nat, cells: seq<nat>)
    | AddCell(cell: nat)
    | Close
    | DeleteCell(cell: nat)
    | BeginRun(cell: nat)
    | Submitted(run: nat, query: Query)
    | DelayOver(run: nat)
    | Polled(run: nat, query: Query)
    | RequestFailed(run: nat, message: string)
    | BeginRestore(cell: nat)
    | Restored(restore: nat, found: Option<Query>)
    | RestoreFailed(restore: nat)

  // ----- The steps -----

  /** A runtime for the cell, unless it has one. */
  function InitCellRuntime(p: Page, cell: nat): Page {
    if cell in p.live then p
    else p.(live := p.live[cell := |p.runtimes|], runtimes := p.runtimes + [FRESH], cells := p.cells + [cell])
  }

  function InitCells(p: Page, cells: seq<nat>): Page
    decreases |cells|
  {
    if cells == [] then p else InitCells(InitCellRuntime(p, cells[0]), cells[1..])
  }

  function Bumped(r: Runtime): Runtime {
    r.(runSeq := r.runSeq + 1)
  }

  /** The tokens of these runtimes move on, so that no coroutine holds them any more. */
  function Abort(p: Page, gone: set<nat>): Page {
    p.(runtimes := seq(|p.runtimes|,
      r requires 0 <= r < |p.runtimes| => if r in gone then Bumped(p.runtimes[r]) else p.runtimes[r]))
  }

  function CloseNotebook(p: Page): Page {
    Abort(p.(notebook := None, live := map[]), p.live.Values)
  }

  function DeleteNotebookCell(p: Page, cell: nat): Page {
    if cell !in p.live then p else Abort(p.(live := p.live - {cell}), {p.live[cell]})
  }

  function Begin(p: Page, cell: nat): Page {
    if cell !in p.live || p.live[cell] >= |p.runtimes| then p
    else
      var r := p.live[cell];
      var token := p.runtimes[r].runSeq + 1;
      p.(runtimes := p.runtimes[r := p.runtimes[r].(runSeq := token, running := true, error := None,
        status := "Queued")],
         runs := p.runs + [Run(r, token, Submitting)])
  }

  predicate IsRun(p: Page, k: nat) {
    k < |p.runs| && p.runs[k].runtime < |p.runtimes|
  }

  /** The run still has the token of its runtime. */
  predicate Holds(p: Page, k: nat) {
    IsRun(p, k) && p.runs[k].token == p.runtimes[p.runs[k].runtime].runSeq
  }

  function MoveTo(p: Page, k: nat, phase: Phase): Page
    requires k < |p.runs|
  {
    p.(runs := p.runs[k := p.runs[k].(phase := phase)])
  }

  function CellOf(p: Page, r: nat): nat {
    if r < |p.cells| then p.cells[r] else 0
  }

  /** What a run sends when it has landed: nothing when no notebook is open. */
  function Saved(p: Page, k: nat, query: nat): seq<Save>
    requires IsRun(p, k)
  {
    if p.notebook.None? then [] else [Save(p.notebook.value, CellOf(p, p.runs[k].runtime), k, query)]
  }

  /** The end of a run that was polled to a terminal status. */
  function Finish(p: Page, k: nat, query: Query): Page
    requires IsRun(p, k)
  {
    if !Holds(p, k) then MoveTo(p, k, Returned)
    else
      var r := p.runs[k].runtime;
      MoveTo(p, k, Returned).(
        runtimes := p.runtimes[r := p.runtimes[r].(result := Some(query), status := query.status, running := false,
          activeQueryId := None)],
        landings := p.landings + [Landing(r, p.runs[k].token, false)],
        saves := p.saves + Saved(p, k, query.id))
  }

  function WaitOrFinish(p: Page, k: nat, query: Query): Page
    requires IsRun(p, k)
  {
    if IsTerminal(query.status) then Finish(p, k, query) else MoveTo(p, k, Delaying(query))
  }

  function AfterSubmit(p: Page, k: nat, query: Query): Page {
    if !IsRun(p, k) || p.runs[k].phase != Submitting then p
    else if !Holds(p, k) then MoveTo(p, k, Returned)
    else
      var r := p.runs[k].runtime;
      WaitOrFinish(p.(runtimes := p.runtimes[r := p.runtimes[r].(activeQueryId := Some(query.id),
        status := ShownStatus(query))]), k, query)
  }

  function AfterDelay(p: Page, k: nat): Page {
    if !IsRun(p, k) || !p.runs[k].phase.Delaying? then p
    else if !Holds(p, k) then MoveTo(p, k, Returned)
    else MoveTo(p, k, Polling(p.runs[k].phase.query))
  }

  /** A poll's answer sets the status before the token is looked at again. */
  function AfterPoll(p: Page, k: nat, query: Query): Page {
    if !IsRun(p, k) || !p.runs[k].phase.Polling? then p
    else
      var r := p.runs[k].runtime;
      WaitOrFinish(p.(runtimes := p.runtimes[r := p.runtimes[r].(status := ShownStatus(query))]), k, query)
  }

  function AfterFailure(p: Page, k: nat, message: string): Page {
    if !IsRun(p, k) || !(p.runs[k].phase.Submitting? || p.runs[k].phase.Polling?) then p
    else if !Holds(p, k) then MoveTo(p, k, Returned)
    else
      var r := p.runs[k].runtime;
      MoveTo(p, k, Returned).(
        runtimes := p.runtimes[r := p.runtimes[r].(running := false,
          status := "Failed", error := Some(message), activeQueryId := None)])
  }

  function StartRestore(p: Page, cell: nat): Page {
    if p.notebook.None? || cell !in p.live || p.live[cell] >= |p.runtimes| then p
    else
      var r := p.live[cell];
      if p.runtimes[r].result.Some? || p.runtimes[r].running then p
      else p.(restores := p.restores + [Restore(r, p.runtimes[r].runSeq, p.notebook.value, true)])
  }

  function AfterRestore(p: Page, i: nat, query: Option<Query>): Page {
    if i >= |p.restores| || !p.restores[i].waiting || p.restores[i].runtime >= |p.runtimes| then p
    else
      var restore, done := p.restores[i], p.(restores := p.restores[i := p.restores[i].(waiting := false)]);
      var r := restore.runtime;
      if p.notebook != Some(restore.notebook) || p.runtimes[r].runSeq != restore.token then done
      else if query.None? || !IsTerminal(query.value.status) then done
      else done.(
        runtimes := p.runtimes[r := p.runtimes[r].(result := query, status := query.value.status)],
        landings := p.landings + [Landing(r, restore.token, true)])
  }

  function GiveUpRestore(p: Page, i: nat): Page {
    if i >= |p.restores| || !p.restores[i].waiting then p
    else p.(restores := p.restores[i := p.restores[i].(waiting := false)])
  }

  function Next(p: Page, a: Action): Page {
    match a
    case Open(notebook, cells) => InitCells(p.(notebook := Some(notebook), live := map[]), cells)
    case AddCell(cell) => InitCellRuntime(p, cell)
    case Close => CloseNotebook(p)
    case DeleteCell(cell) => DeleteNotebookCell(p, cell)
    case BeginRun(cell) => Begin(p, cell)
    case Submitted(k, query) => AfterSubmit(p, k, query)
    case DelayOver(k) => AfterDelay(p, k)
    case Polled(k, query) => AfterPoll(p, k, query)
    case RequestFailed(k, message) => AfterFailure(p, k, message)
    case BeginRestore(cell) => StartRestore(p, cell)
    case Restored(i, query) => AfterRestore(p, i, query)
    case RestoreFailed(i) => GiveUpRestore(p, i)
  }

  /** Any interleaving: the actions one after the other. */
  function After(p: Page, actions: seq<Action>): Page
    decreases |actions|
  {
    if actions == [] then p else After(Next(p, actions[0]), actions[1..])
  }

  // ----- What every step keeps -----

  predicate InFlight(p: Page, k: nat) {
    IsRun(p, k) && p.runs[k].phase != Returned
  }

  /** A restore that would still be let through to write. */
  predicate MayWrite(p: Page, i: nat) {
    && i < |p.restores| && p.restores[i].waiting && p.restores[i].runtime < |p.runtimes|
    && p.runtimes[p.restores[i].runtime].runSeq == p.restores[i].token
  }

  /** A run's token was drawn from its runtime; while it is in flight and holds it, the runtime is running. */
  predicate RunFits(p: Page, k: nat) {
    && IsRun(p, k)
    && p.runs[k].token <= p.runtimes[p.runs[k].runtime].runSeq
    && (InFlight(p, k) && Holds(p, k) ==> p.runtimes[p.runs[k].runtime].running)
  }

  predicate RestoreFits(p: Page, i: nat) {
    && i < |p.restores|
    && p.restores[i].runtime < |p.runtimes|
    && p.restores[i].token <= p.runtimes[p.restores[i].runtime].runSeq
    && (MayWrite(p, i) ==> !p.runtimes[p.restores[i].runtime].running)
  }

  predicate LandingFits(p: Page, n: nat) {
    && n < |p.landings|
    && p.landings[n].runtime < |p.runtimes|
    && p.landings[n].token <= p.runtimes[p.landings[n].runtime].runSeq
    && p.runtimes[p.landings[n].runtime].result.Some?
  }

  /** The run in flight that holds a runtime's token, where there is one. */
  predicate Owns(p: Page, k: nat, r: nat) {
    InFlight(p, k) && Holds(p, k) && p.runs[k].runtime == r
  }

  ghost predicate HasOwner(p: Page, r: nat) {
    exists k: nat :: Owns(p, k, r)
  }

  ghost predicate CellsFit(p: Page) {
    && (forall cell :: cell in p.live ==> p.live[cell] < |p.runtimes|)
    && (forall c, d :: c in p.live && d in p.live && p.live[c] == p.live[d] ==> c == d)
    && (forall cell :: cell in p.live && p.live[cell] < |p.runtimes| && p.runtimes[p.live[cell]].running ==>
      HasOwner(p, p.live[cell]))
  }

  ghost predicate TokensGrow(p: Page) {
    forall j, k :: 0 <= j < k < |p.runs| && p.runs[j].runtime == p.runs[k].runtime ==> p.runs[j].token < p.runs[k].token
  }

  /** Run landings on a runtime come in token order, nothing restored
      comes after one, and whoever may still write comes later. */
  ghost predicate LandingsGrow(p: Page) {
    && (forall m, n :: 0 <= m < n < |p.landings| && SameRuntime(p, m, n) && !p.landings[m].restored ==>
          !p.landings[n].restored && p.landings[m].token < p.landings[n].token)
    && (forall n, k: nat :: 0 <= n < |p.landings| && !p.landings[n].restored && Owns(p, k, p.landings[n].runtime) ==>
          p.landings[n].token < p.runs[k].token)
    && (forall n, i: nat ::
          0 <= n < |p.landings| && MayWrite(p, i) && p.restores[i].runtime == p.landings[n].runtime ==>
            p.landings[n].restored)
  }

  predicate SameRuntime(p: Page, m: nat, n: nat)
    requires m < |p.landings| && n < |p.landings|
  {
    p.landings[m].runtime == p.landings[n].runtime
  }

  ghost predicate Inv(p: Page) {
    && CellsFit(p)
    && TokensGrow(p)
    && LandingsGrow(p)
    && (forall k: nat :: k < |p.runs| ==> RunFits(p, k))
    && (forall i: nat :: i < |p.restores| ==> RestoreFits(p, i))
    && (forall n: nat :: n < |p.landings| ==> LandingFits(p, n))
  }

  /** The parts of a page that the invariant does not look at may change. */
  lemma SameKeeps(p: Page, q: Page)
    requires Inv(p)
    requires q.live == p.live && q.runs == p.runs && q.restores == p.restores && q.landings == p.landings
    requires |q.runtimes| == |p.runtimes|
    requires forall r :: 0 <= r < |p.runtimes| ==>
               q.runtimes[r].runSeq == p.runtimes[r].runSeq && q.runtimes[r].running == p.runtimes[r].running
               && (p.runtimes[r].result.Some? ==> q.runtimes[r].result.Some?)
    ensures Inv(q)
    ensures forall k: nat, r: nat :: Owns(q, k, r) == Owns(p, k, r)
  {
    assert forall k: nat, r: nat :: Owns(q, k, r) == Owns(p, k, r);
    assert forall i: nat :: MayWrite(q, i) == MayWrite(p, i);
    assert CellsFit(q) by {
      assert forall r: nat :: HasOwner(p, r) ==> HasOwner(q, r);
    }
    forall k: nat | k < |p.runs| ensures RunFits(q, k) { assert RunFits(p, k); }
    forall i: nat | i < |p.restores| ensures RestoreFits(q, i) { assert RestoreFits(p, i); }
    forall n: nat | n < |p.landings| ensures LandingFits(q, n) { assert LandingFits(p, n); }
  }

  /** Cells may go away, with whatever hangs on them. */
  lemma DropKeeps(p: Page, live: map<nat, nat>, notebook: Option<nat>)
    requires Inv(p)
    requires forall cell :: cell in live ==> cell in p.live && live[cell] == p.live[cell]
    ensures Inv(p.(notebook := notebook, live := live))
  {
    var q := p.(notebook := notebook, live := live);
    assert forall k: nat, r: nat :: Owns(q, k, r) == Owns(p, k, r);
    assert forall i: nat :: MayWrite(q, i) == MayWrite(p, i);
    assert CellsFit(q) by {
      assert forall r: nat :: HasOwner(p, r) ==> HasOwner(q, r);
    }
    forall k: nat | k < |p.runs| ensures RunFits(q, k) { assert RunFits(p, k); }
    forall i: nat | i < |p.restores| ensures RestoreFits(q, i) { assert RestoreFits(p, i); }
    forall n: nat | n < |p.landings| ensures LandingFits(q, n) { assert LandingFits(p, n); }
  }

  lemma AbortKeeps(p: Page, gone: set<nat>)
    requires Inv(p)
    requires forall cell :: cell in p.live ==> p.live[cell] !in gone
    ensures Inv(Abort(p, gone))
  {
    var q := Abort(p, gone);
    forall k: nat, r: nat ensures Owns(q, k, r) <==> Owns(p, k, r) && r !in gone {
      if k < |p.runs| { assert RunFits(p, k); }
    }
    forall i: nat | MayWrite(q, i) ensures MayWrite(p, i) {
      assert RestoreFits(p, i);
    }
    assert CellsFit(q) by {
      assert forall r: nat :: HasOwner(p, r) && r !in gone ==> HasOwner(q, r);
    }
    forall k: nat | k < |p.runs| ensures RunFits(q, k) { assert RunFits(p, k); }
    forall i: nat | i < |p.restores| ensures RestoreFits(q, i) { assert RestoreFits(p, i); }
    forall n: nat | n < |p.landings| ensures LandingFits(q, n) { assert LandingFits(p, n); }
  }

  lemma InitOwners(p: Page, cell: nat)
    requires Inv(p)
    ensures forall k: nat, r: nat :: Owns(InitCellRuntime(p, cell), k, r) <==> Owns(p, k, r)
    ensures forall i: nat :: MayWrite(InitCellRuntime(p, cell), i) <==> MayWrite(p, i)
  {
    hide TokensGrow, LandingsGrow, CellsFit, LandingFits;
    var q := InitCellRuntime(p, cell);
    forall k: nat, r: nat ensures Owns(q, k, r) <==> Owns(p, k, r) {
      if k < |p.runs| { assert RunFits(p, k); }
    }
    forall i: nat ensures MayWrite(q, i) <==> MayWrite(p, i) {
      if i < |p.restores| { assert RestoreFits(p, i); }
    }
  }

  lemma InitKeeps(p: Page, cell: nat)
    requires Inv(p)
    ensures Inv(InitCellRuntime(p, cell))
  {
    var q := InitCellRuntime(p, cell);
    InitOwners(p, cell);
    assert CellsFit(q) by {
      hide TokensGrow, LandingsGrow, RunFits, RestoreFits, LandingFits, Owns, MayWrite;
      forall r: nat | HasOwner(p, r) ensures HasOwner(q, r) {
        var k: nat :| Owns(p, k, r);
        assert Owns(q, k, r);
      }
    }
    assert LandingsGrow(q) by {
      hide TokensGrow, CellsFit, RunFits, RestoreFits, LandingFits, Owns, MayWrite;
    }
    assert TokensGrow(q);
    hide TokensGrow, LandingsGrow, CellsFit;
    forall k: nat | k < |p.runs| ensures RunFits(q, k) { assert RunFits(p, k); }
    forall i: nat | i < |p.restores| ensures RestoreFits(q, i) { assert RestoreFits(p, i); }
    forall n: nat | n < |p.landings| ensures LandingFits(q, n) { assert LandingFits(p, n); }
  }

  /** A new run takes its runtime over from the run that had it. */
  lemma BeginOwners(p: Page, cell: nat)
    requires Inv(p) && cell in p.live
    ensures forall k: nat, o: nat :: Owns(Begin(p, cell), k, o) <==>
      if k == |p.runs| then o == p.live[cell] else Owns(p, k, o) && o != p.live[cell]
    ensures forall i: nat :: MayWrite(Begin(p, cell), i) <==> MayWrite(p, i) && p.restores[i].runtime != p.live[cell]
  {
    hide TokensGrow, LandingsGrow;
    var q, r := Begin(p, cell), p.live[cell];
    forall k: nat, o: nat
      ensures Owns(q, k, o) <==> if k == |p.runs| then o == r else Owns(p, k, o) && o != r
    {
      if k < |p.runs| { assert RunFits(p, k); }
    }
    forall i: nat
      ensures MayWrite(q, i) <==> MayWrite(p, i) && p.restores[i].runtime != r
    {
      if i < |p.restores| { assert RestoreFits(p, i); }
    }
  }

  lemma BeginKeeps(p: Page, cell: nat)
    requires Inv(p)
    ensures Inv(Begin(p, cell))
  {
    if cell in p.live {
      var q, r, j := Begin(p, cell), p.live[cell], |p.runs|;
      BeginOwners(p, cell);
      assert CellsFit(q) by {
        hide TokensGrow, LandingsGrow, RunFits, RestoreFits, LandingFits, Owns, MayWrite;
        assert Owns(q, j, r);
        forall o: nat | HasOwner(p, o) && o != r ensures HasOwner(q, o) {
          var k: nat :| Owns(p, k, o);
          assert Owns(q, k, o);
        }
      }
      assert TokensGrow(q) by {
        hide LandingsGrow, RestoreFits, LandingFits, Owns, MayWrite, CellsFit;
        forall i, k | 0 <= i < k < |q.runs| &&
          q.runs[i].runtime == q.runs[k].runtime ensures q.runs[i].token < q.runs[k].token {
          assert RunFits(p, i);
        }
      }
      BeginLandings(p, cell);
      hide TokensGrow, LandingsGrow, CellsFit;
      forall k: nat | k <= j ensures RunFits(q, k) {
        if k < j { assert RunFits(p, k); }
      }
      forall i: nat | i < |p.restores| ensures RestoreFits(q, i) { assert RestoreFits(p, i); }
      forall n: nat | n < |p.landings| ensures LandingFits(q, n) { assert LandingFits(p, n); }
    }
  }

  lemma BeginLandings(p: Page, cell: nat)
    requires Inv(p) && cell in p.live
    ensures LandingsGrow(Begin(p, cell))
  {
    var q, r, j := Begin(p, cell), p.live[cell], |p.runs|;
    BeginOwners(p, cell);
    hide TokensGrow, CellsFit, RunFits, RestoreFits, MayWrite;
    forall n, k: nat | 0 <= n < |q.landings| && !q.landings[n].restored && Owns(q, k, q.landings[n].runtime)
      ensures q.landings[n].token < q.runs[k].token
    {
      assert LandingFits(p, n);
    }
  }

  /** A run goes on, or it returns without having the token. */
  lemma MoveKeeps(p: Page, k: nat, phase: Phase)
    requires Inv(p) && InFlight(p, k)
    requires phase != Returned || !Holds(p, k)
    ensures Inv(MoveTo(p, k, phase))
  {
    var q := MoveTo(p, k, phase);
    forall l: nat, r: nat ensures Owns(q, l, r) <==> Owns(p, l, r) {}
    forall i: nat ensures MayWrite(q, i) <==> MayWrite(p, i) {}
    assert CellsFit(q) by {
      assert forall r: nat :: HasOwner(p, r) ==> HasOwner(q, r);
    }
    forall l: nat | l < |p.runs| ensures RunFits(q, l) { assert RunFits(p, l); }
    forall i: nat | i < |p.restores| ensures RestoreFits(q, i) { assert RestoreFits(p, i); }
    forall n: nat | n < |p.landings| ensures LandingFits(q, n) { assert LandingFits(p, n); }
  }

  /** A run that holds the token returns and leaves its runtime in the state given, with or without a result. */
  function Stop(p: Page, k: nat, last: Runtime, landed: bool): Page
    requires IsRun(p, k)
  {
    MoveTo(p, k, Returned).(
      runtimes := p.runtimes[p.runs[k].runtime := last],
      landings := p.landings + if landed then [Landing(p.runs[k].runtime, p.runs[k].token, false)] else [])
  }

  predicate Stops(p: Page, k: nat, last: Runtime, landed: bool) {
    && InFlight(p, k)
    && Holds(p, k)
    && last.runSeq == p.runs[k].token
    && !last.running
    && (p.runtimes[p.runs[k].runtime].result.Some? || landed ==> last.result.Some?)
  }

  lemma OwnerIsAlone(p: Page, j: nat, k: nat, r: nat)
    requires TokensGrow(p) && Owns(p, j, r) && Owns(p, k, r)
    ensures j == k
  {}

  lemma StopOwners(p: Page, k: nat, last: Runtime, landed: bool)
    requires Inv(p) && Stops(p, k, last, landed)
    ensures forall l: nat, o: nat :: Owns(Stop(p, k, last, landed), l, o) <==> Owns(p, l, o) && o != p.runs[k].runtime
    ensures forall i: nat :: MayWrite(Stop(p, k, last, landed), i) <==> MayWrite(p, i)
    ensures forall i: nat :: MayWrite(p, i) ==> p.restores[i].runtime != p.runs[k].runtime
  {
    var q, r := Stop(p, k, last, landed), p.runs[k].runtime;
    assert Owns(p, k, r) && RunFits(p, k);
    forall l: nat, o: nat ensures Owns(q, l, o) <==> Owns(p, l, o) && o != r {
      if Owns(p, l, o) && o == r { OwnerIsAlone(p, l, k, r); }
    }
    forall i: nat | MayWrite(p, i) ensures p.restores[i].runtime != r { assert RestoreFits(p, i); }
  }

  lemma StopLandings(p: Page, k: nat, last: Runtime, landed: bool)
    requires Inv(p) && Stops(p, k, last, landed)
    ensures LandingsGrow(Stop(p, k, last, landed))
  {
    var q, r := Stop(p, k, last, landed), p.runs[k].runtime;
    assert Owns(p, k, r);
    StopOwners(p, k, last, landed);
    hide TokensGrow, CellsFit, RunFits, RestoreFits, MayWrite, Owns;
    forall n | 0 <= n < |p.landings| ensures q.landings[n] == p.landings[n] {}
  }

  lemma StopKeeps(p: Page, k: nat, last: Runtime, landed: bool)
    requires Inv(p) && Stops(p, k, last, landed)
    ensures Inv(Stop(p, k, last, landed))
  {
    var q, r := Stop(p, k, last, landed), p.runs[k].runtime;
    StopOwners(p, k, last, landed);
    StopLandings(p, k, last, landed);
    assert CellsFit(q) by {
      hide TokensGrow, LandingsGrow, RunFits, RestoreFits, LandingFits, Owns, MayWrite;
      forall o: nat | HasOwner(p, o) && o != r ensures HasOwner(q, o) {
        var l: nat :| Owns(p, l, o);
        assert Owns(q, l, o);
      }
    }
    hide LandingsGrow, CellsFit;
    assert TokensGrow(q);
    hide TokensGrow;
    forall l: nat | l < |p.runs| ensures RunFits(q, l) { assert RunFits(p, l); }
    forall i: nat | i < |p.restores| ensures RestoreFits(q, i) { assert RestoreFits(p, i); }
    forall n: nat | n < |q.landings| ensures LandingFits(q, n) {
      if n < |p.landings| { assert LandingFits(p, n); }
    }
  }

  lemma StartRestoreKeeps(p: Page, cell: nat)
    requires Inv(p)
    ensures Inv(StartRestore(p, cell))
  {
    var q := StartRestore(p, cell);
    RestoreOwners(p, cell);
    RestoreLandings(p, cell);
    assert CellsFit(q) by {
      assert forall r: nat :: HasOwner(p, r) ==> HasOwner(q, r);
    }
    hide LandingsGrow, CellsFit, TokensGrow;
    forall l: nat | l < |p.runs| ensures RunFits(q, l) { assert RunFits(p, l); }
    forall i: nat | i < |q.restores| ensures RestoreFits(q, i) {
      if i < |p.restores| { assert RestoreFits(p, i); }
    }
    forall n: nat | n < |p.landings| ensures LandingFits(q, n) { assert LandingFits(p, n); }
  }

  lemma RestoreOwners(p: Page, cell: nat)
    ensures forall l: nat, r: nat :: Owns(StartRestore(p, cell), l, r) <==> Owns(p, l, r)
    ensures forall i: nat :: i < |p.restores| ==> (MayWrite(StartRestore(p, cell), i) <==> MayWrite(p, i))
  {}

  lemma RestoreLandings(p: Page, cell: nat)
    requires Inv(p)
    ensures LandingsGrow(StartRestore(p, cell)) && TokensGrow(StartRestore(p, cell))
  {
    hide CellsFit, RunFits, RestoreFits, Owns;
    var q := StartRestore(p, cell);
    RestoreOwners(p, cell);
    forall n, i: nat | 0 <= n < |q.landings| && MayWrite(q, i) && q.restores[i].runtime == q.landings[n].runtime
      ensures q.landings[n].restored
    {
      assert LandingFits(p, n);
      if i < |p.restores| { assert MayWrite(p, i); }
    }
  }

  /** A restore comes back, with or without something it may write. */
  lemma RestoreEnds(p: Page, i: nat, last: Runtime, landed: bool)
    requires Inv(p) && i < |p.restores| && p.restores[i].waiting
    requires landed ==> MayWrite(p, i) && last.result.Some? && !last.running && last.runSeq == p.restores[i].token
    ensures Inv(EndRestore(p, i, last, landed))
  {
    var q := EndRestore(p, i, last, landed);
    EndedOwners(p, i, last, landed);
    EndedLandings(p, i, last, landed);
    assert CellsFit(q) by {
      assert RestoreFits(p, i);
      assert forall o: nat :: HasOwner(p, o) ==> HasOwner(q, o);
    }
    hide LandingsGrow, CellsFit, TokensGrow;
    forall l: nat | l < |p.runs| ensures RunFits(q, l) { assert RunFits(p, l) && RestoreFits(p, i); }
    forall j: nat | j < |p.restores| ensures RestoreFits(q, j) { assert RestoreFits(p, j); }
    forall n: nat | n < |q.landings| ensures LandingFits(q, n) {
      if n < |p.landings| { assert LandingFits(p, n); }
    }
  }

  lemma EndedOwners(p: Page, i: nat, last: Runtime, landed: bool)
    requires i < |p.restores| && p.restores[i].waiting
    requires landed ==> MayWrite(p, i) && last.runSeq == p.restores[i].token
    ensures forall l: nat, o: nat :: Owns(EndRestore(p, i, last, landed), l, o) <==> Owns(p, l, o)
    ensures forall j: nat :: MayWrite(EndRestore(p, i, last, landed), j) <==> MayWrite(p, j) && j != i
  {}

  lemma EndedLandings(p: Page, i: nat, last: Runtime, landed: bool)
    requires Inv(p) && i < |p.restores| && p.restores[i].waiting
    requires landed ==> MayWrite(p, i) && last.result.Some? && !last.running && last.runSeq == p.restores[i].token
    ensures LandingsGrow(EndRestore(p, i, last, landed)) && TokensGrow(EndRestore(p, i, last, landed))
  {
    var q, r := EndRestore(p, i, last, landed), p.restores[i].runtime;
    EndedOwners(p, i, last, landed);
    forall k: nat ensures !(Owns(p, k, r) && landed) {
      if k < |p.runs| { assert RunFits(p, k) && RestoreFits(p, i); }
    }
    hide CellsFit, RunFits, RestoreFits, LandingFits, Owns, MayWrite;
    forall n | 0 <= n < |p.landings| ensures q.landings[n] == p.landings[n] {}
  }

  function EndRestore(p: Page, i: nat, last: Runtime, landed: bool): Page
    requires i < |p.restores|
  {
    var q, r := p.(restores := p.restores[i := p.restores[i].(waiting := false)]), p.restores[i].runtime;
    if landed && r < |p.runtimes| then
      q.(runtimes := p.runtimes[r := last], landings := p.landings + [Landing(r, p.restores[i].token, true)])
    else q
  }

  // ----- Every action -----

  lemma InitCellsKeep(p: Page, cells: seq<nat>)
    requires Inv(p)
    ensures Inv(InitCells(p, cells))
    decreases |cells|
  {
    hide Inv;
    if cells != [] {
      InitKeeps(p, cells[0]);
      InitCellsKeep(InitCellRuntime(p, cells[0]), cells[1..]);
    }
  }

  lemma SavesDoNotMatter(p: Page, saves: seq<Save>)
    requires Inv(p)
    ensures Inv(p.(saves := saves))
  {
    SameKeeps(p, p.(saves := saves));
  }

  lemma WaitOrFinishKeeps(p: Page, k: nat, query: Query)
    requires Inv(p) && InFlight(p, k)
    ensures Inv(WaitOrFinish(p, k, query))
  {
    hide Inv;
    if !IsTerminal(query.status) {
      MoveKeeps(p, k, Delaying(query));
    } else if !Holds(p, k) {
      MoveKeeps(p, k, Returned);
    } else {
      var last := p.runtimes[p.runs[k].runtime].(result := Some(query),
        status := query.status, running := false, activeQueryId := None);
      StopKeeps(p, k, last, true);
      var stopped := Stop(p, k, last, true);
      assert stopped.(saves := Finish(p, k, query).saves) == Finish(p, k, query);
      SavesDoNotMatter(stopped, Finish(p, k, query).saves);
    }
  }

  lemma SubmitKeeps(p: Page, k: nat, query: Query)
    requires Inv(p)
    ensures Inv(AfterSubmit(p, k, query))
  {
    if IsRun(p, k) && p.runs[k].phase == Submitting {
      if !Holds(p, k) {
        MoveKeeps(p, k, Returned);
      } else {
        var r := p.runs[k].runtime;
        var q := p.(runtimes := p.runtimes[r := p.runtimes[r].(activeQueryId := Some(query.id),
          status := ShownStatus(query))]);
        SameKeeps(p, q);
        hide Inv;
        WaitOrFinishKeeps(q, k, query);
      }
    }
  }

  lemma PollKeeps(p: Page, k: nat, query: Query)
    requires Inv(p)
    ensures Inv(AfterPoll(p, k, query))
  {
    if IsRun(p, k) && p.runs[k].phase.Polling? {
      var r := p.runs[k].runtime;
      var q := p.(runtimes := p.runtimes[r := p.runtimes[r].(status := ShownStatus(query))]);
      SameKeeps(p, q);
      hide Inv;
      WaitOrFinishKeeps(q, k, query);
    }
  }

  lemma FailureKeeps(p: Page, k: nat, message: string)
    requires Inv(p)
    ensures Inv(AfterFailure(p, k, message))
  {
    hide Inv;
    if IsRun(p, k) && (p.runs[k].phase.Submitting? || p.runs[k].phase.Polling?) {
      if !Holds(p, k) {
        MoveKeeps(p, k, Returned);
      } else {
        var last := p.runtimes[p.runs[k].runtime].(running := false,
          status := "Failed", error := Some(message), activeQueryId := None);
        StopKeeps(p, k, last, false);
        assert Stop(p, k, last, false) == AfterFailure(p, k, message);
      }
    }
  }

  lemma RestoreKeeps(p: Page, i: nat, query: Option<Query>)
    requires Inv(p)
    ensures Inv(AfterRestore(p, i, query))
  {
    if i < |p.restores| && p.restores[i].waiting {
      assert RestoreFits(p, i);
      var r := p.restores[i].runtime;
      var last := if query.Some? then p.runtimes[r].(result := query, status := query.value.status) else p.runtimes[r];
      var landed := p.notebook == Some(p.restores[i].notebook) && MayWrite(p, i) && query.Some? &&
        IsTerminal(query.value.status);
      hide Inv;
      RestoreEnds(p, i, last, landed);
      assert EndRestore(p, i, last, landed) == AfterRestore(p, i, query);
    }
  }

  lemma CloseKeeps(p: Page)
    requires Inv(p)
    ensures Inv(CloseNotebook(p))
  {
    DropKeeps(p, map[], None);
    AbortKeeps(p.(notebook := None, live := map[]), p.live.Values);
  }

  lemma DeleteKeeps(p: Page, cell: nat)
    requires Inv(p)
    ensures Inv(DeleteNotebookCell(p, cell))
  {
    if cell in p.live {
      DropKeeps(p, p.live - {cell}, p.notebook);
      assert CellsFit(p);
      AbortKeeps(p.(live := p.live - {cell}), {p.live[cell]});
    }
  }

  lemma NextKeeps(p: Page, a: Action)
    requires Inv(p)
    ensures Inv(Next(p, a))
  {
    match a
    case Open(notebook, cells) =>
      DropKeeps(p, map[], Some(notebook));
      InitCellsKeep(p.(notebook := Some(notebook), live := map[]), cells);
    case AddCell(cell) => InitKeeps(p, cell);
    case Close => CloseKeeps(p);
    case DeleteCell(cell) => DeleteKeeps(p, cell);
    case BeginRun(cell) => BeginKeeps(p, cell);
    case Submitted(k, query) => SubmitKeeps(p, k, query);
    case DelayOver(k) =>
      if IsRun(p, k) && p.runs[k].phase.Delaying? {
        MoveKeeps(p, k, if Holds(p, k) then Polling(p.runs[k].phase.query) else Returned);
      }
    case Polled(k, query) => PollKeeps(p, k, query);
    case RequestFailed(k, message) => FailureKeeps(p, k, message);
    case BeginRestore(cell) => StartRestoreKeeps(p, cell);
    case Restored(i, query) => RestoreKeeps(p, i, query);
    case RestoreFailed(i) =>
      if i < |p.restores| && p.restores[i].waiting {
        assert RestoreFits(p, i);
        RestoreEnds(p, i, p.runtimes[p.restores[i].runtime], false);
      }
  }

  /** Whatever happens in whatever order, the invariant holds. */
  lemma {:induction false} AlwaysInv(p: Page, actions: seq<Action>)
    requires Inv(p)
    ensures Inv(After(p, actions))
    decreases |actions|
  {
    if actions != [] {
      NextKeeps(p, actions[0]);
      AlwaysInv(Next(p, actions[0]), actions[1..]);
    }
  }

  // ----- Who writes what -----

  /** The part of a runtime that the token guards. */
  function Guarded(r: Runtime): (Option<Query>, bool, Option<string>, Option<nat>) {
    (r.result, r.running, r.error, r.activeQueryId)
  }

  /** The step that may write runtime r: a run of its cell begins, the run that holds its token moves,
      or a restore with its token comes back (which writes nothing but the result). */
  predicate IsWriter(p: Page, a: Action, r: nat) {
    match a
    case BeginRun(cell) => cell in p.live && p.live[cell] == r
    case Submitted(k, query) => Owns(p, k, r)
    case Polled(k, query) => Owns(p, k, r)
    case RequestFailed(k, message) => Owns(p, k, r)
    case Restored(i, query) => MayWrite(p, i) && p.restores[i].runtime == r &&
      p.notebook == Some(p.restores[i].notebook)
    case _ => false
  }

  /** Runtimes never go away, their tokens never go back, and no step but a writer's touches the guarded fields. */
  lemma OnlyTheOwnerWrites(p: Page, a: Action, r: nat)
    requires Inv(p) && r < |p.runtimes|
    ensures r < |Next(p, a).runtimes|
    ensures p.runtimes[r].runSeq <= Next(p, a).runtimes[r].runSeq
    ensures Guarded(Next(p, a).runtimes[r]) != Guarded(p.runtimes[r]) ==> IsWriter(p, a, r)
    ensures a.Restored? ==> Next(p, a).runtimes[r] == p.runtimes[r].(result := Next(p, a).runtimes[r].result,
      status := Next(p, a).runtimes[r].status)
    ensures IsWriter(p, a, r) && a.Restored? ==> !p.runtimes[r].running && !HasOwner(p, r)
  {
    hide Inv, Guarded;
    match a
    case Open(notebook, cells) => InitCellsTouchNothing(p.(notebook := Some(notebook), live := map[]), cells, r);
    case Restored(i, query) => RestoresWaitForNoRun(p, i, r);
    case _ => OthersWrite(p, a, r);
  }

  lemma OthersWrite(p: Page, a: Action, r: nat)
    requires r < |p.runtimes| && !a.Open? && !a.Restored?
    ensures r < |Next(p, a).runtimes|
    ensures p.runtimes[r].runSeq <= Next(p, a).runtimes[r].runSeq
    ensures Guarded(Next(p, a).runtimes[r]) != Guarded(p.runtimes[r]) ==> IsWriter(p, a, r)
  {}

  lemma RestoresWaitForNoRun(p: Page, i: nat, r: nat)
    requires Inv(p)
    ensures MayWrite(p, i) && p.restores[i].runtime == r ==> !p.runtimes[r].running && !HasOwner(p, r)
  {
    if MayWrite(p, i) && p.restores[i].runtime == r {
      assert RestoreFits(p, i);
      forall k: nat ensures !Owns(p, k, r) {
        if k < |p.runs| { assert RunFits(p, k); }
      }
    }
  }

  lemma InitCellsTouchNothing(p: Page, cells: seq<nat>, r: nat)
    requires r < |p.runtimes|
    ensures r < |InitCells(p, cells).runtimes| && InitCells(p, cells).runtimes[r] == p.runtimes[r]
    decreases |cells|
  {
    if cells != [] {
      InitCellsTouchNothing(InitCellRuntime(p, cells[0]), cells[1..], r);
    }
  }

  /** Any step with the status: the writers, and a poll of a run that may have lost its token. */
  predicate MayShow(p: Page, a: Action, r: nat) {
    IsWriter(p, a, r) || (a.Polled? && InFlight(p, a.run) && p.runs[a.run].phase.Polling? && p.runs[a.run].runtime == r)
  }

  lemma StatusHasOneMoreWriter(p: Page, a: Action, r: nat)
    requires Inv(p) && r < |p.runtimes|
    ensures r < |Next(p, a).runtimes|
    ensures Next(p, a).runtimes[r].status != p.runtimes[r].status ==> MayShow(p, a, r)
    ensures a.Polled? && MayShow(p, a, r) && !Owns(p, a.run, r) ==>
      Next(p, a).runtimes[r].status == ShownStatus(a.query)
  {
    hide Inv;
    match a
    case Open(notebook, cells) => InitCellsTouchNothing(p.(notebook := Some(notebook), live := map[]), cells, r);
    case _ =>
  }

  /** A result changes only by a landing, and what lands is the terminal query the step brings. */
  lemma LandingsRecordResults(p: Page, a: Action, r: nat)
    requires Inv(p) && r < |p.runtimes|
    ensures r < |Next(p, a).runtimes|
    ensures p.landings <= Next(p, a).landings
    ensures
      if |Next(p, a).landings| == |p.landings| || Next(p, a).landings[|p.landings|].runtime != r then
        Next(p, a).runtimes[r].result == p.runtimes[r].result
      else
        && (a.Submitted? || a.Polled? || a.Restored?)
        && Next(p, a).runtimes[r].result == (if a.Restored? then a.found else Some(a.query))
        && Next(p, a).runtimes[r].result.Some?
        && IsTerminal(Next(p, a).runtimes[r].result.value.status)
        && Next(p, a).runtimes[r].status == Next(p, a).runtimes[r].result.value.status
        && Next(p, a).landings[|p.landings|].token == p.runtimes[r].runSeq
        && Next(p, a).landings[|p.landings|].restored == a.Restored?
  {
    hide Inv;
    match a
    case Open(notebook, cells) =>
      InitCellsTouchNothing(p.(notebook := Some(notebook), live := map[]), cells, r);
      InitCellsLandNothing(p.(notebook := Some(notebook), live := map[]), cells);
    case _ =>
  }

  lemma InitCellsLandNothing(p: Page, cells: seq<nat>)
    ensures InitCells(p, cells).landings == p.landings
    decreases |cells|
  {
    if cells != [] {
      InitCellsLandNothing(InitCellRuntime(p, cells[0]), cells[1..]);
    }
  }

  // ----- Whole sessions -----

  lemma {:induction false} EmptyInv()
    ensures Inv(EMPTY)
  {
    assert CellsFit(EMPTY);
    assert TokensGrow(EMPTY);
    assert LandingsGrow(EMPTY) by {
      assert EMPTY.landings == [];
    }
  }

  /** In every session: results of runs arrive on a runtime in token order, and a restored one never after a run's. */
  lemma ResultsLandInOrder(actions: seq<Action>, m: nat, n: nat)
    requires m < n < |After(EMPTY, actions).landings|
    requires After(EMPTY, actions).landings[m].runtime == After(EMPTY, actions).landings[n].runtime
    requires !After(EMPTY, actions).landings[m].restored
    ensures !After(EMPTY, actions).landings[n].restored
    ensures After(EMPTY, actions).landings[m].token < After(EMPTY, actions).landings[n].token
  {
    EmptyInv();
    AlwaysInv(EMPTY, actions);
  }

  /** The run in flight that holds the token of a running cell, and no other. */
  ghost predicate RunsOnce(p: Page, r: nat) {
    && r < |p.runtimes|
    && (p.runtimes[r].running <==> HasOwner(p, r))
    && forall j: nat, k: nat :: Owns(p, j, r) && Owns(p, k, r) ==> j == k
  }

  lemma OpenCellsRunOnce(p: Page, cell: nat)
    requires Inv(p) && cell in p.live
    ensures RunsOnce(p, p.live[cell])
  {
    var r := p.live[cell];
    forall j: nat, k: nat | Owns(p, j, r) && Owns(p, k, r) ensures j == k {
      OwnerIsAlone(p, j, k, r);
    }
    if HasOwner(p, r) {
      var k: nat :| Owns(p, k, r);
      assert RunFits(p, k);
    }
  }

  /** In every session: an open cell is running exactly when some run in
      flight holds its token, and that run is the only one. */
  lemma RunningMeansOneRun(actions: seq<Action>, cell: nat)
    requires cell in After(EMPTY, actions).live
    ensures RunsOnce(After(EMPTY, actions), After(EMPTY, actions).live[cell])
  {
    EmptyInv();
    AlwaysInv(EMPTY, actions);
    OpenCellsRunOnce(After(EMPTY, actions), cell);
  }

  /** An error is shown only when nothing runs, and a query is active only while something does. */
  predicate IsTidy(r: Runtime) {
    (r.error.Some? ==> !r.running) && (r.activeQueryId.Some? ==> r.running)
  }

  predicate AllTidy(p: Page) {
    forall r :: 0 <= r < |p.runtimes| ==> IsTidy(p.runtimes[r])
  }

  lemma NextStaysTidy(p: Page, a: Action)
    requires Inv(p) && AllTidy(p)
    ensures AllTidy(Next(p, a))
  {
    hide Inv, AllTidy;
    match a
    case Open(notebook, cells) => OpeningStaysTidy(p, notebook, cells);
    case Submitted(k, query) => SubmissionStaysTidy(p, k, query);
    case _ => OthersStayTidy(p, a);
  }

  lemma OpeningStaysTidy(p: Page, notebook: nat, cells: seq<nat>)
    requires AllTidy(p)
    ensures AllTidy(Next(p, Open(notebook, cells)))
  {
    InitCellsStayTidy(p.(notebook := Some(notebook), live := map[]), cells);
  }

  lemma OthersStayTidy(p: Page, a: Action)
    requires AllTidy(p) && !a.Open? && !a.Submitted?
    ensures AllTidy(Next(p, a))
  {}

  /** Only a running runtime gets an active query. */
  lemma SubmissionStaysTidy(p: Page, k: nat, query: Query)
    requires Inv(p) && AllTidy(p)
    ensures AllTidy(AfterSubmit(p, k, query))
  {
    if k < |p.runs| { assert RunFits(p, k); }
    hide Inv;
  }

  lemma InitCellsStayTidy(p: Page, cells: seq<nat>)
    requires AllTidy(p)
    ensures AllTidy(InitCells(p, cells))
    decreases |cells|
  {
    if cells != [] { InitCellsStayTidy(InitCellRuntime(p, cells[0]), cells[1..]); }
  }

  /** In every session that goes on from a tidy page, whatever the interleaving. */
  lemma {:induction false} AlwaysTidy(p: Page, actions: seq<Action>)
    requires Inv(p) && AllTidy(p)
    ensures AllTidy(After(p, actions))
    decreases |actions|
  {
    if actions != [] {
      NextStaysTidy(p, actions[0]);
      NextKeeps(p, actions[0]);
      hide Inv, AllTidy;
      AlwaysTidy(Next(p, actions[0]), actions[1..]);
    }
  }

  /** A run that holds the token and fails says so, and leaves the last result. */
  lemma FailureIsShown(p: Page, k: nat, message: string, r: nat)
    requires Inv(p) && Owns(p, k, r) && !p.runs[k].phase.Delaying?
    ensures var after := Next(p, RequestFailed(k, message));
      && r < |after.runtimes|
      && after.runtimes[r].error == Some(message) && after.runtimes[r].status == "Failed"
      && !after.runtimes[r].running && after.runtimes[r].result == p.runtimes[r].result
      && !HasOwner(after, r)
  {
    FailureKeeps(p, k, message);
    var after := Next(p, RequestFailed(k, message));
    forall j: nat ensures !Owns(after, j, r) {
      if j < |after.runs| { assert RunFits(after, j); }
    }
  }

  /** Nobody can write to this runtime any more. */
  ghost predicate Silent(p: Page, r: nat) {
    && r < |p.runtimes|
    && r !in p.live.Values
    && !HasOwner(p, r)
    && forall i: nat :: MayWrite(p, i) ==> p.restores[i].runtime != r
  }

  lemma AbortSilences(p: Page, gone: set<nat>, r: nat)
    requires Inv(p) && r in gone && r < |p.runtimes| && r !in p.live.Values
    ensures Silent(Abort(p, gone), r)
  {
    var q := Abort(p, gone);
    forall k: nat ensures !Owns(q, k, r) {
      if k < |p.runs| { assert RunFits(p, k); }
    }
    forall i: nat | MayWrite(q, i) ensures q.restores[i].runtime != r {
      assert RestoreFits(p, i);
    }
  }

  /** Closing the notebook, or deleting the cell, silences the runtimes it had. */
  lemma ClosingSilences(p: Page, cell: nat)
    requires Inv(p) && cell in p.live
    ensures Silent(CloseNotebook(p), p.live[cell])
    ensures Silent(DeleteNotebookCell(p, cell), p.live[cell])
  {
    var closed, dropped := p.(notebook := None, live := map[]), p.(live := p.live - {cell});
    DropKeeps(p, map[], None);
    DropKeeps(p, dropped.live, p.notebook);
    AbortSilences(closed, p.live.Values, p.live[cell]);
    AbortSilences(dropped, {p.live[cell]}, p.live[cell]);
  }

  /** A run keeps its runtime and its token, stays returned, and
      starts on the runtime of an open cell; so do restores. */
  lemma CoroutinesStay(p: Page, a: Action)
    ensures |p.runs| <= |Next(p, a).runs| && |p.restores| <= |Next(p, a).restores|
    ensures forall k: nat :: k < |p.runs| ==>
      Next(p, a).runs[k].(phase := p.runs[k].phase) == p.runs[k] && (p.runs[k].phase == Returned ==>
        Next(p, a).runs[k] == p.runs[k])
    ensures forall k: nat :: |p.runs| <= k < |Next(p, a).runs| ==> Next(p, a).runs[k].runtime in p.live.Values
    ensures forall i: nat :: i < |p.restores| ==>
      Next(p, a).restores[i].(waiting := true) == p.restores[i].(waiting := true) &&
        (Next(p, a).restores[i].waiting ==> p.restores[i].waiting)
    ensures forall i: nat :: |p.restores| <= i < |Next(p, a).restores| ==>
      Next(p, a).restores[i].runtime in p.live.Values
  {
    if a.Open? {
      InitCellsAreNew(p.(notebook := Some(a.notebook), live := map[]), a.cells);
    } else if a.BeginRun? || a.BeginRestore? {
      BeginningsAreAdded(p, a);
    } else {
      OthersStay(p, a);
    }
  }

  lemma BeginningsAreAdded(p: Page, a: Action)
    requires a.BeginRun? || a.BeginRestore?
    ensures p.runs <= Next(p, a).runs && p.restores <= Next(p, a).restores
    ensures forall k: nat :: |p.runs| <= k < |Next(p, a).runs| ==> Next(p, a).runs[k].runtime in p.live.Values
    ensures forall i: nat :: |p.restores| <= i < |Next(p, a).restores| ==>
      Next(p, a).restores[i].runtime in p.live.Values
  {}

  lemma OthersStay(p: Page, a: Action)
    requires !a.Open? && !a.BeginRun? && !a.BeginRestore?
    ensures |p.runs| == |Next(p, a).runs| && |p.restores| == |Next(p, a).restores|
    ensures forall k: nat :: k < |p.runs| ==>
      Next(p, a).runs[k].(phase := p.runs[k].phase) == p.runs[k] && (p.runs[k].phase == Returned ==>
        Next(p, a).runs[k] == p.runs[k])
    ensures forall i: nat :: i < |p.restores| ==>
      Next(p, a).restores[i].(waiting := true) == p.restores[i].(waiting := true) &&
        (Next(p, a).restores[i].waiting ==> p.restores[i].waiting)
  {
    hide Next;
    if a.Submitted? || a.DelayOver? || a.Polled? || a.RequestFailed? {
      OtherRunsStay(p, a);
    } else {
      OtherRestoresStay(p, a);
    }
  }

  lemma OtherRunsStay(p: Page, a: Action)
    requires a.Submitted? || a.DelayOver? || a.Polled? || a.RequestFailed?
    ensures |p.runs| == |Next(p, a).runs| && p.restores == Next(p, a).restores
    ensures forall k: nat :: k < |p.runs| ==>
      Next(p, a).runs[k].(phase := p.runs[k].phase) == p.runs[k] && (p.runs[k].phase == Returned ==>
        Next(p, a).runs[k] == p.runs[k])
  {}

  lemma OtherRestoresStay(p: Page, a: Action)
    requires a.AddCell? || a.Close? || a.DeleteCell? || a.Restored? || a.RestoreFailed?
    ensures p.runs == Next(p, a).runs && |p.restores| == |Next(p, a).restores|
    ensures forall i: nat :: i < |p.restores| ==>
      Next(p, a).restores[i].(waiting := true) == p.restores[i].(waiting := true) &&
        (Next(p, a).restores[i].waiting ==> p.restores[i].waiting)
  {}

  lemma NewCellsAreNew(p: Page, a: Action, r: nat)
    requires r < |p.runtimes|
    ensures r in Next(p, a).live.Values ==> r in p.live.Values
  {
    match a
    case Open(notebook, cells) => InitCellsAreNew(p.(notebook := Some(notebook), live := map[]), cells);
    case _ =>
  }

  /** Coroutines are never forgotten nor revived; a new one starts on the runtime of an open cell. */
  lemma CoroutinesOnlyEnd(p: Page, a: Action, r: nat)
    requires Inv(p) && r < |p.runtimes|
    ensures forall k: nat :: Owns(Next(p, a), k, r) ==> Owns(p, k, r) || r in p.live.Values
    ensures forall i: nat :: MayWrite(Next(p, a), i) && Next(p, a).restores[i].runtime == r ==>
                               (MayWrite(p, i) && p.restores[i].runtime == r) || r in p.live.Values
  {
    var q := Next(p, a);
    OnlyTheOwnerWrites(p, a, r);
    CoroutinesStay(p, a);
    forall k: nat | k < |p.runs| ensures RunFits(p, k) {}
    forall i: nat | i < |p.restores| ensures RestoreFits(p, i) {}
    hide Inv, Next;
    forall k: nat | Owns(q, k, r) ensures Owns(p, k, r) || r in p.live.Values {
      if k < |p.runs| { assert RunFits(p, k); }
    }
    forall i: nat | MayWrite(q, i) && q.restores[i].runtime == r
      ensures (MayWrite(p, i) && p.restores[i].runtime == r) || r in p.live.Values
    {
      if i < |p.restores| { assert RestoreFits(p, i); }
    }
  }

  lemma InitCellsAreNew(p: Page, cells: seq<nat>)
    ensures InitCells(p, cells).runs == p.runs && InitCells(p, cells).restores == p.restores
    ensures forall r :: r in InitCells(p, cells).live.Values && r < |p.runtimes| ==> r in p.live.Values
    decreases |cells|
  {
    if cells != [] {
      InitCellsAreNew(InitCellRuntime(p, cells[0]), cells[1..]);
    }
  }

  /** Once silent, a runtime keeps its result, its error and its other guarded fields through every later session. */
  lemma {:induction false} SilenceLasts(p: Page, actions: seq<Action>, r: nat)
    requires Inv(p) && Silent(p, r)
    ensures r < |After(p, actions).runtimes|
    ensures Guarded(After(p, actions).runtimes[r]) == Guarded(p.runtimes[r])
    ensures Silent(After(p, actions), r)
    decreases |actions|
  {
    if actions != [] {
      var q := Next(p, actions[0]);
      OnlyTheOwnerWrites(p, actions[0], r);
      CoroutinesOnlyEnd(p, actions[0], r);
      NewCellsAreNew(p, actions[0], r);
      NextKeeps(p, actions[0]);
      hide Inv;
      SilenceLasts(q, actions[1..], r);
    }
  }

  /** A poll of run k, which does not own the cell's runtime, changes the status that is shown there. */
  predicate StaleShow(p: Page, k: nat, query: Query, cell: nat) {
    && cell in p.live && p.live[cell] < |p.runtimes| && p.live[cell] < |Next(p, Polled(k, query)).runtimes|
    && !Owns(p, k, p.live[cell])
    && Next(p, Polled(k, query)).runtimes[p.live[cell]].status != p.runtimes[p.live[cell]].status
  }

  const RUNNING := Query(1, "Running", false)
  const FIRST_RUN := Runtime(1, true, "Running", None, None, Some(1))

  /** The pages of a session in which cell 7 is run, polled, and run again. */
  const OPEN_PAGE := Page(Some(1), map[7 := 0], [FRESH], [7], [], [], [], [])
  const RUN_PAGE := OPEN_PAGE.(
    runtimes := [Runtime(1, true, "Queued", None, None, None)], runs := [Run(0, 1, Submitting)])
  const SUBMITTED_PAGE := OPEN_PAGE.(runtimes := [FIRST_RUN], runs := [Run(0, 1, Delaying(RUNNING))])
  const POLLING_PAGE := OPEN_PAGE.(runtimes := [FIRST_RUN], runs := [Run(0, 1, Polling(RUNNING))])
  const RERUN_PAGE := OPEN_PAGE.(
    runtimes := [FIRST_RUN.(runSeq := 2, status := "Queued")],
    runs := [Run(0, 1, Polling(RUNNING)), Run(0, 2, Submitting)])

  lemma SessionOpens()
    ensures Next(EMPTY, Open(1, [7])) == OPEN_PAGE
    ensures Next(OPEN_PAGE, BeginRun(7)) == RUN_PAGE
  {
    assert InitCells(EMPTY.(notebook := Some(1)), [7]) ==
      InitCells(InitCellRuntime(EMPTY.(notebook := Some(1)), 7), []);
  }

  lemma SessionGoesOn()
    ensures Next(RUN_PAGE, Submitted(0, RUNNING)) == SUBMITTED_PAGE
    ensures Next(SUBMITTED_PAGE, DelayOver(0)) == POLLING_PAGE
    ensures Next(POLLING_PAGE, BeginRun(7)) == RERUN_PAGE
  {}

  lemma AfterOne(p: Page, a: Action, rest: seq<Action>)
    ensures After(p, [a] + rest) == After(Next(p, a), rest)
  {}

  lemma AfterNone(p: Page)
    ensures After(p, []) == p
  {}

  lemma StaleRunShows()
    ensures StaleShow(RERUN_PAGE, 0, RUNNING, 7)
  {}

  /** The status is not guarded: here the second run of cell 7 has the token, and the first one's poll still shows. */
  lemma StaleStatusShows()
    ensures exists actions: seq<Action>, k: nat, query: Query :: StaleShow(After(EMPTY, actions), k, query, 7)
  {
    hide Next, StaleShow, OPEN_PAGE, RUN_PAGE, SUBMITTED_PAGE, POLLING_PAGE, RERUN_PAGE, RUNNING, EMPTY, After;
    StaleRunShows();
    SessionOpens();
    SessionGoesOn();
    AfterNone(RERUN_PAGE);
    var last := [BeginRun(7)];
    AfterOne(POLLING_PAGE, BeginRun(7), []);
    assert [BeginRun(7)] + [] == last;
    AfterOne(SUBMITTED_PAGE, DelayOver(0), last);
    AfterOne(RUN_PAGE, Submitted(0, RUNNING), [DelayOver(0)] + last);
    AfterOne(OPEN_PAGE, BeginRun(7), [Submitted(0, RUNNING)] + ([DelayOver(0)] + last));
    AfterOne(EMPTY, Open(1, [7]), [BeginRun(7)] + ([Submitted(0, RUNNING)] + ([DelayOver(0)] + last)));
  }
}
