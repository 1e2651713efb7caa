/** What the user of a notebook sees: whole runs, restores, openings and closings, page by page. */
module NotebookRuns {
  import opened Options
  import opened NotebookProtocol

  // ----- A run that nothing disturbs -----

  predicate IsDone(query: Query) {
    query.status in {"Finished", "Failed", "Cancelled"}
  }

  /** What a query that is not done shows. */
  function Showing(query: Query): string {
    if query.pendingClusterStart then "Starting cluster" else query.status
  }

  /** A second's wait and a poll for each of the queries. */
  function Polls(k: nat, queries: seq<Query>): seq<Action> {
    if queries == [] then [] else [DelayOver(k), Polled(k, queries[0])] + Polls(k, queries[1..])
  }

  /** Every query but the last is not done. */
  predicate IsAnswered(queries: seq<Query>) {
    && queries != [] && IsDone(queries[|queries| - 1])
    && forall i :: 0 <= i < |queries| - 1 ==> !IsDone(queries[i])
  }

  function Last(queries: seq<Query>): Query
    requires queries != []
  {
    queries[|queries| - 1]
  }

  /** The page while the run waits, when its runtime shows this status and this query. */
  function Waiting(p: Page, r: nat, status: string, active: Option<nat>, phase: Phase): Page
    requires r < |p.runtimes|
  {
    p.(runtimes := p.runtimes[r := Runtime(p.runtimes[r].runSeq + 1, true, status, p.runtimes[r].result, None, active)],
       runs := p.runs + [Run(r, p.runtimes[r].runSeq + 1, phase)])
  }

  /** The page once it has landed. */
  function Landed(p: Page, cell: nat, r: nat, query: Query): Page
    requires r < |p.runtimes|
  {
    var token := p.runtimes[r].runSeq + 1;
    p.(runtimes := p.runtimes[r := Runtime(token, false, query.status, Some(query), None, None)],
       runs := p.runs + [Run(r, token, Returned)],
       landings := p.landings + [Landing(r, token, false)],
       saves := p.saves + (if p.notebook.Some? then [Save(p.notebook.value, cell, |p.runs|, query.id)] else []))
  }

  ghost predicate IsCell(p: Page, cell: nat, r: nat) {
    cell in p.live && p.live[cell] == r && r < |p.runtimes| && r < |p.cells| && p.cells[r] == cell
  }

  lemma RunBegins(p: Page, cell: nat, r: nat)
    requires IsCell(p, cell, r)
    ensures Next(p, BeginRun(cell)) == Waiting(p, r, "Queued", p.runtimes[r].activeQueryId, Submitting)
  {}

  /** The answer to the submission, of a query that is not done and of one that is. */
  lemma SubmissionIsShown(p: Page, cell: nat, r: nat, active: Option<nat>, query: Query)
    requires IsCell(p, cell, r)
    ensures var q := Next(Waiting(p, r, "Queued", active, Submitting), Submitted(|p.runs|, query));
      q == if IsDone(query) then Landed(p, cell, r, query)
           else Waiting(p, r, Showing(query), Some(query.id), Delaying(query))
  {
    var w := Waiting(p, r, "Queued", active, Submitting);
    assert w.runs[|p.runs|] == Run(r, p.runtimes[r].runSeq + 1, Submitting);
    assert forall run :: w.runs[|p.runs| := run] == p.runs + [run];
  }

  /** A second later, and the answer to a poll. */
  lemma PollIsShown(p: Page, cell: nat, r: nat, status: string, active: Option<nat>, before: Query, query: Query)
    requires IsCell(p, cell, r)
    ensures var waiting := Waiting(p, r, status, active, Delaying(before));
      var polling := Waiting(p, r, status, active, Polling(before));
      && Next(waiting, DelayOver(|p.runs|)) == polling
      && Next(polling, Polled(|p.runs|, query)) ==
         if IsDone(query) then Landed(p, cell, r, query)
         else Waiting(p, r, Showing(query), active, Delaying(query))
  {
    forall phase: Phase, run: Run
      ensures Waiting(p, r, status, active, phase).runs[|p.runs| := run] == p.runs + [run] {}
  }

  lemma {:induction false} PollsLand(p: Page, cell: nat, r: nat,
      status: string, active: Option<nat>, before: Query, queries: seq<Query>)
    requires IsCell(p, cell, r) && IsAnswered(queries)
    ensures After(Waiting(p, r, status, active, Delaying(before)), Polls(|p.runs|, queries)) ==
            Landed(p, cell, r, Last(queries))
    decreases |queries|
  {
    hide Next, Landed, Waiting, IsDone;
    var k, query := |p.runs|, queries[0];
    PollIsShown(p, cell, r, status, active, before, query);
    var rest := Polls(k, queries[1..]);
    assert Polls(k, queries) == [DelayOver(k)] + ([Polled(k, query)] + rest);
    AfterOne(Waiting(p, r, status, active, Delaying(before)), DelayOver(k), [Polled(k, query)] + rest);
    AfterOne(Waiting(p, r, status, active, Polling(before)), Polled(k, query), rest);
    if |queries| == 1 {
      AfterNone(Landed(p, cell, r, query));
    } else {
      PollsLand(p, cell, r, Showing(query), active, query, queries[1..]);
    }
  }

  /** A run that nothing disturbs polls as long as its query is not done, whatever it is told
      and however often, and then shows the result, runs no more, and saves it with its cell
      in the notebook that is open; nothing else on the page has changed. */
  lemma RunLands(p: Page, cell: nat, r: nat, queries: seq<Query>)
    requires IsCell(p, cell, r) && IsAnswered(queries)
    ensures After(p, [BeginRun(cell), Submitted(|p.runs|, queries[0])] + Polls(|p.runs|, queries[1..])) ==
            Landed(p, cell, r, Last(queries))
  {
    hide Next, Landed, Waiting, IsDone;
    var k, query, active := |p.runs|, queries[0], p.runtimes[r].activeQueryId;
    var rest := Polls(k, queries[1..]);
    RunBegins(p, cell, r);
    SubmissionIsShown(p, cell, r, active, query);
    AfterOne(p, BeginRun(cell), [Submitted(k, query)] + rest);
    AfterOne(Waiting(p, r, "Queued", active, Submitting), Submitted(k, query), rest);
    assert [BeginRun(cell), Submitted(k, query)] + rest == [BeginRun(cell)] + ([Submitted(k, query)] + rest);
    if |queries| == 1 {
      AfterNone(Landed(p, cell, r, query));
    } else {
      PollsLand(p, cell, r, Showing(query), Some(query.id), query, queries[1..]);
    }
  }

  // ----- Failures and restores -----

  /** A request that fails while the run waits for it ends the run, with the message and without another result. */
  lemma RunFails(p: Page, r: nat, status: string, active: Option<nat>, phase: Phase, message: string)
    requires r < |p.runtimes| && (phase.Submitting? || phase.Polling?)
    ensures var token := p.runtimes[r].runSeq + 1;
      Next(Waiting(p, r, status, active, phase), RequestFailed(|p.runs|, message)) ==
      p.(runtimes := p.runtimes[r :=
           Runtime(token, false, "Failed", p.runtimes[r].result, Some(message), None)],
         runs := p.runs + [Run(r, token, Returned)])
  {
    var w := Waiting(p, r, status, active, phase);
    assert forall run :: w.runs[|p.runs| := run] == p.runs + [run];
  }

  /** A cell without a result that is not running gets the one that is found for it, when that is done. */
  lemma RestoreLands(p: Page, cell: nat, r: nat, found: Option<Query>)
    requires IsCell(p, cell, r) && p.notebook.Some? && p.runtimes[r].result.None? && !p.runtimes[r].running
    ensures var token := p.runtimes[r].runSeq;
      var asked := p.restores + [Restore(r, token, p.notebook.value, true)];
      var answered := p.restores + [Restore(r, token, p.notebook.value, false)];
      && Next(p, BeginRestore(cell)) == p.(restores := asked)
      && Next(p.(restores := asked), RestoreFailed(|p.restores|)) == p.(restores := answered)
      && Next(p.(restores := asked), Restored(|p.restores|, found)) ==
         if found.Some? && IsDone(found.value) then
           p.(restores := answered,
              runtimes := p.runtimes[r := p.runtimes[r].(result := found, status := found.value.status)],
              landings := p.landings + [Landing(r, token, true)])
         else p.(restores := answered)
  {
    var token := p.runtimes[r].runSeq;
    var asked := p.restores + [Restore(r, token, p.notebook.value, true)];
    assert forall restore :: asked[|p.restores| := restore] == p.restores + [restore];
  }

  /** No restore starts on a cell that has a result or is running, nor when no notebook is open. */
  lemma NoRestore(p: Page, cell: nat, r: nat)
    requires IsCell(p, cell, r) && (p.notebook.None? || p.runtimes[r].result.Some? || p.runtimes[r].running)
    ensures Next(p, BeginRestore(cell)) == p
  {}

  // ----- Opening and closing -----

  /** A new runtime shows nothing but that it is ready. */
  predicate IsFresh(r: Runtime) {
    r == Runtime(0, false, "Ready", None, None, None)
  }

  /** All that was on the page stays behind, as it was. */
  ghost predicate Behind(p: Page, q: Page) {
    && p.runtimes <= q.runtimes && p.cells <= q.cells && |q.cells| - |p.cells| == |q.runtimes| - |p.runtimes|
    && q.runs == p.runs && q.restores == p.restores && q.landings == p.landings && q.saves == p.saves
  }

  /** These cells have runtimes of their own that are new, the others the ones they had. */
  ghost predicate CellsAre(p: Page, q: Page, cells: set<nat>) {
    && q.live.Keys == p.live.Keys + cells
    && (forall c :: c in p.live ==> q.live[c] == p.live[c])
    && (forall c :: c in cells && c !in p.live ==>
          |p.runtimes| <= q.live[c] < |q.runtimes| && IsFresh(q.runtimes[q.live[c]])
          && |q.cells| == |q.runtimes| && q.cells[q.live[c]] == c)
  }

  lemma {:induction false} CellsGetRuntimes(p: Page, cells: seq<nat>)
    requires |p.cells| == |p.runtimes|
    ensures Behind(p, InitCells(p, cells)) && InitCells(p, cells).notebook == p.notebook
    ensures CellsAre(p, InitCells(p, cells), CellSet(cells))
    decreases |cells|
  {
    hide Behind, CellsAre, CellSet, InitCellRuntime;
    CellSetFront(cells);
    if cells == [] {
      NoCellsYet(p);
    } else {
      var one := InitCellRuntime(p, cells[0]);
      OneCell(p, cells[0]);
      CellsGetRuntimes(one, cells[1..]);
      OneMoreCell(p, cells[0], one, InitCells(one, cells[1..]), CellSet(cells[1..]));
    }
  }

  function CellSet(cells: seq<nat>): set<nat> {
    set cell | cell in cells
  }

  lemma CellSetFront(cells: seq<nat>)
    ensures CellSet(cells) == if cells == [] then {} else CellSet(cells[1..]) + {cells[0]}
  {
    if cells != [] { assert cells == [cells[0]] + cells[1..]; }
  }

  lemma NoCellsYet(p: Page)
    requires |p.cells| == |p.runtimes|
    ensures Behind(p, p) && CellsAre(p, p, {})
  {}

  lemma OneCell(p: Page, cell: nat)
    requires |p.cells| == |p.runtimes|
    ensures var one := InitCellRuntime(p, cell); |one.cells| == |one.runtimes| && one.notebook == p.notebook
  {}

  lemma OneMoreCell(p: Page, cell: nat, one: Page, q: Page, rest: set<nat>)
    requires |p.cells| == |p.runtimes| && one == InitCellRuntime(p, cell)
    requires Behind(one, q) && CellsAre(one, q, rest)
    ensures Behind(p, q) && CellsAre(p, q, rest + {cell})
  {
    if cell !in p.live { assert one.runtimes[|p.runtimes|] == FRESH && one.cells[|p.cells|] == cell; }
  }

  /** Opening a notebook shows its cells, each ready and with no result; a cell that is added is shown like that too. */
  lemma OpeningShowsReadyCells(p: Page, notebook: nat, cells: seq<nat>, cell: nat)
    requires |p.cells| == |p.runtimes|
    ensures var q := Next(p, Open(notebook, cells));
      q.notebook == Some(notebook) && Behind(p, q) && CellsAre(p.(live := map[]), q, CellSet(cells))
    ensures var q := Next(p, AddCell(cell));
      q.notebook == p.notebook && Behind(p, q) && CellsAre(p, q, {cell})
  {
    CellsGetRuntimes(p.(notebook := Some(notebook), live := map[]), cells);
    CellsGetRuntimes(p, [cell]);
    assert InitCells(InitCellRuntime(p, cell), []) == InitCellRuntime(p, cell);
    assert [cell][1..] == [];
    CellSetFront([cell]);
    CellSetFront([]);
  }

  /** Only the tokens of these runtimes have moved on, by one. */
  ghost predicate OnlyBumped(p: Page, q: Page, gone: set<nat>) {
    && |q.runtimes| == |p.runtimes|
    && forall r :: 0 <= r < |p.runtimes| ==>
         q.runtimes[r] == p.runtimes[r].(runSeq := p.runtimes[r].runSeq + if r in gone then 1 else 0)
  }

  /** Closing takes every cell off the page and every token with it; deleting does so for one cell. */
  lemma ClosingShowsNothing(p: Page, cell: nat)
    ensures var q := Next(p, Close);
      && q == p.(notebook := None, live := map[], runtimes := q.runtimes) && OnlyBumped(p, q, p.live.Values)
    ensures var q := Next(p, DeleteCell(cell));
      if cell in p.live then
        q == p.(live := p.live - {cell}, runtimes := q.runtimes) && OnlyBumped(p, q, {p.live[cell]})
      else q == p
  {}

  // ----- Coroutines that have lost their token -----

  /** A run that has lost its token returns at its next step and
      changes nothing, but that a poll still shows its status. */
  lemma LostRunsReturn(p: Page, k: nat, query: Query, message: string)
    requires k < |p.runs| && p.runs[k].runtime < |p.runtimes|
    requires p.runs[k].token != p.runtimes[p.runs[k].runtime].runSeq
    ensures var r, returned := p.runs[k].runtime, p.(runs := p.runs[k := p.runs[k].(phase := Returned)]);
      && (p.runs[k].phase.Submitting? ==> Next(p, Submitted(k, query)) == returned)
      && (p.runs[k].phase.Delaying? ==> Next(p, DelayOver(k)) == returned)
      && (p.runs[k].phase.Submitting? || p.runs[k].phase.Polling? ==> Next(p, RequestFailed(k, message)) == returned)
      && (p.runs[k].phase.Polling? ==>
          Next(p, Polled(k, query)) ==
          (if IsDone(query) then returned else p.(runs := p.runs[k := p.runs[k].(phase := Delaying(query))]))
            .(runtimes := p.runtimes[r := p.runtimes[r].(status := Showing(query))]))
  {}

  /** A restore that comes back too late writes nothing: another notebook
      is open, or the cell has been run or dropped meanwhile. */
  lemma LateRestoresWriteNothing(p: Page, i: nat, found: Option<Query>)
    requires i < |p.restores| && p.restores[i].waiting && p.restores[i].runtime < |p.runtimes|
    requires p.notebook != Some(p.restores[i].notebook) ||
             p.runtimes[p.restores[i].runtime].runSeq != p.restores[i].token
    ensures Next(p, Restored(i, found)) == p.(restores := p.restores[i := p.restores[i].(waiting := false)])
  {}
}
