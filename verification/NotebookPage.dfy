/** The notebook page as it runs: runtimes are objects that its coroutines keep hold of, and every stretch
    of code between two awaits is a method that does what NotebookProtocol says of its step. */
module NotebookPage {
  import opened Options
  import opened NotebookProtocol

  /** The runtimes of these cells. */
  ghost function RuntimesOf(live: map<nat, nat>, cells: set<nat>): set<nat> {
    set cell | cell in cells && cell in live :: live[cell]
  }

  lemma OneMoreRuntime(live: map<nat, nat>, cells: set<nat>, left: set<nat>, cell: nat)
    requires cell in left && left <= cells && cell in live
    requires forall c, d :: c in live && d in live && live[c] == live[d] ==> c == d
    ensures RuntimesOf(live, cells - (left - {cell})) == RuntimesOf(live, cells - left) + {live[cell]}
    ensures live[cell] !in RuntimesOf(live, cells - left)
  {
    assert cells - (left - {cell}) == (cells - left) + {cell};
  }

  /** Taking tokens away touches the runtimes only, whatever else is on the page. */
  lemma AbortOfAnyPage(p: Page, q: Page, gone: set<nat>)
    requires q.runtimes == p.runtimes
    ensures NotebookProtocol.Abort(q, gone) == q.(runtimes := NotebookProtocol.Abort(p, gone).runtimes)
  {}

  lemma BumpOneMore(p: Page, gone: set<nat>, r: nat)
    requires r < |p.runtimes| && r !in gone
    ensures NotebookProtocol.Abort(p, gone + {r}).runtimes == NotebookProtocol.Abort(p,
      gone).runtimes[r := Bumped(NotebookProtocol.Abort(p, gone).runtimes[r])]
  {}

  /** The failure of run k is shown on runtime r. */
  predicate Failed(p: Page, k: nat, message: string, r: nat)
    requires r < |p.runtimes|
  {
    var after := Next(p, RequestFailed(k, message));
    && r < |after.runtimes|
    && after.runtimes[r].error == Some(message) && !after.runtimes[r].running &&
      after.runtimes[r].result == p.runtimes[r].result
  }

  /** A new run makes the cell's runtime running, and is the one that holds its token. */
  lemma RunBegins(p: Page, cell: nat)
    requires Inv(p) && cell in p.live
    ensures var r, q := p.live[cell], Next(p, BeginRun(cell));
      && r < |q.runtimes| && q.runtimes[r].running && q.runtimes[r].error == None
      && forall k: nat :: Owns(q, k, r) <==> k == |p.runs|
  {
    BeginOwners(p, cell);
  }

  lemma DeletingSilences(p: Page, cell: nat)
    requires Inv(p) && cell in p.live
    ensures Silent(Next(p, DeleteCell(cell)), p.live[cell])
    ensures Silent(Next(p, Close), p.live[cell])
  {
    hide Inv, Silent;
    ClosingSilences(p, cell);
  }

  /** What every step keeps, of the page and of the runtimes that it may not write. */
  lemma StepKeeps(p: Page, a: Action)
    requires Inv(p) && AllTidy(p)
    ensures Inv(Next(p, a)) && AllTidy(Next(p, a)) && |p.runtimes| <= |Next(p, a).runtimes|
    ensures forall r: nat :: r < |p.runtimes| && !IsWriter(p, a, r) ==>
      Guarded(Next(p, a).runtimes[r]) == Guarded(p.runtimes[r])
  {
    NextKeeps(p, a);
    NextStaysTidy(p, a);
    NothingGoesAway(p, a);
    forall r: nat | r < |p.runtimes| && !IsWriter(p, a, r)
      ensures Guarded(Next(p, a).runtimes[r]) == Guarded(p.runtimes[r])
    {
      OnlyTheOwnerWrites(p, a, r);
    }
  }

  lemma NothingGoesAway(p: Page, a: Action)
    requires Inv(p)
    ensures |p.runtimes| <= |Next(p, a).runtimes|
  {
    if p.runtimes != [] { OnlyTheOwnerWrites(p, a, |p.runtimes| - 1); }
  }

  class CellRuntime {
    var runSeq: nat
    var running: bool
    var status: string
    var result: Option<Query>
    var error: Option<string>
    var activeQueryId: Option<nat>

    constructor ()
      ensures View() == FRESH
    {
      runSeq, running, status, result, error, activeQueryId := 0, false, "Ready", None, None, None;
    }

    function View(): Runtime
      reads this
    {
      Runtime(runSeq, running, status, result, error, activeQueryId)
    }
  }

  class Notebooks {
    var activeNotebookId: Option<nat>
    /** The cells' runtimes and those that coroutines still have, by their place in runtimes. */
    var cellRuntime: map<nat, nat>
    var runtimes: seq<CellRuntime>
    var runs: seq<Run>
    var restores: seq<Restore>
    /** The cell that each of the runtimes was made for. */
    var cells: seq<nat>
    ghost var landings: seq<Landing>
    /** What was sent to the server, by way of a record. */
    var saves: seq<Save>

    ghost predicate Wired()
      reads this
    {
      && (forall i, j :: 0 <= i < j < |runtimes| ==> runtimes[i] != runtimes[j])
      && |cells| == |runtimes|
      && (forall cell :: cell in cellRuntime ==> cellRuntime[cell] < |runtimes|)
      && (forall c, d :: c in cellRuntime && d in cellRuntime && cellRuntime[c] == cellRuntime[d] ==> c == d)
      && (forall k :: 0 <= k < |runs| ==> runs[k].runtime < |runtimes|)
      && (forall i :: 0 <= i < |restores| ==> restores[i].runtime < |runtimes|)
    }

    /** The page is wired up, and a page that some session can lead to. */
    ghost predicate Valid()
      reads this, runtimes
    {
      Wired() && Inv(View()) && AllTidy(View())
    }

    /** Of the runtimes there were, none but those that this step may write
        has another result, error, running state or active query. */
    twostate predicate OnlyWriters(a: Action)
      requires old(Wired()) && old(runtimes) <= runtimes
      reads this, runtimes
    {
      forall r: nat :: r < |old(runtimes)| && !IsWriter(old(View()), a, r) ==>
        Guarded(runtimes[r].View()) == Guarded(old(runtimes[r].View()))
    }

    ghost function Views(): (s: seq<Runtime>)
      reads this, runtimes
    {
      seq(|runtimes|, i requires 0 <= i < |runtimes| reads this, runtimes => runtimes[i].View())
    }

    ghost function View(): Page
      reads this, runtimes
    {
      Page(activeNotebookId, cellRuntime, Views(), cells, runs, restores, landings, saves)
    }

    constructor ()
      ensures Valid() && View() == EMPTY
    {
      activeNotebookId, cellRuntime, runtimes, cells := None, map[], [], [];
      runs, restores, landings, saves := [], [], [], [];
      EmptyInv();
    }

    method AddRuntime(cell: nat)
      requires Wired()
      modifies this
      ensures Wired() && old(runtimes) <= runtimes && fresh(runtimes[|old(runtimes)|..])
      ensures View() == NotebookProtocol.InitCellRuntime(old(View()), cell)
    {
      if cell in cellRuntime { return; }
      var runtime := new CellRuntime();
      cellRuntime := cellRuntime[cell := |runtimes|];
      runtimes := runtimes + [runtime];
      cells := cells + [cell];
    }

    method TakeCells(id: nat, cells: seq<nat>)
      requires Wired()
      modifies this
      ensures Wired() && old(runtimes) <= runtimes && fresh(runtimes[|old(runtimes)|..])
      ensures View() == Next(old(View()), Open(id, cells))
    {
      hide InitCells;
      activeNotebookId := Some(id);
      cellRuntime := map[];
      assert View() == old(View()).(notebook := Some(id), live := map[]);
      AddRuntimes(cells);
    }

    method AddRuntimes(cells: seq<nat>)
      requires Wired()
      modifies this
      ensures Wired() && old(runtimes) <= runtimes && fresh(runtimes[|old(runtimes)|..])
      ensures View() == InitCells(old(View()), cells)
    {
      hide NotebookProtocol.InitCellRuntime;
      assert cells[0..] == cells;
      for n := 0 to |cells|
        invariant Wired() && old(runtimes) <= runtimes && fresh(runtimes[|old(runtimes)|..])
        invariant InitCells(View(), cells[n..]) == InitCells(old(View()), cells)
      {
        ghost var before := runtimes;
        AddRuntime(cells[n]);
        assert runtimes[|old(runtimes)|..] == before[|old(runtimes)|..] + runtimes[|before|..];
        assert cells[n..][1..] == cells[n + 1..];
      }
    }

    /** Takes the token away from whoever has it. */
    method Bump(cell: nat)
      requires Wired() && cell in cellRuntime
      modifies runtimes[cellRuntime[cell]]
      ensures Wired()
      ensures Views() == old(Views())[cellRuntime[cell] := Bumped(old(Views())[cellRuntime[cell]])]
    {
      var runtime := runtimes[cellRuntime[cell]];
      runtime.runSeq := runtime.runSeq + 1;
    }

    /** Bumps the runtimes of these cells, one after the other. */
    method Abort(cells: set<nat>)
      requires Wired() && cells <= cellRuntime.Keys
      modifies runtimes
      ensures Wired()
      ensures View() == NotebookProtocol.Abort(old(View()), RuntimesOf(cellRuntime, cells))
    {
      var left := cells;
      while left != {}
        invariant left <= cells && Wired()
        invariant Views() == NotebookProtocol.Abort(old(View()), RuntimesOf(cellRuntime, cells - left)).runtimes
      {
        var cell :| cell in left;
        OneMoreRuntime(cellRuntime, cells, left, cell);
        BumpOneMore(old(View()), RuntimesOf(cellRuntime, cells - left), cellRuntime[cell]);
        Bump(cell);
        left := left - {cell};
      }
      assert cells - left == cells;
    }

    method Clear()
      requires Wired()
      modifies this, runtimes
      ensures Wired() && runtimes == old(runtimes)
      ensures View() == Next(old(View()), Close)
    {
      ghost var gone := cellRuntime.Values;
      assert RuntimesOf(cellRuntime, cellRuntime.Keys) == gone;
      hide RuntimesOf, NotebookProtocol.Abort;
      Abort(cellRuntime.Keys);
      Forget();
      AbortOfAnyPage(old(View()), old(View()).(notebook := None, live := map[]), gone);
    }

    /** No notebook is open, and no cell. */
    method Forget()
      requires Wired()
      modifies this`activeNotebookId, this`cellRuntime
      ensures Wired() && View() == old(View()).(notebook := None, live := map[])
    {
      activeNotebookId := None;
      cellRuntime := map[];
    }

    method Drop(cell: nat)
      requires Wired()
      modifies this, runtimes
      ensures Wired() && runtimes == old(runtimes)
      ensures View() == Next(old(View()), DeleteCell(cell))
    {
      if cell in cellRuntime {
        Bump(cell);
        assert Views() == NotebookProtocol.Abort(old(View()), {cellRuntime[cell]}).runtimes;
      } else {
        assert cellRuntime - {cell} == cellRuntime;
      }
      cellRuntime := cellRuntime - {cell};
    }

    /** The start of a run, up to the submission it waits for. */
    method Begin(cell: nat)
      requires Wired()
      modifies this, runtimes
      ensures Wired() && runtimes == old(runtimes)
      ensures View() == Next(old(View()), BeginRun(cell))
    {
      if cell !in cellRuntime { return; }
      var token := TakeOver(cellRuntime[cell]);
      runs := runs + [Run(cellRuntime[cell], token, Submitting)];
    }

    /** The writes of a run that starts: it draws the token. */
    method TakeOver(r: nat) returns (token: nat)
      requires Wired() && r < |runtimes|
      modifies runtimes[r]
      ensures Wired() && token == old(runtimes[r].runSeq) + 1
      ensures Views() == old(Views())[r :=
        old(runtimes[r].View()).(runSeq := token, running := true, error := None, status := "Queued")]
    {
      var runtime := runtimes[r];
      runtime.runSeq := runtime.runSeq + 1;
      token := runtime.runSeq;
      runtime.running := true;
      runtime.error := None;
      runtime.status := "Queued";
    }

    /** The head of the polling loop and what follows the loop. */
    method WaitOrFinish(k: nat, query: Query)
      requires Wired() && k < |runs|
      modifies this, runtimes[runs[k].runtime]
      ensures Wired() && runtimes == old(runtimes)
      ensures View() == NotebookProtocol.WaitOrFinish(old(View()), k, query)
    {
      if !IsTerminal(query.status) {
        runs := runs[k := runs[k].(phase := Delaying(query))];
        return;
      }
      var runtime, token := runtimes[runs[k].runtime], runs[k].token;
      if runtime.runSeq != token {
        runs := runs[k := runs[k].(phase := Returned)];
        return;
      }
      Land(k, query);
      SaveQuery(k, query);
    }

    /** The writes of a run that has its token. */
    method Land(k: nat, query: Query)
      requires Wired() && k < |runs| && Holds(View(), k)
      modifies this`runs, this`landings, runtimes[runs[k].runtime]
      ensures Wired()
      ensures View() == NotebookProtocol.Finish(old(View()), k, query).(saves := old(saves))
    {
      var runtime, token := runtimes[runs[k].runtime], runs[k].token;
      runs := runs[k := runs[k].(phase := Returned)];
      runtime.result := Some(query);
      runtime.status := query.status;
      runtime.running := false;
      runtime.activeQueryId := None;
      landings := landings + [Landing(runs[k].runtime, token, false)];
    }

    /** The request that makes the cell remember the query. */
    method SaveQuery(k: nat, query: Query)
      requires Wired() && k < |runs|
      modifies this`saves
      ensures Wired()
      ensures View() == old(View()).(saves := old(saves) + Saved(old(View()), k, query.id))
    {
      if activeNotebookId.Some? {
        saves := saves + [Save(activeNotebookId.value, cells[runs[k].runtime], k, query.id)];
      }
    }

    method TakeSubmission(k: nat, query: Query)
      requires Wired()
      modifies this, runtimes
      ensures Wired() && runtimes == old(runtimes)
      ensures View() == Next(old(View()), Submitted(k, query))
    {
      if k >= |runs| || runs[k].phase != Submitting { return; }
      var runtime := runtimes[runs[k].runtime];
      if runtime.runSeq != runs[k].token {
        runs := runs[k := runs[k].(phase := Returned)];
        return;
      }
      runtime.activeQueryId := Some(query.id);
      runtime.status := ShownStatus(query);
      assert Views() == old(Views())[runs[k].runtime := runtime.View()];
      WaitOrFinish(k, query);
    }

    method TakeSecond(k: nat)
      requires Wired()
      modifies this
      ensures Wired() && runtimes == old(runtimes)
      ensures View() == Next(old(View()), DelayOver(k))
    {
      if k >= |runs| || !runs[k].phase.Delaying? { return; }
      var runtime := runtimes[runs[k].runtime];
      var phase := if runtime.runSeq != runs[k].token then Returned else Polling(runs[k].phase.query);
      runs := runs[k := runs[k].(phase := phase)];
    }

    method TakePoll(k: nat, query: Query)
      requires Wired()
      modifies this, runtimes
      ensures Wired() && runtimes == old(runtimes)
      ensures View() == Next(old(View()), Polled(k, query))
    {
      if k >= |runs| || !runs[k].phase.Polling? { return; }
      var runtime := runtimes[runs[k].runtime];
      runtime.status := ShownStatus(query);
      assert Views() == old(Views())[runs[k].runtime := runtime.View()];
      WaitOrFinish(k, query);
    }

    /** A request of the run was refused or never answered. */
    method TakeFailure(k: nat, message: string)
      requires Wired()
      modifies this, runtimes
      ensures Wired() && runtimes == old(runtimes)
      ensures View() == Next(old(View()), RequestFailed(k, message))
    {
      if k >= |runs| || !(runs[k].phase.Submitting? || runs[k].phase.Polling?) { return; }
      var runtime, token := runtimes[runs[k].runtime], runs[k].token;
      runs := runs[k := runs[k].(phase := Returned)];
      if runtime.runSeq != token { return; }
      runtime.running := false;
      runtime.status := "Failed";
      runtime.error := Some(message);
      runtime.activeQueryId := None;
      assert Views() == old(Views())[runs[k].runtime := runtime.View()];
    }

    method BeginRestoring(cell: nat)
      requires Wired()
      modifies this
      ensures Wired() && runtimes == old(runtimes)
      ensures View() == Next(old(View()), BeginRestore(cell))
    {
      if activeNotebookId.None? || cell !in cellRuntime { return; }
      var runtime := runtimes[cellRuntime[cell]];
      if runtime.result.Some? || runtime.running { return; }
      restores := restores + [Restore(cellRuntime[cell], runtime.runSeq, activeNotebookId.value, true)];
    }

    method TakeRestored(i: nat, found: Option<Query>)
      requires Wired()
      modifies this, runtimes
      ensures Wired() && runtimes == old(runtimes)
      ensures View() == Next(old(View()), Restored(i, found))
    {
      if i >= |restores| || !restores[i].waiting { return; }
      var restore := restores[i];
      var runtime := runtimes[restore.runtime];
      restores := restores[i := restore.(waiting := false)];
      if activeNotebookId != Some(restore.notebook) || runtime.runSeq != restore.token { return; }
      if found.None? || !IsTerminal(found.value.status) { return; }
      runtime.result := found;
      runtime.status := found.value.status;
      landings := landings + [Landing(restore.runtime, restore.token, true)];
      assert Views() == old(Views())[restore.runtime := runtime.View()];
    }

    method TakeNothing(i: nat)
      requires Wired()
      modifies this
      ensures Wired() && runtimes == old(runtimes)
      ensures View() == Next(old(View()), RestoreFailed(i))
    {
      if i < |restores| && restores[i].waiting {
        restores := restores[i := restores[i].(waiting := false)];
      }
    }

    // ----- The stretches as steps of a valid page -----

    method InitCellRuntime(cell: nat)
      requires Valid()
      modifies this
      ensures Wired() && old(runtimes) <= runtimes && fresh(runtimes[|old(runtimes)|..]) &&
        View() == Next(old(View()), AddCell(cell))
      ensures Valid() && OnlyWriters(AddCell(cell))
    {
      hide Inv, AllTidy, IsWriter, Guarded, NotebookProtocol.InitCellRuntime, Wired;
      StepKeeps(View(), AddCell(cell));
      AddRuntime(cell);
    }

    method OpenNotebook(id: nat, cells: seq<nat>)
      requires Valid()
      modifies this
      ensures Wired() && old(runtimes) <= runtimes && fresh(runtimes[|old(runtimes)|..]) &&
        View() == Next(old(View()), Open(id, cells))
      ensures Valid() && OnlyWriters(Open(id, cells))
    {
      StepKeeps(View(), Open(id, cells));
      hide Inv, AllTidy, IsWriter, Guarded, Next, Wired;
      TakeCells(id, cells);
    }

    method CloseNotebook()
      requires Valid()
      modifies this, runtimes
      ensures Wired() && runtimes == old(runtimes) && View() == Next(old(View()), Close)
      ensures Valid() && OnlyWriters(Close)
      ensures forall cell :: cell in old(cellRuntime) ==> Silent(View(), old(cellRuntime)[cell])
    {
      hide Inv, AllTidy, IsWriter, Guarded, Next, Wired, Silent;
      StepKeeps(View(), Close);
      forall cell | cell in cellRuntime ensures Silent(Next(View(), Close), cellRuntime[cell]) {
        DeletingSilences(View(), cell);
      }
      Clear();
    }

    method DeleteNotebookCell(cell: nat)
      requires Valid()
      modifies this, runtimes
      ensures Wired() && runtimes == old(runtimes) && View() == Next(old(View()), DeleteCell(cell))
      ensures Valid() && OnlyWriters(DeleteCell(cell))
      ensures cell in old(cellRuntime) ==> Silent(View(), old(cellRuntime)[cell])
    {
      hide Inv, AllTidy, IsWriter, Guarded, Next, Wired, Silent;
      StepKeeps(View(), DeleteCell(cell));
      if cell in cellRuntime { DeletingSilences(View(), cell); }
      Drop(cell);
    }

    method RunCell(cell: nat)
      requires Valid()
      modifies this, runtimes
      ensures Wired() && runtimes == old(runtimes) && View() == Next(old(View()), BeginRun(cell))
      ensures Valid() && OnlyWriters(BeginRun(cell))
      ensures cell in old(cellRuntime) ==>
        var r := old(cellRuntime)[cell];
        runtimes[r].running && runtimes[r].error == None && forall k: nat :: Owns(View(), k, r) <==> k == |old(runs)|
    {
      hide Inv, AllTidy, IsWriter, Guarded, Next, Wired, Owns;
      StepKeeps(View(), BeginRun(cell));
      if cell in cellRuntime { RunBegins(View(), cell); }
      Begin(cell);
    }

    method SubmissionAnswered(k: nat, query: Query)
      requires Valid()
      modifies this, runtimes
      ensures Wired() && runtimes == old(runtimes) && View() == Next(old(View()), Submitted(k, query))
      ensures Valid() && OnlyWriters(Submitted(k, query))
    {
      StepKeeps(View(), Submitted(k, query));
      hide Inv, AllTidy, IsWriter, Guarded, Next, Wired;
      TakeSubmission(k, query);
    }

    method SecondPassed(k: nat)
      requires Valid()
      modifies this
      ensures Wired() && runtimes == old(runtimes) && View() == Next(old(View()), DelayOver(k))
      ensures Valid() && OnlyWriters(DelayOver(k))
    {
      StepKeeps(View(), DelayOver(k));
      hide Inv, AllTidy, IsWriter, Guarded, Next, Wired;
      TakeSecond(k);
    }

    method PollAnswered(k: nat, query: Query)
      requires Valid()
      modifies this, runtimes
      ensures Wired() && runtimes == old(runtimes) && View() == Next(old(View()), Polled(k, query))
      ensures Valid() && OnlyWriters(Polled(k, query))
    {
      StepKeeps(View(), Polled(k, query));
      hide Inv, AllTidy, IsWriter, Guarded, Next, Wired;
      TakePoll(k, query);
    }

    method RunFailed(k: nat, message: string)
      requires Valid()
      modifies this, runtimes
      ensures Wired() && runtimes == old(runtimes) && View() == Next(old(View()), RequestFailed(k, message))
      ensures Valid() && OnlyWriters(RequestFailed(k, message))
      ensures forall r: nat :: r < |runtimes| && Owns(old(View()), k, r) && !old(runs)[k].phase.Delaying? ==>
        runtimes[r].error == Some(message) && !runtimes[r].running && runtimes[r].result == old(runtimes[r].result)
    {
      hide Inv, AllTidy, IsWriter, Guarded, Next, Wired;
      StepKeeps(View(), RequestFailed(k, message));
      forall r: nat | Owns(View(), k, r) &&
        !runs[k].phase.Delaying? ensures Failed(View(), k, message, r) { FailureIsShown(View(), k, message, r); }
      TakeFailure(k, message);
    }

    method RestoreCell(cell: nat)
      requires Valid()
      modifies this
      ensures Wired() && runtimes == old(runtimes) && View() == Next(old(View()), BeginRestore(cell))
      ensures Valid() && OnlyWriters(BeginRestore(cell))
    {
      StepKeeps(View(), BeginRestore(cell));
      hide Inv, AllTidy, IsWriter, Guarded, Next, Wired;
      BeginRestoring(cell);
    }

    method RestoreAnswered(i: nat, found: Option<Query>)
      requires Valid()
      modifies this, runtimes
      ensures Wired() && runtimes == old(runtimes) && View() == Next(old(View()), Restored(i, found))
      ensures Valid() && OnlyWriters(Restored(i, found))
    {
      StepKeeps(View(), Restored(i, found));
      hide Inv, AllTidy, IsWriter, Guarded, Next, Wired;
      TakeRestored(i, found);
    }

    method RestoreUnanswered(i: nat)
      requires Valid()
      modifies this
      ensures Wired() && runtimes == old(runtimes) && View() == Next(old(View()), RestoreFailed(i))
      ensures Valid() && OnlyWriters(RestoreFailed(i))
    {
      StepKeeps(View(), RestoreFailed(i));
      hide Inv, AllTidy, IsWriter, Guarded, Next, Wired;
      TakeNothing(i);
    }

    /** On a valid page an open cell is running exactly when one run in flight, and only one, holds its token. */
    lemma RunningCellsHaveOneRun(cell: nat)
      requires Valid() && cell in cellRuntime
      ensures RunsOnce(View(), cellRuntime[cell])
      ensures runtimes[cellRuntime[cell]].running <==> HasOwner(View(), cellRuntime[cell])
    {
      OpenCellsRunOnce(View(), cell);
    }
  }
}
