/** The order in which the runs of a cell save their queries: what is restored when the notebook is opened again. */
module NotebookSaves {
  import opened Options
  import opened NotebookProtocol

  /** Each runtime has its cell and the one of an open cell is the latest made for it; what was saved belongs to a run
      that has returned, and later runs of a cell are on later runtimes. */
  ghost predicate SavesFit(p: Page) {
    && |p.cells| == |p.runtimes|
    && (forall cell :: cell in p.live ==> LatestOf(p, cell, p.live[cell]))
    && (forall k :: 0 <= k < |p.runs| ==> p.runs[k].runtime < |p.cells|)
    && (forall m :: 0 <= m < |p.saves| ==> HasReturned(p, p.saves[m]))
    && RuntimesFollow(p)
  }

  ghost predicate LatestOf(p: Page, cell: nat, r: nat) {
    r < |p.cells| && p.cells[r] == cell && forall o :: r < o < |p.cells| ==> p.cells[o] != cell
  }

  predicate HasReturned(p: Page, save: Save) {
    save.run < |p.runs| && p.runs[save.run].phase == Returned && CellOfRun(p, save.run) == save.cell
  }

  ghost predicate RuntimesFollow(p: Page) {
    forall j, k :: 0 <= j < k < |p.runs| && CellOfRun(p, j) == CellOfRun(p, k) ==>
      p.runs[j].runtime <= p.runs[k].runtime
  }

  function CellOfRun(p: Page, k: nat): nat
    requires k < |p.runs|
  {
    CellOf(p, p.runs[k].runtime)
  }

  /** The run of a started before the run of b: runs are listed as they start. */
  predicate Earlier(a: Save, b: Save) {
    a.run < b.run
  }

  /** The runs of the cell saved in the order in which they started, so that the last one counts. */
  ghost predicate InStartOrder(p: Page, cell: nat) {
    forall m, n :: 0 <= m < n < |p.saves| && p.saves[m].cell == p.saves[n].cell == cell ==>
      Earlier(p.saves[m], p.saves[n])
  }

  /** The step brings a terminal query to a run that still has its token. */
  predicate Lands(p: Page, a: Action) {
    && (a.Submitted? || a.Polled?) && InFlight(p, a.run) && Holds(p, a.run) && IsTerminal(a.query.status)
    && (a.Submitted? ==> p.runs[a.run].phase.Submitting?)
    && (a.Polled? ==> p.runs[a.run].phase.Polling?)
  }

  /** It does while a notebook is open, when a later run of the cell has saved already. */
  ghost predicate SavesLate(p: Page, a: Action, cell: nat) {
    && Lands(p, a) && p.notebook.Some? && CellOfRun(p, a.run) == cell
    && exists m :: 0 <= m < |p.saves| && p.saves[m].cell == cell && a.run < p.saves[m].run
  }

  // ----- What every step keeps -----

  /** No run starts, none comes back, and each stays on its runtime. */
  predicate RunsStay(p: Page, q: Page) {
    && |q.runs| == |p.runs|
    && forall k :: 0 <= k < |p.runs| ==>
         q.runs[k].runtime == p.runs[k].runtime && (p.runs[k].phase == Returned ==> q.runs[k].phase == Returned)
  }

  lemma SavesStayFit(p: Page, q: Page)
    requires SavesFit(p) && RunsStay(p, q)
    requires q.cells == p.cells && |q.runtimes| == |p.runtimes| && p.saves <= q.saves
    requires forall m :: |p.saves| <= m < |q.saves| ==> HasReturned(q, q.saves[m])
    requires forall cell :: cell in q.live ==> cell in p.live && q.live[cell] == p.live[cell]
    ensures SavesFit(q)
  {
    forall m | 0 <= m < |q.saves| ensures HasReturned(q, q.saves[m]) {
      if m < |p.saves| { assert HasReturned(p, p.saves[m]); }
    }
    forall cell | cell in q.live ensures LatestOf(q, cell, q.live[cell]) { assert LatestOf(p, cell, p.live[cell]); }
    forall j, k | 0 <= j < k < |q.runs| && CellOfRun(q, j) == CellOfRun(q, k)
      ensures q.runs[j].runtime <= q.runs[k].runtime
    {
      assert CellOfRun(p, j) == CellOfRun(p, k);
    }
  }

  lemma InitStaysFit(p: Page, cell: nat)
    requires SavesFit(p)
    ensures SavesFit(InitCellRuntime(p, cell))
  {
    var q := InitCellRuntime(p, cell);
    forall k: nat | k < |p.runs| ensures CellOfRun(q, k) == CellOfRun(p, k) {}
    forall m | 0 <= m < |q.saves| ensures HasReturned(q, q.saves[m]) { assert HasReturned(p, p.saves[m]); }
    forall c | c in q.live ensures LatestOf(q, c, q.live[c]) {
      if c in p.live { assert LatestOf(p, c, p.live[c]); }
    }
  }

  lemma InitCellsStayFit(p: Page, cells: seq<nat>)
    requires SavesFit(p)
    ensures SavesFit(InitCells(p, cells)) && InitCells(p, cells).saves == p.saves
    decreases |cells|
  {
    hide SavesFit;
    if cells != [] {
      InitStaysFit(p, cells[0]);
      InitCellsStayFit(InitCellRuntime(p, cells[0]), cells[1..]);
    }
  }

  /** A new run is on the latest runtime of its cell. */
  lemma BeginStaysFit(p: Page, cell: nat)
    requires SavesFit(p)
    ensures SavesFit(Begin(p, cell))
  {
    var q := Begin(p, cell);
    if q != p {
      assert LatestOf(p, cell, p.live[cell]);
      forall k: nat | k < |p.runs| ensures CellOfRun(q, k) == CellOfRun(p, k) {}
      forall m | 0 <= m < |q.saves| ensures HasReturned(q, q.saves[m]) { assert HasReturned(p, p.saves[m]); }
      forall c | c in q.live ensures LatestOf(q, c, q.live[c]) { assert LatestOf(p, c, p.live[c]); }
    }
  }

  /** A step saves exactly when it lands while a notebook is open: the query of the run that lands, which returns. */
  predicate SavedBy(p: Page, a: Action, q: Page) {
    if Lands(p, a) && p.notebook.Some? then
      q.saves == p.saves + [Save(p.notebook.value, CellOfRun(p, a.run), a.run, a.query.id)]
    else q.saves == p.saves
  }

  lemma StepsSave(p: Page, a: Action)
    requires SavesFit(p)
    ensures SavesFit(Next(p, a)) && SavedBy(p, a, Next(p, a))
  {
    hide SavesFit;
    var q := Next(p, a);
    match a
    case Open(notebook, cells) =>
      SavesStayFit(p, p.(notebook := Some(notebook), live := map[]));
      InitCellsStayFit(p.(notebook := Some(notebook), live := map[]), cells);
    case AddCell(cell) => InitStaysFit(p, cell);
    case BeginRun(cell) => BeginStaysFit(p, cell);
    case Submitted(k, query) =>
      SubmissionLands(p, k, query);
      SavesStayFit(p, q);
    case Polled(k, query) =>
      PollLands(p, k, query);
      SavesStayFit(p, q);
    case _ =>
      OthersAnswer(p, a);
      SavesStayFit(p, q);
  }

  lemma OthersAnswer(p: Page, a: Action)
    requires a.Close? || a.DeleteCell? || a.DelayOver? || a.RequestFailed? ||
             a.BeginRestore? || a.Restored? || a.RestoreFailed?
    ensures var q := Next(p, a);
      && RunsStay(p, q) && q.cells == p.cells && |q.runtimes| == |p.runtimes| && q.saves == p.saves
      && forall cell :: cell in q.live ==> cell in p.live && q.live[cell] == p.live[cell]
  {}

  /** What an answered request does to the rest of the page. */
  ghost predicate Answered(p: Page, a: Action, q: Page) {
    && RunsStay(p, q) && q.cells == p.cells && |q.runtimes| == |p.runtimes| && q.live == p.live && SavedBy(p, a, q)
    && forall m :: |p.saves| <= m < |q.saves| ==> HasReturned(q, q.saves[m])
  }

  lemma SubmissionLands(p: Page, k: nat, query: Query)
    ensures Answered(p, Submitted(k, query), AfterSubmit(p, k, query))
  {}

  lemma PollLands(p: Page, k: nat, query: Query)
    ensures Answered(p, Polled(k, query), AfterPoll(p, k, query))
  {}

  // ----- The order of the saves -----

  /** A step keeps the order unless it saves late. */
  lemma OrderByStep(p: Page, a: Action, cell: nat)
    requires SavesFit(p) && InStartOrder(p, cell)
    ensures InStartOrder(Next(p, a), cell) <==> !SavesLate(p, a, cell)
  {
    StepsSave(p, a);
    var q := Next(p, a);
    hide Next;
    if q.saves != p.saves {
      var save := q.saves[|p.saves|];
      forall m | 0 <= m < |p.saves| ensures p.saves[m].run != a.run { assert HasReturned(p, p.saves[m]); }
      OneMoreInOrder(p, q, save, cell);
    }
  }

  lemma OneMoreInOrder(p: Page, q: Page, save: Save, cell: nat)
    requires q.saves == p.saves + [save] && InStartOrder(p, cell)
    ensures InStartOrder(q, cell) <==>
            (save.cell == cell ==> forall m :: 0 <= m < |p.saves| && p.saves[m].cell == cell ==>
              Earlier(p.saves[m], save))
  {
    assert q.saves[|p.saves|] == save;
    assert forall m :: 0 <= m < |p.saves| ==> q.saves[m] == p.saves[m];
  }

  /** Started later means: on a runtime that was made later, for a run that still has its token. */
  lemma LaterRunIsOnLaterRuntime(p: Page, k: nat, save: Save)
    requires Inv(p) && SavesFit(p) && InFlight(p, k) && Holds(p, k) && HasReturned(p, save)
    requires CellOfRun(p, k) == save.cell
    ensures k < save.run <==> p.runs[k].runtime < p.runs[save.run].runtime
  {
    var j := save.run;
    assert RunFits(p, j);
    assert TokensGrow(p) && RuntimesFollow(p);
  }

  /** Only a run can save late that holds the token of a runtime which no
      open cell has any more, after a run of a runtime made later. */
  lemma LateRunsAreDropped(p: Page, a: Action, cell: nat)
    requires Inv(p) && SavesFit(p) && SavesLate(p, a, cell)
    ensures Owns(p, a.run, p.runs[a.run].runtime) && p.runs[a.run].runtime !in p.live.Values
    ensures exists m :: 0 <= m < |p.saves| && p.saves[m].cell == cell && SavedOnLaterRuntime(p, a.run, p.saves[m])
  {
    hide Inv;
    var r := p.runs[a.run].runtime;
    var m :| 0 <= m < |p.saves| && p.saves[m].cell == cell && a.run < p.saves[m].run;
    assert HasReturned(p, p.saves[m]);
    LaterRunIsOnLaterRuntime(p, a.run, p.saves[m]);
    assert SavedOnLaterRuntime(p, a.run, p.saves[m]);
    forall c | c in p.live ensures p.live[c] != r { assert LatestOf(p, c, p.live[c]); }
  }

  predicate SavedOnLaterRuntime(p: Page, k: nat, save: Save)
    requires k < |p.runs|
  {
    save.run < |p.runs| && p.runs[k].runtime < p.runs[save.run].runtime
  }

  /** No step of the session saves late. */
  ghost predicate NeverLate(p: Page, actions: seq<Action>, cell: nat)
    decreases |actions|
  {
    actions == [] || (!SavesLate(p, actions[0], cell) && NeverLate(Next(p, actions[0]), actions[1..], cell))
  }

  lemma {:induction false} DisorderStays(p: Page, actions: seq<Action>, cell: nat)
    requires SavesFit(p) && !InStartOrder(p, cell)
    ensures !InStartOrder(After(p, actions), cell)
    decreases |actions|
  {
    if actions != [] {
      var q := Next(p, actions[0]);
      StepsSave(p, actions[0]);
      hide Next;
      assert p.saves <= q.saves;
      assert !InStartOrder(q, cell) by { LongerIsDisordered(p, q, cell); }
      DisorderStays(q, actions[1..], cell);
    }
  }

  lemma LongerIsDisordered(p: Page, q: Page, cell: nat)
    requires p.saves <= q.saves && !InStartOrder(p, cell)
    ensures !InStartOrder(q, cell)
  {
    var m, n :| 0 <= m < n < |p.saves| && p.saves[m].cell == p.saves[n].cell == cell &&
      !Earlier(p.saves[m], p.saves[n]);
    assert q.saves[m] == p.saves[m] && q.saves[n] == p.saves[n];
  }

  lemma {:induction false} OrderFrom(p: Page, actions: seq<Action>, cell: nat)
    requires SavesFit(p) && InStartOrder(p, cell)
    ensures InStartOrder(After(p, actions), cell) <==> NeverLate(p, actions, cell)
    decreases |actions|
  {
    if actions != [] {
      var q := Next(p, actions[0]);
      OrderByStep(p, actions[0], cell);
      StepsSave(p, actions[0]);
      hide Next, SavesFit, InStartOrder, SavesLate;
      if SavesLate(p, actions[0], cell) {
        DisorderStays(q, actions[1..], cell);
      } else {
        OrderFrom(q, actions[1..], cell);
      }
    }
  }

  /** In every session: a cell's queries are saved in the order in which
      their runs started if and only if none is saved late. */
  lemma SavesAreInOrderIff(actions: seq<Action>, cell: nat)
    ensures InStartOrder(After(EMPTY, actions), cell) <==> NeverLate(EMPTY, actions, cell)
  {
    OrderFrom(EMPTY, actions, cell);
  }

  // ----- Sessions that close a notebook before they open one -----

  /** Whoever may still land is on the runtime of an open cell. */
  ghost predicate OwnersAreLive(p: Page) {
    forall k: nat, r: nat :: Owns(p, k, r) ==> r in p.live.Values
  }

  /** A notebook is opened only when no cell is open. */
  ghost predicate ClosesFirst(p: Page, actions: seq<Action>)
    decreases |actions|
  {
    actions == [] || ((actions[0].Open? ==> p.live == map[]) && ClosesFirst(Next(p, actions[0]), actions[1..]))
  }

  /** Closing and deleting take the tokens away, so that only opening over an open notebook leaves a run behind. */
  lemma OwnersStayLive(p: Page, a: Action)
    requires Inv(p) && OwnersAreLive(p) && (a.Open? ==> p.live == map[])
    ensures OwnersAreLive(Next(p, a))
  {
    var q := Next(p, a);
    forall k: nat, r: nat | Owns(q, k, r) ensures r in q.live.Values {
      OwnersWereLive(p, a, k, r);
      hide Inv;
      if a.Close? { SilentOnceClosed(p, r); }
      if a.DeleteCell? { SilentOnceDeleted(p, a.cell, r); }
      LiveStays(p, a, r);
    }
  }

  lemma OwnersWereLive(p: Page, a: Action, k: nat, r: nat)
    requires Inv(p) && OwnersAreLive(p) && Owns(Next(p, a), k, r)
    ensures r in p.live.Values
  {
    RunsAreOnOldRuntimes(p, a, k);
    CoroutinesOnlyEnd(p, a, r);
  }

  lemma RunsAreOnOldRuntimes(p: Page, a: Action, k: nat)
    requires Inv(p) && k < |Next(p, a).runs|
    ensures Next(p, a).runs[k].runtime < |p.runtimes|
  {
    CoroutinesStay(p, a);
    hide Next;
    assert k < |p.runs| ==> RunFits(p, k);
  }

  lemma SilentOnceClosed(p: Page, r: nat)
    requires Inv(p) && r in p.live.Values
    ensures !HasOwner(CloseNotebook(p), r)
  {
    var cell :| cell in p.live && p.live[cell] == r;
    ClosingSilences(p, cell);
  }

  lemma SilentOnceDeleted(p: Page, cell: nat, r: nat)
    requires Inv(p)
    ensures cell in p.live && p.live[cell] == r ==> !HasOwner(DeleteNotebookCell(p, cell), r)
  {
    if cell in p.live { ClosingSilences(p, cell); }
  }

  lemma LiveStays(p: Page, a: Action, r: nat)
    requires r in p.live.Values && !a.Open? && !a.Close?
    requires a.DeleteCell? && a.cell in p.live ==> p.live[a.cell] != r
    ensures r in Next(p, a).live.Values
  {
    var c :| c in p.live && p.live[c] == r;
    assert c in Next(p, a).live && Next(p, a).live[c] == r;
  }

  lemma {:induction false} ClosedFirstIsNeverLate(p: Page, actions: seq<Action>, cell: nat)
    requires Inv(p) && SavesFit(p) && OwnersAreLive(p) && ClosesFirst(p, actions)
    ensures NeverLate(p, actions, cell)
    decreases |actions|
  {
    if actions != [] {
      if SavesLate(p, actions[0], cell) { LateRunsAreDropped(p, actions[0], cell); }
      OwnersStayLive(p, actions[0]);
      StepsSave(p, actions[0]);
      NextKeeps(p, actions[0]);
      hide Inv, Next, SavesFit, OwnersAreLive, SavesLate;
      ClosedFirstIsNeverLate(Next(p, actions[0]), actions[1..], cell);
    }
  }

  /** A session that never opens a notebook over an open one saves every cell's queries in start order. */
  lemma ClosedFirstSavesInOrder(actions: seq<Action>, cell: nat)
    requires ClosesFirst(EMPTY, actions)
    ensures InStartOrder(After(EMPTY, actions), cell)
  {
    EmptyInv();
    ClosedFirstIsNeverLate(EMPTY, actions, cell);
    hide Inv, NeverLate, InStartOrder;
    SavesAreInOrderIff(actions, cell);
  }

  // ----- A session in which the older query is saved over the newer one -----

  const DONE := Query(1, "Finished", false)
  const NEWER := Query(2, "Finished", false)

  const REOPENED := POLLING_PAGE.(live := map[7 := 1], runtimes := [FIRST_RUN, FRESH], cells := [7, 7])
  const NEW_RUN := REOPENED.(
    runtimes := [FIRST_RUN, Runtime(1, true, "Queued", None, None, None)],
    runs := [Run(0, 1, Polling(RUNNING)), Run(1, 1, Submitting)])
  const NEW_SAVED := NEW_RUN.(
    runtimes := [FIRST_RUN, Runtime(1, false, "Finished", Some(NEWER), None, None)],
    runs := [Run(0, 1, Polling(RUNNING)), Run(1, 1, Returned)],
    landings := [Landing(1, 1, false)], saves := [Save(1, 7, 1, 2)])

  lemma NewerIsSaved()
    ensures Next(POLLING_PAGE, Open(1, [7])) == REOPENED
    ensures Next(REOPENED, BeginRun(7)) == NEW_RUN
    ensures Next(NEW_RUN, Submitted(1, NEWER)) == NEW_SAVED
  {
    var shown := POLLING_PAGE.(notebook := Some(1), live := map[]);
    assert InitCells(shown, [7]) == InitCells(InitCellRuntime(shown, 7), []);
  }

  lemma OlderIsSavedAfter()
    ensures Next(NEW_SAVED, Polled(0, DONE)).saves == [Save(1, 7, 1, 2), Save(1, 7, 0, 1)]
    ensures SavesLate(NEW_SAVED, Polled(0, DONE), 7)
  {
    assert NEW_SAVED.saves[0] == Save(1, 7, 1, 2);
  }

  /** Such a session exists: the notebook is reopened during a run,
      the cell is run again, and the first run ends last. */
  lemma OlderQueryCanBeSaved()
    ensures exists actions: seq<Action> :: !InStartOrder(After(EMPTY, actions), 7)
  {
    hide Next, OPEN_PAGE, RUN_PAGE, SUBMITTED_PAGE, POLLING_PAGE, REOPENED,
      NEW_RUN, NEW_SAVED, RUNNING, DONE, NEWER, EMPTY, After, SavesLate;
    SessionOpens();
    SessionGoesOn();
    NewerIsSaved();
    OlderIsSavedAfter();
    var last := Next(NEW_SAVED, Polled(0, DONE));
    assert !Earlier(last.saves[0], last.saves[1]);
    var a7 := [Polled(0, DONE)];
    var a6 := [Submitted(1, NEWER)] + a7;
    var a5 := [BeginRun(7)] + a6;
    var a4 := [Open(1, [7])] + a5;
    var a3 := [DelayOver(0)] + a4;
    var a2 := [Submitted(0, RUNNING)] + a3;
    var a1 := [BeginRun(7)] + a2;
    assert a7 == [Polled(0, DONE)] + [];
    AfterOne(NEW_SAVED, Polled(0, DONE), []);
    AfterNone(last);
    AfterOne(NEW_RUN, Submitted(1, NEWER), a7);
    AfterOne(REOPENED, BeginRun(7), a6);
    AfterOne(POLLING_PAGE, Open(1, [7]), a5);
    AfterOne(SUBMITTED_PAGE, DelayOver(0), a4);
    AfterOne(RUN_PAGE, Submitted(0, RUNNING), a3);
    AfterOne(OPEN_PAGE, BeginRun(7), a2);
    AfterOne(EMPTY, Open(1, [7]), a1);
    assert After(EMPTY, [Open(1, [7])] + a1) == last;
  }
}
