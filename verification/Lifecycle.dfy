/** The command lifecycle on values: commands in memory against the manager's pending
    decisions and against the rows of the command table. */
module Lifecycle {
  import opened Basics
  import opened Reservations
  import opened Policy
  import opened DispatchSpec
  import DispatchManagers
  import opened DispatchRuns
  import opened Restart
  import R = ReservationRuns

  datatype Status = PendingRow | AcceptedRow | RejectedRow | ClearedRow

  datatype TableRow = TableRow(command: Decision, status: Status)

  type Commands = map<string, Decision>
  type Table = map<nat, TableRow>

  // ----- commands and pending decisions -----

  /** The manager's pending decision of the command's resource is this command. */
  predicate IsPending(c: Decision, pending: Commands) {
    && c.resourceId in pending
    && pending[c.resourceId].trainId == c.trainId
    && pending[c.resourceId].lineId == c.lineId
    && pending[c.resourceId].movementIds == c.movementIds
  }

  ghost predicate CommandsPending(commands: Commands, pending: Commands) {
    forall t <- commands :: commands[t].trainId == t && IsPending(commands[t], pending)
  }

  /** No two commands share a resource. */
  lemma CommandsHaveOwnResources(commands: Commands, pending: Commands, t: string, u: string)
    requires CommandsPending(commands, pending) && t in commands && u in commands && t != u
    ensures commands[t].resourceId != commands[u].resourceId
  {
    assert IsPending(commands[t], pending) && IsPending(commands[u], pending);
  }

  // A release on a resource with nothing pending keeps every command.
  lemma ReleaseKeepsCommands(commands: Commands, pending: Commands, r: string, d: Decision)
    requires CommandsPending(commands, pending) && r !in pending
    ensures CommandsPending(commands, pending[r := d])
  {
    forall t | t in commands ensures IsPending(commands[t], pending[r := d]) {
      assert IsPending(commands[t], pending);
    }
  }

  // Confirming or cancelling a command's decision and forgetting it keeps the others.
  lemma RemovalKeepsCommands(commands: Commands, pending: Commands, train: string)
    requires CommandsPending(commands, pending) && train in commands
    ensures CommandsPending(commands - {train}, pending - {commands[train].resourceId})
  {
    var rest := commands - {train};
    forall t | t in rest ensures IsPending(rest[t], pending - {commands[train].resourceId}) {
      CommandsHaveOwnResources(commands, pending, train, t);
      assert IsPending(commands[t], pending);
    }
  }

  // ----- commands and the table -----

  /** Ids are positive, below the next id, and never shared. */
  ghost predicate IdsUsed(commands: Commands, table: Table, next: nat) {
    && (forall t <- commands :: 0 < commands[t].commandId < next)
    && (forall t, u | t in commands && u in commands && commands[t].commandId == commands[u].commandId :: t == u)
    && (forall id <- table :: 0 < id < next && table[id].command.commandId == id)
    && next > 0
  }

  /** Every command outside `unsaved` has a PENDING row with exactly its contents. */
  ghost predicate Saved(commands: Commands, table: Table, unsaved: set<string>) {
    forall t <- commands :: t !in unsaved ==>
      commands[t].commandId in table && table[commands[t].commandId] == TableRow(commands[t], PendingRow)
  }

  /** Every active passage has a row that was accepted. */
  ghost predicate ActiveSaved(active: Commands, table: Table) {
    forall t <- active ::
      && active[t].commandId in table && table[active[t].commandId].command == active[t]
      && table[active[t].commandId].status in {AcceptedRow, ClearedRow}
  }

  ghost predicate Recorded(commands: Commands, active: Commands, table: Table, unsaved: set<string>) {
    Saved(commands, table, unsaved) && ActiveSaved(active, table)
  }

  // The table after inserting the issued commands as PENDING rows.
  function Inserted(table: Table, issued: seq<Decision>): Table {
    if issued == [] then table
    else Inserted(table, issued[..|issued| - 1])
           [issued[|issued| - 1].commandId := TableRow(issued[|issued| - 1], PendingRow)]
  }

  function TrainsOf(issued: seq<Decision>): set<string> {
    set i | 0 <= i < |issued| :: issued[i].trainId
  }

  // Filed under their trains; of several for one train the last stays.
  function ByTrain(ds: seq<Decision>): (commands: Commands)
    ensures forall t <- commands :: commands[t].trainId == t && commands[t] in ds
  {
    if ds == [] then map[] else ByTrain(ds[..|ds| - 1])[ds[|ds| - 1].trainId := ds[|ds| - 1]]
  }

  lemma ByTrainNext(ds: seq<Decision>, i: nat)
    requires i < |ds|
    ensures ByTrain(ds[..i + 1]) == ByTrain(ds[..i])[ds[i].trainId := ds[i]]
  {
    assert ds[..i + 1][..i] == ds[..i];
  }

  lemma TrainsOfNext(issued: seq<Decision>, i: nat)
    requires i < |issued|
    ensures TrainsOf(issued[..i + 1]) == TrainsOf(issued[..i]) + {issued[i].trainId}
  {
    var more := issued[..i + 1];
    assert more[i] == issued[i];
    forall t | t in TrainsOf(issued[..i]) ensures t in TrainsOf(more) {
      var n :| 0 <= n < i && issued[..i][n].trainId == t;
      assert more[n].trainId == t;
    }
    forall t | t in TrainsOf(more) ensures t in TrainsOf(issued[..i]) + {issued[i].trainId} {
      var n :| 0 <= n <= i && more[n].trainId == t;
      assert n < i ==> issued[..i][n].trainId == t;
    }
  }

  lemma {:induction false} ByTrainKeys(ds: seq<Decision>)
    ensures ByTrain(ds).Keys == TrainsOf(ds)
  {
    if ds == [] {
      assert TrainsOf(ds) == {};
    } else {
      var n := |ds| - 1;
      ByTrainKeys(ds[..n]);
      TrainsOfNext(ds, n);
      assert ds[..n + 1] == ds;
    }
  }

  /** `issued` are new commands numbered from `first`, for trains that had none in `kept`. */
  ghost predicate Batch(kept: Commands, commands: Commands, issued: seq<Decision>, first: nat) {
    && (forall i | 0 <= i < |issued| ::
          && issued[i].trainId in commands && commands[issued[i].trainId] == issued[i]
          && issued[i].commandId == first + i)
    && (forall i, j | 0 <= i < j < |issued| :: issued[i].trainId != issued[j].trainId)
    && TrainsOf(issued) !! kept.Keys
    && (forall t <- kept :: t in commands && commands[t] == kept[t])
    && commands.Keys == kept.Keys + TrainsOf(issued)
  }

  lemma BatchGrows(kept: Commands, commands: Commands, issued: seq<Decision>, first: nat, c: Decision)
    requires Batch(kept, commands, issued, first)
    requires c.trainId !in commands && c.commandId == first + |issued|
    ensures Batch(kept, commands[c.trainId := c], issued + [c], first)
    ensures TrainsOf(issued + [c]) == TrainsOf(issued) + {c.trainId}
  {
    var more := issued + [c];
    forall t | t in TrainsOf(issued) + {c.trainId} ensures t in TrainsOf(more) {
      if t == c.trainId {
        assert more[|issued|].trainId == t;
      } else {
        var i :| 0 <= i < |issued| && issued[i].trainId == t;
        assert more[i].trainId == t;
      }
    }
  }

  lemma BatchShrinks(kept: Commands, commands: Commands, issued: seq<Decision>, first: nat)
    requires Batch(kept, commands, issued, first) && issued != []
    ensures Batch(kept, commands - {issued[0].trainId}, issued[1..], first + 1)
    ensures issued[0].trainId in commands && issued[0].trainId !in kept
    ensures TrainsOf(issued[1..]) == TrainsOf(issued) - {issued[0].trainId}
  {
    var rest := issued[1..];
    assert issued[0].trainId in TrainsOf(issued);
    forall t | t in TrainsOf(issued) && t != issued[0].trainId ensures t in TrainsOf(rest) {
      var n :| 0 <= n < |issued| && issued[n].trainId == t;
      assert rest[n - 1].trainId == t;
    }
    forall t | t in TrainsOf(rest) ensures t in TrainsOf(issued) && t != issued[0].trainId {
      var n :| 0 <= n < |rest| && rest[n].trainId == t;
      assert issued[n + 1].trainId == t;
    }
  }

  lemma EmptyBatch(kept: Commands, commands: Commands, first: nat)
    requires Batch(kept, commands, [], first)
    ensures commands == kept
  {
    assert TrainsOf([]) == {};
  }

  lemma {:induction false} InsertedRows(table: Table, issued: seq<Decision>, first: nat)
    requires forall i | 0 <= i < |issued| :: issued[i].commandId == first + i
    requires forall id <- table :: id < first
    ensures forall id <- table :: id in Inserted(table, issued) && Inserted(table, issued)[id] == table[id]
    ensures forall id <- Inserted(table, issued) :: id in table || first <= id < first + |issued|
    ensures forall id | first <= id < first + |issued| ::
      id in Inserted(table, issued) && Inserted(table, issued)[id] == TableRow(issued[id - first], PendingRow)
  {
    if issued != [] {
      InsertedRows(table, issued[..|issued| - 1], first);
    }
  }

  /** Storing the batch gives every new command its row and disturbs no other. */
  lemma InsertSaves(
    kept: Commands, commands: Commands, active: Commands, table: Table, issued: seq<Decision>, first: nat)
    requires Batch(kept, commands, issued, first) && forall id <- table :: id < first
    requires IdsUsed(commands, table, first + |issued|)
    requires Recorded(commands, active, table, TrainsOf(issued)) && first > 0
    ensures Recorded(commands, active, Inserted(table, issued), {})
    ensures IdsUsed(commands, Inserted(table, issued), first + |issued|)
  {
    InsertedRows(table, issued, first);
    var after := Inserted(table, issued);
    forall t | t in commands
      ensures commands[t].commandId in after && after[commands[t].commandId] == TableRow(commands[t], PendingRow)
    {
      if t in TrainsOf(issued) {
        var i :| 0 <= i < |issued| && issued[i].trainId == t;
        assert commands[t] == issued[i] && issued[i].commandId == first + i;
      }
    }
  }

  // A new command takes the next id and is not yet in the table.
  lemma IssueKeepsRecords(
    commands: Commands, active: Commands, table: Table, next: nat, unsaved: set<string>, c: Decision)
    requires IdsUsed(commands, table, next) && c.commandId == next
    ensures IdsUsed(commands[c.trainId := c], table, next + 1)
    ensures Recorded(commands, active, table, unsaved) ==>
      Recorded(commands[c.trainId := c], active, table, unsaved + {c.trainId})
  {
  }

  lemma RemovalKeepsRecords(
    commands: Commands, active: Commands, table: Table, next: nat, unsaved: set<string>, train: string)
    requires IdsUsed(commands, table, next)
    ensures IdsUsed(commands - {train}, table, next)
    ensures Recorded(commands, active, table, unsaved) ==> Recorded(commands - {train}, active, table, unsaved)
    ensures Recorded(commands, active, table, unsaved) ==> Recorded(commands - {train}, active, table, unsaved - {train})
  {
  }

  // A PENDING row becomes ACCEPTED or REJECTED; any other row is left.
  function Answered(table: Table, id: nat, status: Status): Table {
    if id in table && table[id].status == PendingRow then table[id := table[id].(status := status)] else table
  }

  // An ACCEPTED row becomes CLEARED.
  function ClearedIn(table: Table, id: nat): Table {
    if id in table && table[id].status in {AcceptedRow, ClearedRow}
    then table[id := table[id].(status := ClearedRow)] else table
  }

  lemma AnswerKeepsRecords(
    commands: Commands, active: Commands, table: Table, next: nat, train: string, status: Status)
    requires IdsUsed(commands, table, next) && Recorded(commands, active, table, {}) && train in commands
    ensures var id := commands[train].commandId;
      && Answered(table, id, status) == table[id := TableRow(commands[train], status)]
      && IdsUsed(commands, Answered(table, id, status), next)
      && Recorded(commands, active, Answered(table, id, status), {train})
      && (status == AcceptedRow ==> ActiveSaved(active[train := commands[train]], Answered(table, id, status)))
  {
  }

  // An accepted command, already answered in the table, becomes a passage.
  lemma AcceptanceKeepsRecords(
    commands: Commands, active: Commands, pending: Commands, table: Table, next: nat, train: string, stored: bool)
    requires CommandsPending(commands, pending) && IdsUsed(commands, table, next) && train in commands
    requires stored ==>
      Recorded(commands, active, table, {train}) && ActiveSaved(active[train := commands[train]], table)
    ensures IsPending(commands[train], pending)
    ensures CommandsPending(commands - {train}, pending - {commands[train].resourceId})
    ensures IdsUsed(commands - {train}, table, next)
    ensures stored ==> Recorded(commands - {train}, active[train := commands[train]], table, {})
  {
    RemovalKeepsCommands(commands, pending, train);
    RemovalKeepsRecords(commands, active, table, next, {train}, train);
  }

  lemma ClearKeepsRecords(
    commands: Commands, active: Commands, table: Table, next: nat, train: string)
    requires IdsUsed(commands, table, next) && Recorded(commands, active, table, {}) && train in active
    ensures var id := active[train].commandId;
      && ClearedIn(table, id) == table[id := TableRow(active[train], ClearedRow)]
      && IdsUsed(commands, ClearedIn(table, id), next)
      && Recorded(commands, active, ClearedIn(table, id), {})
  {
  }

  // ----- the manager's run under the service -----

  // The state a run of calls leads to, for calls that name their planning decisions.
  ghost function StateAfter(cfg: ManagerConfig, labels: seq<Label>): (s: State)
    ensures GoodLines(s)
  {
    if labels == [] then EmptyState(cfg)
    else
      var s := StateAfter(cfg, labels[..|labels| - 1]);
      StepKeepsLines(cfg, s, labels[|labels| - 1]);
      Next(cfg, s, labels[|labels| - 1])
  }

  lemma {:induction false} RunState(cfg: ManagerConfig, states: seq<State>, labels: seq<Label>, n: nat)
    requires ValidManagerConfig(cfg) && IsRun(cfg, states, labels) && n <= |labels|
    ensures states[n] == StateAfter(cfg, labels[..n])
  {
    if n > 0 {
      RunState(cfg, states, labels, n - 1);
      assert StepAt(cfg, states, labels, n - 1);
      assert labels[..n][..n - 1] == labels[..n - 1];
    }
  }

  /** A run whose upserts and registrations are those of a topology being set up. */
  ghost predicate Tidy(cfg: ManagerConfig, labels: seq<Label>) {
    labels == [] ||
    var front, last := labels[..|labels| - 1], labels[|labels| - 1];
    Tidy(cfg, front) && IdleUpsert(StateAfter(cfg, front), last) && FreshRegistration(StateAfter(cfg, front), last)
  }

  lemma TidyNext(cfg: ManagerConfig, labels: seq<Label>, l: Label)
    requires Tidy(cfg, labels) && !l.Upsert? && !l.RegisterMovement?
    ensures Tidy(cfg, labels + [l])
  {
    assert (labels + [l])[..|labels|] == labels;
  }

  lemma {:induction false} TidyPrefix(cfg: ManagerConfig, labels: seq<Label>, i: nat)
    requires Tidy(cfg, labels) && i < |labels|
    ensures IdleUpsert(StateAfter(cfg, labels[..i]), labels[i])
    ensures FreshRegistration(StateAfter(cfg, labels[..i]), labels[i])
  {
    if i < |labels| - 1 {
      TidyPrefix(cfg, labels[..|labels| - 1], i);
      assert labels[..|labels| - 1][..i] == labels[..i];
    }
  }

  /** Tidy runs are safe runs: interlocked, consistent and free of conflicts. */
  lemma TidyIsSafe(cfg: ManagerConfig, states: seq<State>, labels: seq<Label>)
    requires ValidManagerConfig(cfg) && IsRun(cfg, states, labels) && Tidy(cfg, labels)
    ensures SafeRun(cfg, states, labels)
    ensures Safe(states[|labels|]) && SoundBook(states[|labels|].book)
  {
    forall i | 0 <= i < |labels|
      ensures IdleAt(states, labels, i) && FreshRegistration(states[i], labels[i])
    {
      RunState(cfg, states, labels, i);
      TidyPrefix(cfg, labels, i);
    }
    AlwaysInterlocked(cfg, states, labels, |labels|);
    NeverConflicting(cfg, states, labels, |labels|);
  }

  // A planned release is for a resource with nothing pending.
  lemma ReleaseIsNew(cfg: ManagerConfig, s: State, r: string, simulationNow: nat, wallNow: nat, d: Decision)
    requires ValidManagerConfig(cfg) && Safe(s)
    requires PlanResult(cfg, s, r, simulationNow, wallNow, d) && d.action == Release
    ensures r in s.corridors && r !in s.pending && d.resourceId == r && d.trainId != ""
  {
    var l := Plan(r, simulationNow, wallNow, d);
    StepMoves(cfg, s, l, Next(cfg, s, l));
    DispatchManagers.PlannedReleaseIsReservable(cfg, s, r, simulationNow, wallNow, d);
  }

  // ----- clearing a list of intersections -----

  function ClearedAll(b: Book, ixs: seq<string>, train: string, now: nat): Book {
    if ixs == [] then b else Cleared(ClearedAll(b, ixs[..|ixs| - 1], train, now), ixs[|ixs| - 1], train, now)
  }

  // Some clear in the list finds a reservation of the train.
  predicate AnyHeld(b: Book, ixs: seq<string>, train: string, now: nat) {
    ixs != [] &&
    var front, last := ixs[..|ixs| - 1], ixs[|ixs| - 1];
    AnyHeld(b, front, train, now) || HoldsAt(ClearedAll(b, front, train, now), last, train)
  }

  // The clear changes something.
  predicate CanLeave(s: State, resource: string, ixs: seq<string>, train: string, now: nat) {
    (resource != "" && CanExit(s, resource)) || AnyHeld(s.book, ixs, train, now)
  }

  // The state after a train left the resource and the intersections.
  function LeftState(s: State, resource: string, ixs: seq<string>, train: string, now: nat): State {
    var t := if resource == "" then s else Exited(s, resource);
    t.(book := ClearedAll(s.book, ixs, train, now))
  }

  // The intersections of the given movements, without repetition.
  ghost predicate IntersectionsOf(movements: seq<Movement>, ids: seq<string>, ixs: seq<string>) {
    && (forall m <- movements :: m.movementId in ids ==> m.intersectionId in ixs)
    && (forall ix <- ixs :: exists m :: m in movements && m.movementId in ids && m.intersectionId == ix)
    && (forall i, j | 0 <= i < j < |ixs| :: ixs[i] != ixs[j])
  }

  // ----- recovery rows -----

  function RowsOf(pending: seq<Decision>, active: seq<Decision>): seq<Row> {
    seq(|pending|, i requires 0 <= i < |pending| => Row(pending[i], false))
      + seq(|active|, i requires 0 <= i < |active| => Row(active[i], true))
  }

  lemma RowsOfParts(pending: seq<Decision>, active: seq<Decision>)
    ensures var rows := RowsOf(pending, active);
      && |rows| == |pending| + |active| && rows[..|pending| + |active|] == rows
      && (forall i | 0 <= i < |pending| :: rows[i] == Row(pending[i], false))
      && (forall i | 0 <= i < |active| :: rows[|pending| + i] == Row(active[i], true))
  {
  }

  // Row `i` belongs to the topology and is accepted after the rows before it.
  ghost predicate RowFits(start: State, rows: seq<Row>, i: nat, revision: nat)
    requires i < |rows|
  {
    rows[i].decision.topologyRevision == revision && Accepts(Replay(start, rows[..i]), rows[i])
  }

  ghost predicate Recoverable(start: State, pending: seq<Decision>, active: seq<Decision>, revision: nat) {
    var rows := RowsOf(pending, active);
    forall i | 0 <= i < |rows| :: RowFits(start, rows, i, revision)
  }

  lemma RestoreKeepsCommands(commands: Commands, s: State, d: Decision)
    requires CommandsPending(commands, s.pending) && PendingAgrees(s) && CanRestorePending(s, d)
    ensures CommandsPending(commands[d.trainId := d], PendingRestored(s, d).pending)
  {
    var more := commands[d.trainId := d];
    forall t | t in more ensures IsPending(more[t], PendingRestored(s, d).pending) {
      if t != d.trainId {
        assert IsPending(commands[t], s.pending);
      }
    }
  }

  // What the stored rows guarantee of what recovery reads from them.
  ghost predicate ReadFrom(stored: Table, pending: seq<Decision>, active: seq<Decision>) {
    && (forall d <- pending :: d.commandId in stored && stored[d.commandId] == TableRow(d, PendingRow))
    && (forall d <- active :: d.commandId in stored && stored[d.commandId] == TableRow(d, AcceptedRow))
  }

  lemma RecoveredRecords(
    commands: Commands, activeCommands: Commands, stored: Table, next: nat,
    pending: seq<Decision>, active: seq<Decision>)
    requires ReadFrom(stored, pending, active) && next > 0
    requires forall t <- commands :: commands[t].trainId == t && commands[t] in pending
    requires forall t <- activeCommands :: activeCommands[t] in active
    requires forall id <- stored :: 0 < id < next && stored[id].command.commandId == id
    ensures IdsUsed(commands, stored, next) && Recorded(commands, activeCommands, stored, {})
  {
    forall t | t in commands
      ensures commands[t].commandId in stored && stored[commands[t].commandId] == TableRow(commands[t], PendingRow)
    {
      assert commands[t] in pending;
    }
    forall t | t in activeCommands
      ensures activeCommands[t].commandId in stored
      ensures stored[activeCommands[t].commandId] == TableRow(activeCommands[t], AcceptedRow)
    {
      assert activeCommands[t] in active;
    }
  }
}
