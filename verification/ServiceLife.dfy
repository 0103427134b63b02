/** The service object lives such a life: whenever its maps and its table are in step with a
    moment, what its methods promise leads to a moment they are in step with again. */
module ServiceLife {
  import opened Basics
  import opened Reservations
  import opened Policy
  import opened DispatchSpec
  import opened DispatchManagers
  import opened DispatchRuns
  import opened Restart
  import opened Lifecycle
  import opened Setup
  import opened Cycle
  import opened LiveRows
  import opened Recovery
  import opened Lives
  import opened Restarts
  import S = Service

  // ----- maps, table and rows -----

  /** The rows in memory are the commands, pending, and the passages, accepted. */
  ghost predicate Filed(live: seq<Row>, commands: Commands, active: Commands) {
    && (forall t <- commands :: commands[t].trainId == t && Row(commands[t], false) in live)
    && (forall t <- active :: active[t].trainId == t && Row(active[t], true) in live)
    && forall i | 0 <= i < |live| :: FiledAs(live[i], commands, active)
  }

  predicate FiledAs(row: Row, commands: Commands, active: Commands) {
    var t := row.decision.trainId;
    if row.accepted then t in active && active[t] == row.decision else t in commands && commands[t] == row.decision
  }

  function StatusOf(row: Row): Status {
    if row.accepted then AcceptedRow else PendingRow
  }

  predicate IsUnfinished(status: Status) {
    status == PendingRow || status == AcceptedRow
  }

  function RowOfTable(entry: TableRow): Row {
    Row(entry.command, entry.status == AcceptedRow)
  }

  /** The unfinished entries of the table are exactly the given rows, each once. */
  ghost predicate Tabled(table: Table, rows: multiset<Row>) {
    && (forall id <- table :: table[id].command.commandId == id)
    && (forall row <- rows ::
          row.decision.commandId in table && table[row.decision.commandId] == TableRow(row.decision, StatusOf(row)))
    && (forall id <- table :: IsUnfinished(table[id].status) ==> RowOfTable(table[id]) in rows)
    && (forall row <- rows :: rows[row] == 1)
  }

  ghost predicate InStep(m: Moment, commands: Commands, active: Commands, table: Table) {
    Filed(m.live, commands, active) && Tabled(table, Stored(m))
  }

  // One row of the table changes its status.
  lemma StatusChanged(table: Table, rows: multiset<Row>, row: Row, status: Status)
    requires Tabled(table, rows) && row in rows && (status == PendingRow ==> !row.accepted)
    ensures var entry := TableRow(row.decision, status);
      Tabled(table[row.decision.commandId := entry],
             if IsUnfinished(status) then rows - multiset{row} + multiset{RowOfTable(entry)} else rows - multiset{row})
  {
    var id, entry := row.decision.commandId, TableRow(row.decision, status);
    var rest := rows - multiset{row};
    forall other | other in rest ensures other.decision.commandId != id {
      OneRowPerId(table, rows, row, other);
    }
  }

  lemma OneRowPerId(table: Table, rows: multiset<Row>, p: Row, q: Row)
    requires Tabled(table, rows) && p in rows && q in rows
    ensures p.decision.commandId == q.decision.commandId ==> p == q
  {
    assert table[p.decision.commandId] == TableRow(p.decision, StatusOf(p));
    assert table[q.decision.commandId] == TableRow(q.decision, StatusOf(q));
  }

  lemma EntryAdded(table: Table, rows: multiset<Row>, c: Decision)
    requires Tabled(table, rows) && c.commandId !in table
    ensures Tabled(table[c.commandId := TableRow(c, PendingRow)], rows + multiset{Row(c, false)})
  {
    assert Row(c, false) !in rows;
  }

  // What recovery reads: the PENDING and the ACCEPTED entries, each once.
  ghost predicate Reads(table: Table, pending: seq<Decision>, active: seq<Decision>) {
    && ReadFrom(table, pending, active)
    && (forall id <- table :: table[id].status == PendingRow ==> table[id].command in pending)
    && (forall id <- table :: table[id].status == AcceptedRow ==> table[id].command in active)
    && (forall i, j | 0 <= i < j < |pending| :: pending[i].commandId != pending[j].commandId)
    && (forall i, j | 0 <= i < j < |active| :: active[i].commandId != active[j].commandId)
  }

  lemma {:induction false} CountOfDistinct(rows: seq<Row>, row: Row)
    requires row in rows && forall i, j | 0 <= i < j < |rows| :: rows[i] != rows[j]
    ensures multiset(rows)[row] == 1
  {
    var n := |rows| - 1;
    assert rows == rows[..n] + [rows[n]];
    if row == rows[n] {
      assert row !in rows[..n];
    } else {
      CountOfDistinct(rows[..n], row);
    }
  }

  lemma RowsOfDistinct(pending: seq<Decision>, active: seq<Decision>)
    requires forall i, j | 0 <= i < j < |pending| :: pending[i].commandId != pending[j].commandId
    requires forall i, j | 0 <= i < j < |active| :: active[i].commandId != active[j].commandId
    ensures var rows := RowsOf(pending, active); forall i, j | 0 <= i < j < |rows| :: rows[i] != rows[j]
  {
    var rows, k := RowsOf(pending, active), |pending|;
    RowsOfParts(pending, active);
    forall i, j | 0 <= i < j < |rows| ensures rows[i] != rows[j] {
      assert j < k ==> rows[i] == Row(pending[i], false) && rows[j] == Row(pending[j], false);
      assert i < k <= j ==> !rows[i].accepted && rows[j] == Row(active[j - k], true);
      assert k <= i ==> rows[i] == Row(active[i - k], true) && rows[j] == Row(active[j - k], true);
    }
  }

  lemma InRowsOf(pending: seq<Decision>, active: seq<Decision>, row: Row)
    ensures row in RowsOf(pending, active) <==>
      if row.accepted then row.decision in active else row.decision in pending
  {
    var rows := RowsOf(pending, active);
    RowsOfParts(pending, active);
    if row in rows {
      var i :| 0 <= i < |rows| && rows[i] == row;
      assert i < |pending| ==> row == Row(pending[i], false);
      assert i >= |pending| ==> row == Row(active[i - |pending|], true);
    }
    if row.accepted && row.decision in active {
      var i :| 0 <= i < |active| && active[i] == row.decision;
      assert rows[|pending| + i] == row;
    }
    if !row.accepted && row.decision in pending {
      var i :| 0 <= i < |pending| && pending[i] == row.decision;
      assert rows[i] == row;
    }
  }

  lemma ReadIffStored(table: Table, rows: multiset<Row>, pending: seq<Decision>, active: seq<Decision>, row: Row)
    requires Tabled(table, rows) && Reads(table, pending, active)
    ensures row in RowsOf(pending, active) <==> row in rows
  {
    InRowsOf(pending, active, row);
    if row in rows {
      assert table[row.decision.commandId] == TableRow(row.decision, StatusOf(row));
    }
    if row in RowsOf(pending, active) {
      assert table[row.decision.commandId] == TableRow(row.decision, StatusOf(row));
      assert RowOfTable(table[row.decision.commandId]) == row;
    }
  }

  /** Recovery reads exactly the stored rows, so what is proved of restarts at a moment holds
      of what is read from a table in step with it. */
  lemma ReadingGivesStored(table: Table, rows: multiset<Row>, pending: seq<Decision>, active: seq<Decision>)
    requires Tabled(table, rows) && Reads(table, pending, active)
    ensures multiset(RowsOf(pending, active)) == rows
  {
    var read := RowsOf(pending, active);
    RowsOfDistinct(pending, active);
    forall row ensures multiset(read)[row] == rows[row] {
      ReadIffStored(table, rows, pending, active, row);
      if row in read {
        CountOfDistinct(read, row);
      }
    }
  }

  // ----- one deed -----

  // What a life that goes on keeps.
  ghost predicate Extends(moments: seq<Moment>, deeds: seq<Deed>, ms: seq<Moment>, ds: seq<Deed>) {
    moments <= ms && deeds <= ds
  }

  ghost function After(cfg: ManagerConfig, m: Moment, deed: Deed): Moment
    requires ValidManagerConfig(cfg) && GoodLines(m.state) && Possible(cfg, m.state, m.live, deed)
  {
    Moment(StateAfterDeed(cfg, m.state, m.live, deed), LiveAfter(m, deed), StrayAfter(m, deed), UnfiledAfter(m, deed))
  }

  lemma Advance(
    cfg: ManagerConfig, topology: Topology, then_: nat, moments: seq<Moment>, deeds: seq<Deed>, deed: Deed)
    returns (ms: seq<Moment>, ds: seq<Deed>)
    requires ValidManagerConfig(cfg) && Life(cfg, topology, then_, moments, deeds)
    requires var m := moments[|deeds|];
      GoodLines(m.state) && Possible(cfg, m.state, m.live, deed) && Traceable(m.state, m.live, deed)
    requires deed.Issue? ==> deed.command.topologyRevision == topology.revision
    ensures Life(cfg, topology, then_, ms, ds) && Extends(moments, deeds, ms, ds) && |ds| == |deeds| + 1
    ensures var m := moments[|deeds|];
      ms[|ds|] == After(cfg, m, deed)
  {
    var m := moments[|deeds|];
    var next := After(cfg, m, deed);
    LifeGrows(cfg, topology, then_, moments, deeds, deed, next);
    ms, ds := moments + [next], deeds + [deed];
  }

  lemma NowTracked(cfg: ManagerConfig, topology: Topology, then_: nat, moments: seq<Moment>, deeds: seq<Deed>)
    requires ValidManagerConfig(cfg) && Life(cfg, topology, then_, moments, deeds)
    ensures Tracked(moments[|deeds|])
  {
    AlwaysFollowed(cfg, topology, then_, moments, deeds, |deeds|, then_);
  }

  lemma NowOnePerKind(cfg: ManagerConfig, topology: Topology, then_: nat, moments: seq<Moment>, deeds: seq<Deed>)
    requires ValidManagerConfig(cfg) && Life(cfg, topology, then_, moments, deeds)
    ensures OnePerKind(moments[|deeds|].live) && GoodLines(moments[|deeds|].state)
  {
    NowTracked(cfg, topology, then_, moments, deeds);
  }

  // The one row of a train of its kind.
  lemma RowIsAt(rows: seq<Row>, row: Row)
    requires OnePerKind(rows) && row in rows
    ensures var i := RowOf(rows, row.decision.trainId, row.accepted); i.Some? && rows[i.value] == row
  {
    var j :| 0 <= j < |rows| && rows[j] == row;
    var i := RowOf(rows, row.decision.trainId, row.accepted).value;
    assert rows[i].decision.trainId == rows[j].decision.trainId;
  }

  lemma CommandHasRow(m: Moment, commands: Commands, active: Commands, train: string)
    requires OnePerKind(m.live) && Filed(m.live, commands, active)
    ensures HasCommand(m.live, train) <==> train in commands
    ensures HasPassage(m.live, train) <==> train in active
    ensures train in commands ==> m.live[CommandRow(m.live, train)] == Row(commands[train], false)
    ensures train in active ==> m.live[PassageRow(m.live, train)] == Row(active[train], true)
  {
    if train in commands {
      RowIsAt(m.live, Row(commands[train], false));
    }
    if train in active {
      RowIsAt(m.live, Row(active[train], true));
    }
    if HasCommand(m.live, train) {
      assert FiledAs(m.live[CommandRow(m.live, train)], commands, active);
    }
    if HasPassage(m.live, train) {
      assert FiledAs(m.live[PassageRow(m.live, train)], commands, active);
    }
  }

  lemma KeptElsewhere(live: seq<Row>, i: nat, row: Row)
    requires OnePerKind(live) && i < |live| && row in live
    requires row.decision.trainId != live[i].decision.trainId || row.accepted != live[i].accepted
    ensures row in Without(live, i)
  {
    var k :| 0 <= k < |live| && live[k] == row;
    assert Without(live, i)[if k < i then k else k - 1] == row;
  }

  // A row leaves memory together with its command or passage.
  lemma FiledWithout(live: seq<Row>, i: nat, commands: Commands, active: Commands)
    requires OnePerKind(live) && Filed(live, commands, active) && i < |live|
    ensures var row := live[i]; var t := row.decision.trainId;
      Filed(Without(live, i), if row.accepted then commands else commands - {t},
            if row.accepted then active - {t} else active)
  {
    var rest, row := Without(live, i), live[i];
    var t := row.decision.trainId;
    var cs, ps := if row.accepted then commands else commands - {t}, if row.accepted then active - {t} else active;
    forall j | 0 <= j < |rest| ensures FiledAs(rest[j], cs, ps) {
      var k := if j < i then j else j + 1;
      assert FiledAs(live[k], commands, active);
      OneOfKind(live, i, k);
    }
    forall u | u in cs ensures cs[u].trainId == u && Row(cs[u], false) in rest {
      KeptElsewhere(live, i, Row(cs[u], false));
    }
    forall u | u in ps ensures ps[u].trainId == u && Row(ps[u], true) in rest {
      KeptElsewhere(live, i, Row(ps[u], true));
    }
  }

  lemma OneOfKind(rows: seq<Row>, i: nat, k: nat)
    requires OnePerKind(rows) && i < |rows| && k < |rows| && i != k
    ensures rows[k].accepted == rows[i].accepted ==> rows[k].decision.trainId != rows[i].decision.trainId
  {
  }

  // An accepted command becomes the train's passage, in the place of an older one.
  lemma FiledAccepted(m: Moment, i: nat, now: nat, commands: Commands, active: Commands)
    requires OnePerKind(m.live) && Filed(m.live, commands, active) && i < |m.live| && !m.live[i].accepted
    ensures var d := m.live[i].decision;
      Filed(LiveAfter(m, Accept(i, now)), commands - {d.trainId}, active[d.trainId := d])
  {
    var d, next := m.live[i].decision, LiveAfter(m, Accept(i, now));
    var t := d.trainId;
    forall j | 0 <= j < |next| ensures FiledAs(next[j], commands - {t}, active[t := d]) {
      AcceptedRowAt(m, i, now, j);
      var k := if HasPassage(m.live, t) && j >= PassageRow(m.live, t) then j + 1 else j;
      assert FiledAs(m.live[k], commands, active);
      if k != i {
        OneOfKind(m.live, i, k);
        if HasPassage(m.live, t) {
          OneOfKind(m.live, PassageRow(m.live, t), k);
        }
      }
    }
    forall u | u in commands - {t} ensures Row(commands[u], false) in next {
      AcceptedKeeps(m, i, now, Row(commands[u], false));
    }
    forall u | u in active && u != t ensures Row(active[u], true) in next {
      AcceptedKeeps(m, i, now, Row(active[u], true));
    }
    AcceptedIsThere(m, i, now);
  }

  lemma AcceptedRowAt(m: Moment, i: nat, now: nat, j: nat)
    requires i < |m.live| && !m.live[i].accepted && j < |LiveAfter(m, Accept(i, now))|
    ensures var t := m.live[i].decision.trainId;
      var k := if HasPassage(m.live, t) && j >= PassageRow(m.live, t) then j + 1 else j;
      && k < |m.live| && (HasPassage(m.live, t) ==> k != PassageRow(m.live, t))
      && LiveAfter(m, Accept(i, now))[j] == if k == i then Row(m.live[i].decision, true) else m.live[k]
  {
  }

  lemma AcceptedKeeps(m: Moment, i: nat, now: nat, row: Row)
    requires OnePerKind(m.live) && i < |m.live| && !m.live[i].accepted && row in m.live
    requires row.decision.trainId != m.live[i].decision.trainId
    ensures row in LiveAfter(m, Accept(i, now))
  {
    var k :| 0 <= k < |m.live| && m.live[k] == row;
    var t := m.live[i].decision.trainId;
    var j := if HasPassage(m.live, t) && k > PassageRow(m.live, t) then k - 1 else k;
    AcceptedRowAt(m, i, now, j);
    assert LiveAfter(m, Accept(i, now))[j] == row;
  }

  lemma AcceptedIsThere(m: Moment, i: nat, now: nat)
    requires i < |m.live| && !m.live[i].accepted
    ensures Row(m.live[i].decision, true) in LiveAfter(m, Accept(i, now))
  {
    var t := m.live[i].decision.trainId;
    var j := if HasPassage(m.live, t) && i > PassageRow(m.live, t) then i - 1 else i;
    AcceptedRowAt(m, i, now, j);
    assert LiveAfter(m, Accept(i, now))[j] == Row(m.live[i].decision, true);
  }

  // ----- stale trains -----

  /** Dropping one stale train, as the cleanup does for each, is a deed: its command goes,
      its row stays. */
  lemma ForgettingIsDeed(
    cfg: ManagerConfig, topology: Topology, then_: nat, moments: seq<Moment>, deeds: seq<Deed>,
    commands: Commands, active: Commands, table: Table, train: string)
    returns (ms: seq<Moment>, ds: seq<Deed>)
    requires ValidManagerConfig(cfg) && Life(cfg, topology, then_, moments, deeds)
    requires InStep(moments[|deeds|], commands, active, table)
    ensures Life(cfg, topology, then_, ms, ds) && Extends(moments, deeds, ms, ds)
    ensures InStep(ms[|ds|], commands - {train}, active, table)
    ensures ms[|ds|].state ==
      if train in commands then PendingCancelled(moments[|deeds|].state, commands[train].resourceId)
      else moments[|deeds|].state
  {
    var m := moments[|deeds|];
    NowOnePerKind(cfg, topology, then_, moments, deeds);
    CommandHasRow(m, commands, active, train);
    ms, ds := Advance(cfg, topology, then_, moments, deeds, Stale(train));
    StaleInStep(m, commands, active, table, train, ms[|ds|]);
  }

  lemma StaleInStep(m: Moment, commands: Commands, active: Commands, table: Table, train: string, next: Moment)
    requires OnePerKind(m.live) && InStep(m, commands, active, table)
    requires next.live == LiveAfter(m, Stale(train)) && next.stray == StrayAfter(m, Stale(train))
    ensures InStep(next, commands - {train}, active, table)
  {
    StaleFiled(m, commands, active, train);
    StaleStored(m, train, next);
    SameStored(table, Stored(m), Stored(next));
  }

  lemma StaleStored(m: Moment, train: string, next: Moment)
    requires next.live == LiveAfter(m, Stale(train)) && next.stray == StrayAfter(m, Stale(train))
    ensures Stored(next) == Stored(m)
  {
    StoredAfter(m, Stale(train));
  }

  lemma SameStored(table: Table, p: multiset<Row>, q: multiset<Row>)
    requires Tabled(table, p) && p == q
    ensures Tabled(table, q)
  {
  }

  lemma StaleFiled(m: Moment, commands: Commands, active: Commands, train: string)
    requires OnePerKind(m.live) && Filed(m.live, commands, active)
    ensures Filed(LiveAfter(m, Stale(train)), commands - {train}, active)
  {
    CommandHasRow(m, commands, active, train);
    if train in commands {
      FiledWithout(m.live, CommandRow(m.live, train), commands, active);
    } else {
      assert commands - {train} == commands;
    }
  }

  /** A cleanup of stale trains, for what it does to the maps and the manager. */
  lemma {:induction false} CleanupIsDeeds(
    cfg: ManagerConfig, topology: Topology, then_: nat, moments: seq<Moment>, deeds: seq<Deed>,
    commands: Commands, active: Commands, table: Table, removed: seq<string>, n: nat)
    returns (ms: seq<Moment>, ds: seq<Deed>)
    requires ValidManagerConfig(cfg) && Life(cfg, topology, then_, moments, deeds) && n <= |removed|
    requires InStep(moments[|deeds|], commands, active, table)
    ensures Life(cfg, topology, then_, ms, ds) && Extends(moments, deeds, ms, ds)
    ensures InStep(ms[|ds|], commands - Listed(removed[..n]), active, table)
    ensures ms[|ds|].state == WithoutCommands(moments[|deeds|].state, commands, removed[..n])
  {
    if n == 0 {
      ms, ds := moments, deeds;
      assert commands - Listed(removed[..0]) == commands;
    } else {
      ms, ds := CleanupIsDeeds(cfg, topology, then_, moments, deeds, commands, active, table, removed, n - 1);
      StaleNext(moments[|deeds|].state, commands, removed, n - 1);
      ms, ds := ForgettingIsDeed(
        cfg, topology, then_, ms, ds, commands - Listed(removed[..n - 1]), active, table, removed[n - 1]);
    }
  }

  lemma {:induction false} NothingToForget(s: State, commands: Commands, removed: seq<string>)
    requires Listed(removed) !! commands.Keys
    ensures WithoutCommands(s, commands, removed) == s
  {
    if removed != [] {
      var front, last := removed[..|removed| - 1], removed[|removed| - 1];
      assert removed == front + [last] && last in Listed(removed);
      assert Listed(front) <= Listed(removed);
      NothingToForget(s, commands, front);
    }
  }

  lemma {:induction false} ForgottenIsNotPending(s: State, commands: Commands, removed: seq<string>, train: string)
    requires train in removed && train in commands
    ensures commands[train].resourceId !in WithoutCommands(s, commands, removed).pending
  {
    var front, last := removed[..|removed| - 1], removed[|removed| - 1];
    assert removed == front + [last];
    if train in front {
      ForgottenIsNotPending(s, commands, front, train);
    }
  }

  /** After a cleanup the stored rows still describe the manager exactly when no removed
      train had a command. */
  lemma CleanupKeepsRowsIff(m: Moment, commands: Commands, active: Commands, removed: seq<string>)
    requires Described(m.state, m.live) && Filed(m.live, commands, active)
    ensures Described(WithoutCommands(m.state, commands, removed), m.live) <==> Listed(removed) !! commands.Keys
  {
    if Listed(removed) !! commands.Keys {
      NothingToForget(m.state, commands, removed);
    } else {
      var train :| train in removed && train in commands;
      ForgottenIsNotPending(m.state, commands, removed, train);
      UnpendedRow(WithoutCommands(m.state, commands, removed), m.live, Row(commands[train], false));
    }
  }

  lemma UnpendedRow(s: State, rows: seq<Row>, row: Row)
    requires row in rows && !row.accepted && row.decision.resourceId !in s.pending
    ensures !TrackIsRows(s, rows)
  {
    var i :| 0 <= i < |rows| && rows[i] == row;
    assert rows[i].decision.resourceId !in s.pending;
  }

  // ----- answers -----

  lemma AcceptedStored(m: Moment, i: nat, now: nat, next: Moment)
    requires i < |m.live| && next.live == LiveAfter(m, Accept(i, now)) && next.stray == StrayAfter(m, Accept(i, now))
    ensures Stored(next) == Stored(m) - multiset{m.live[i]} + multiset{Row(m.live[i].decision, true)}
  {
    StoredAfter(m, Accept(i, now));
    assert multiset(m.live[i := Row(m.live[i].decision, true)])
        == multiset(m.live) - multiset{m.live[i]} + multiset{Row(m.live[i].decision, true)};
  }

  lemma AcceptInStep(m: Moment, commands: Commands, active: Commands, table: Table, i: nat, now: nat, next: Moment)
    requires OnePerKind(m.live) && InStep(m, commands, active, table) && i < |m.live| && !m.live[i].accepted
    requires next.live == LiveAfter(m, Accept(i, now)) && next.stray == StrayAfter(m, Accept(i, now))
    ensures var c := m.live[i].decision;
      InStep(next, commands - {c.trainId}, active[c.trainId := c],
             table[c.commandId := TableRow(c, AcceptedRow)])
  {
    var row := m.live[i];
    FiledAccepted(m, i, now, commands, active);
    AcceptedStored(m, i, now, next);
    assert row in Stored(m);
    StatusChanged(table, Stored(m), row, AcceptedRow);
  }

  // A row is finished, rejected or cleared.
  lemma FinishInStep(
    m: Moment, commands: Commands, active: Commands, table: Table, i: nat, status: Status, next: Moment)
    requires OnePerKind(m.live) && InStep(m, commands, active, table) && i < |m.live| && !IsUnfinished(status)
    requires next.live == Without(m.live, i) && next.stray == m.stray
    ensures var row := m.live[i]; var c := row.decision;
      InStep(next, if row.accepted then commands else commands - {c.trainId},
             if row.accepted then active - {c.trainId} else active, table[c.commandId := TableRow(c, status)])
  {
    var row := m.live[i];
    FiledWithout(m.live, i, commands, active);
    WithoutOne(m.live, i);
    assert row in Stored(m);
    StatusChanged(table, Stored(m), row, status);
    assert Stored(next) == Stored(m) - multiset{row};
  }

  lemma AcceptanceIsDeed(
    cfg: ManagerConfig, topology: Topology, then_: nat, moments: seq<Moment>, deeds: seq<Deed>,
    commands: Commands, active: Commands, table: Table, train: string, now: nat)
    returns (ms: seq<Moment>, ds: seq<Deed>)
    requires ValidManagerConfig(cfg) && Life(cfg, topology, then_, moments, deeds) && train in commands
    requires InStep(moments[|deeds|], commands, active, table)
    ensures Life(cfg, topology, then_, ms, ds) && Extends(moments, deeds, ms, ds)
    ensures ms[|ds|].state == Confirmed(moments[|deeds|].state, commands[train].resourceId, train, now)
    ensures InStep(ms[|ds|], commands - {train}, active[train := commands[train]],
                   table[commands[train].commandId := TableRow(commands[train], AcceptedRow)])
  {
    var m := moments[|deeds|];
    NowOnePerKind(cfg, topology, then_, moments, deeds);
    CommandHasRow(m, commands, active, train);
    var i := CommandRow(m.live, train);
    ms, ds := Advance(cfg, topology, then_, moments, deeds, Accept(i, now));
    AcceptInStep(m, commands, active, table, i, now, ms[|ds|]);
  }

  lemma RejectionIsDeed(
    cfg: ManagerConfig, topology: Topology, then_: nat, moments: seq<Moment>, deeds: seq<Deed>,
    commands: Commands, active: Commands, table: Table, train: string)
    returns (ms: seq<Moment>, ds: seq<Deed>)
    requires ValidManagerConfig(cfg) && Life(cfg, topology, then_, moments, deeds) && train in commands
    requires InStep(moments[|deeds|], commands, active, table)
    ensures Life(cfg, topology, then_, ms, ds) && Extends(moments, deeds, ms, ds)
    ensures ms[|ds|].state == PendingCancelled(moments[|deeds|].state, commands[train].resourceId)
    ensures InStep(ms[|ds|], commands - {train}, active,
                   table[commands[train].commandId := TableRow(commands[train], RejectedRow)])
  {
    var m := moments[|deeds|];
    NowOnePerKind(cfg, topology, then_, moments, deeds);
    CommandHasRow(m, commands, active, train);
    var i := CommandRow(m.live, train);
    ms, ds := Advance(cfg, topology, then_, moments, deeds, Reject(i));
    FinishInStep(m, commands, active, table, i, RejectedRow, ms[|ds|]);
  }

  /** A successful acknowledgement, for what it does to the maps, the table and the manager,
      is the answer to the command's row. */
  lemma AcknowledgementIsDeed(
    cfg: ManagerConfig, topology: Topology, then_: nat, moments: seq<Moment>, deeds: seq<Deed>,
    commands: Commands, active: Commands, table: Table, train: string, accepted: bool, now: nat)
    returns (ms: seq<Moment>, ds: seq<Deed>)
    requires ValidManagerConfig(cfg) && Life(cfg, topology, then_, moments, deeds) && train in commands
    requires InStep(moments[|deeds|], commands, active, table)
    ensures Life(cfg, topology, then_, ms, ds) && Extends(moments, deeds, ms, ds)
    ensures ms[|ds|].state == S.Answer(moments[|deeds|].state, commands[train].resourceId, train, accepted, now)
    ensures InStep(ms[|ds|], commands - {train}, S.Activated(active, commands, train, accepted),
                   table[commands[train].commandId := TableRow(commands[train], S.AckStatus(accepted))])
  {
    if accepted {
      ms, ds := AcceptanceIsDeed(cfg, topology, then_, moments, deeds, commands, active, table, train, now);
    } else {
      ms, ds := RejectionIsDeed(cfg, topology, then_, moments, deeds, commands, active, table, train);
    }
  }

  // ----- clears -----

  lemma PassageCanLeave(m: Moment, i: nat, ixs: seq<string>, now: nat)
    requires Tracked(m) && i < |m.live| && m.live[i].accepted
    ensures CanLeave(m.state, m.live[i].decision.resourceId, ixs, m.live[i].decision.trainId, now)
  {
    assert (m.live + m.stray)[i] == m.live[i];
    AcceptedRowCounts(m.live + m.stray, i);
    assert m.live[i].decision.resourceId in m.state.corridors;
  }

  lemma NowCanLeave(
    cfg: ManagerConfig, topology: Topology, then_: nat, moments: seq<Moment>, deeds: seq<Deed>,
    i: nat, ixs: seq<string>, now: nat)
    requires ValidManagerConfig(cfg) && Life(cfg, topology, then_, moments, deeds)
    requires i < |moments[|deeds|].live| && moments[|deeds|].live[i].accepted
    ensures var m := moments[|deeds|];
      CanLeave(m.state, m.live[i].decision.resourceId, ixs, m.live[i].decision.trainId, now)
  {
    NowTracked(cfg, topology, then_, moments, deeds);
    PassageCanLeave(moments[|deeds|], i, ixs, now);
  }

  /** A clear of a train's passage, of whichever intersections, for what it does to the maps,
      the table and the manager, is a deed, and it changes something. */
  lemma ClearIsDeed(
    cfg: ManagerConfig, topology: Topology, then_: nat, moments: seq<Moment>, deeds: seq<Deed>,
    commands: Commands, active: Commands, table: Table, train: string, ixs: seq<string>, now: nat)
    returns (ms: seq<Moment>, ds: seq<Deed>)
    requires ValidManagerConfig(cfg) && Life(cfg, topology, then_, moments, deeds) && train in active
    requires InStep(moments[|deeds|], commands, active, table)
    ensures Life(cfg, topology, then_, ms, ds) && Extends(moments, deeds, ms, ds)
    ensures var s, r := moments[|deeds|].state, active[train].resourceId;
      ms[|ds|].state == LeftState(s, r, ixs, train, now) && CanLeave(s, r, ixs, train, now)
    ensures InStep(ms[|ds|], commands, active - {train},
                   table[active[train].commandId := TableRow(active[train], ClearedRow)])
  {
    var m := moments[|deeds|];
    NowOnePerKind(cfg, topology, then_, moments, deeds);
    CommandHasRow(m, commands, active, train);
    var i := PassageRow(m.live, train);
    NowCanLeave(cfg, topology, then_, moments, deeds, i, ixs, now);
    ms, ds := Advance(cfg, topology, then_, moments, deeds, Clear(train, active[train].resourceId, ixs, now));
    FinishInStep(m, commands, active, table, i, ClearedRow, ms[|ds|]);
  }

  /** A clear for a train without a passage that takes none off a resource is a deed. */
  lemma IdleClearIsDeed(
    cfg: ManagerConfig, topology: Topology, then_: nat, moments: seq<Moment>, deeds: seq<Deed>,
    commands: Commands, active: Commands, table: Table, train: string, r: string, ixs: seq<string>, now: nat)
    returns (ms: seq<Moment>, ds: seq<Deed>)
    requires ValidManagerConfig(cfg) && Life(cfg, topology, then_, moments, deeds) && train !in active
    requires InStep(moments[|deeds|], commands, active, table) && !CanExit(moments[|deeds|].state, r)
    ensures Life(cfg, topology, then_, ms, ds) && Extends(moments, deeds, ms, ds)
    ensures ms[|ds|].state == LeftState(moments[|deeds|].state, r, ixs, train, now)
    ensures InStep(ms[|ds|], commands, active, table)
  {
    NowOnePerKind(cfg, topology, then_, moments, deeds);
    CommandHasRow(moments[|deeds|], commands, active, train);
    ms, ds := Advance(cfg, topology, then_, moments, deeds, Clear(train, r, ixs, now));
  }

  lemma {:induction false} BookMovements(clearance: nat, movements: seq<Movement>, k: string)
    ensures k in Movements(clearance, movements).movements ==> Movements(clearance, movements).movements[k] in movements
    ensures k in Movements(clearance, movements).movements ==>
      Movements(clearance, movements).movements[k].movementId == k
  {
    if movements != [] {
      BookMovements(clearance, movements[..|movements| - 1], k);
      assert movements == movements[..|movements| - 1] + [movements[|movements| - 1]];
    }
  }

  /** A request that names no intersections is filled in with all those of the passage. */
  lemma OmittedPlacesCoverPassage(clearance: nat, topology: Topology, b: Book, row: Row, ixs: seq<string>)
    requires b.movements == Movements(clearance, topology.movements).movements
    requires IntersectionsOf(topology.movements, row.decision.movementIds, ixs)
    ensures CoversPassage(b, row, ixs)
  {
    forall k | k in row.decision.movementIds && k in b.movements ensures b.movements[k].intersectionId in ixs {
      BookMovements(clearance, topology.movements, k);
    }
  }

  // ----- a telemetry cycle -----

  lemma {:induction false} OffersAreDeeds(
    cfg: ManagerConfig, topology: Topology, then_: nat, moments: seq<Moment>, deeds: seq<Deed>,
    rs: seq<string>, candidates: map<string, seq<Candidate>>, wallNow: nat)
    returns (ms: seq<Moment>, ds: seq<Deed>)
    requires ValidManagerConfig(cfg) && Life(cfg, topology, then_, moments, deeds)
    ensures Life(cfg, topology, then_, ms, ds) && Extends(moments, deeds, ms, ds)
    ensures var m := moments[|deeds|];
      ms[|ds|] == Moment(Offered(m.state, rs, candidates, wallNow), m.live, m.stray, m.unfiled)
  {
    if rs == [] {
      ms, ds := moments, deeds;
    } else {
      var last := rs[|rs| - 1];
      ms, ds := OffersAreDeeds(cfg, topology, then_, moments, deeds, rs[..|rs| - 1], candidates, wallNow);
      NowOnePerKind(cfg, topology, then_, ms, ds);
      ms, ds := Advance(cfg, topology, then_, ms, ds, Refresh(last, ListFor(candidates, last), wallNow));
    }
  }

  // The rows of new commands.
  function NewRows(issued: seq<Decision>): (rows: seq<Row>)
    ensures |rows| == |issued| && forall i | 0 <= i < |issued| :: rows[i] == Row(issued[i], false)
  {
    seq(|issued|, i requires 0 <= i < |issued| => Row(issued[i], false))
  }

  // Who has a command midway through the cycle.
  lemma HasCommandNow(live: seq<Row>, commands: Commands, active: Commands, issued: seq<Decision>, train: string)
    requires Filed(live, commands, active)
    ensures HasCommand(live + NewRows(issued), train) <==> train in commands || train in TrainsOf(issued)
  {
    var all := live + NewRows(issued);
    if train in commands {
      var k :| 0 <= k < |live| && live[k] == Row(commands[train], false);
      assert all[k] == live[k];
    }
    if train in TrainsOf(issued) {
      var k :| 0 <= k < |issued| && issued[k].trainId == train;
      assert all[|live| + k] == Row(issued[k], false);
    }
    if HasCommand(all, train) {
      var k := CommandRow(all, train);
      if k < |live| {
        assert FiledAs(live[k], commands, active);
      } else {
        assert all[k] == Row(issued[k - |live|], false);
      }
    }
  }

  // Resource `n` of the cycle is planned to `ds[n]`, as row `c` if it is a release.
  lemma PlanAtIsPossible(
    cfg: ManagerConfig, s: State, rs: seq<string>, simulationNow: nat, wallNow: nat, ds: seq<Decision>, n: nat)
    requires ValidManagerConfig(cfg) && GoodLines(s) && n < |ds| == |rs|
    requires AllPlanned(cfg, s, rs[..n + 1], simulationNow, wallNow, ds[..n + 1])
    ensures AllPlanned(cfg, s, rs[..n], simulationNow, wallNow, ds[..n])
    ensures var t := PlannedAll(s, rs[..n], simulationNow, ds[..n]);
      && PlanResult(cfg, t, rs[n], simulationNow, wallNow, ds[n])
      && PlannedAll(s, rs[..n + 1], simulationNow, ds[..n + 1]) == Planned(t, rs[n], simulationNow, ds[n])
  {
    assert rs[..n + 1][..n] == rs[..n] && ds[..n + 1][..n] == ds[..n];
  }

  lemma IssuedNext(commands: Commands, ds: seq<Decision>, n: nat, first: nat, revision: nat, now: nat)
    requires n < |ds|
    ensures Issued(commands, ds[..n + 1], first, revision, now)
         == WithCommand(commands, Issued(commands, ds[..n], first, revision, now), ds[n], first, revision, now)
  {
    assert ds[..n + 1][..n] == ds[..n];
  }

  lemma NewRowsNext(live: seq<Row>, issued: seq<Decision>, c: Decision)
    ensures live + NewRows(issued + [c]) == live + NewRows(issued) + [Row(c, false)]
  {
  }

  function CommandAt(d: Decision, id: nat, revision: nat, now: nat): Decision {
    d.(commandId := id, topologyRevision := revision, issuedAt := now)
  }

  // One planning of the cycle, with the rows of the commands issued before.
  lemma PlanningIsDeed(
    cfg: ManagerConfig, topology: Topology, then_: nat, moments: seq<Moment>, deeds: seq<Deed>,
    live: seq<Row>, commands: Commands, active: Commands, issued: seq<Decision>, r: string,
    simulationNow: nat, wallNow: nat, d: Decision, first: nat)
    returns (ms: seq<Moment>, ds: seq<Deed>)
    requires ValidManagerConfig(cfg) && Life(cfg, topology, then_, moments, deeds) && Filed(live, commands, active)
    requires GoodLines(moments[|deeds|].state) && moments[|deeds|].live == live + NewRows(issued)
    requires PlanResult(cfg, moments[|deeds|].state, r, simulationNow, wallNow, d)
    ensures Life(cfg, topology, then_, ms, ds) && Extends(moments, deeds, ms, ds)
    ensures ms[|ds|].state == Planned(moments[|deeds|].state, r, simulationNow, d)
    ensures ms[|ds|].live
         == live + NewRows(WithCommand(commands, issued, d, first, topology.revision, simulationNow))
    ensures ms[|ds|].stray == moments[|deeds|].stray
  {
    var c := CommandAt(d, first + |issued|, topology.revision, simulationNow);
    HasCommandNow(live, commands, active, issued, d.trainId);
    ms, ds := Advance(cfg, topology, then_, moments, deeds, Issue(r, simulationNow, wallNow, d, c));
    NewRowsNext(live, issued, c);
  }

  // Moment `t` is `m` after planning the first `n` resources.
  ghost predicate PlannedTo(
    m: Moment, t: Moment, commands: Commands, rs: seq<string>, now: nat, first: nat, revision: nat,
    ds: seq<Decision>, n: nat)
  {
    && GoodLines(m.state) && n <= |ds| == |rs|
    && t.state == PlannedAll(m.state, rs[..n], now, ds[..n])
    && t.live == m.live + NewRows(Issued(commands, ds[..n], first, revision, now))
    && t.stray == m.stray
  }

  lemma PlanningNext(
    cfg: ManagerConfig, topology: Topology, then_: nat, moments: seq<Moment>, deeds: seq<Deed>, m: Moment,
    commands: Commands, active: Commands, rs: seq<string>, simulationNow: nat, wallNow: nat, first: nat,
    decisions: seq<Decision>, n: nat)
    returns (ms: seq<Moment>, ds: seq<Deed>)
    requires ValidManagerConfig(cfg) && Life(cfg, topology, then_, moments, deeds) && n < |decisions| == |rs|
    requires Filed(m.live, commands, active) && GoodLines(m.state)
    requires AllPlanned(cfg, m.state, rs[..n + 1], simulationNow, wallNow, decisions[..n + 1])
    requires PlannedTo(m, moments[|deeds|], commands, rs, simulationNow, first, topology.revision, decisions, n)
    ensures Life(cfg, topology, then_, ms, ds) && Extends(moments, deeds, ms, ds)
    ensures PlannedTo(m, ms[|ds|], commands, rs, simulationNow, first, topology.revision, decisions, n + 1)
  {
    PlanAtIsPossible(cfg, m.state, rs, simulationNow, wallNow, decisions, n);
    var issued := Issued(commands, decisions[..n], first, topology.revision, simulationNow);
    IssuedNext(commands, decisions, n, first, topology.revision, simulationNow);
    ms, ds := PlanningIsDeed(
      cfg, topology, then_, moments, deeds, m.live, commands, active, issued, rs[n], simulationNow, wallNow,
      decisions[n], first);
  }

  lemma {:induction false} PlanningsAreDeeds(
    cfg: ManagerConfig, topology: Topology, then_: nat, moments: seq<Moment>, deeds: seq<Deed>, m: Moment,
    commands: Commands, active: Commands, rs: seq<string>, simulationNow: nat, wallNow: nat, first: nat,
    decisions: seq<Decision>, n: nat)
    returns (ms: seq<Moment>, ds: seq<Deed>)
    requires ValidManagerConfig(cfg) && Life(cfg, topology, then_, moments, deeds) && n <= |decisions| == |rs|
    requires Filed(m.live, commands, active)
    requires GoodLines(m.state) && m == moments[|deeds|]
    requires AllPlanned(cfg, m.state, rs[..n], simulationNow, wallNow, decisions[..n])
    ensures Life(cfg, topology, then_, ms, ds) && Extends(moments, deeds, ms, ds)
    ensures PlannedTo(m, ms[|ds|], commands, rs, simulationNow, first, topology.revision, decisions, n)
  {
    if n == 0 {
      ms, ds := moments, deeds;
      PlannedNothing(m, commands, rs, simulationNow, first, topology.revision, decisions);
    } else {
      PlanAtIsPossible(cfg, m.state, rs, simulationNow, wallNow, decisions, n - 1);
      var front, past := PlanningsAreDeeds(
        cfg, topology, then_, moments, deeds, m, commands, active, rs, simulationNow, wallNow, first, decisions, n - 1);
      ms, ds := PlanningNext(
        cfg, topology, then_, front, past, m, commands, active, rs, simulationNow, wallNow, first, decisions, n - 1);
    }
  }

  lemma PlannedNothing(
    m: Moment, commands: Commands, rs: seq<string>, now: nat, first: nat, revision: nat, ds: seq<Decision>)
    requires GoodLines(m.state) && |ds| == |rs|
    ensures PlannedTo(m, m, commands, rs, now, first, revision, ds, 0)
  {
    assert m.live + NewRows([]) == m.live;
  }

  lemma FiledWithNew(live: seq<Row>, kept: Commands, commands: Commands, active: Commands, issued: seq<Decision>, first: nat)
    requires Filed(live, kept, active) && Batch(kept, commands, issued, first)
    ensures Filed(live + NewRows(issued), commands, active)
  {
    var all := live + NewRows(issued);
    forall t | t in commands ensures commands[t].trainId == t && Row(commands[t], false) in all {
      if t in TrainsOf(issued) {
        var i :| 0 <= i < |issued| && issued[i].trainId == t;
        assert all[|live| + i] == Row(commands[t], false);
      } else {
        assert t in kept && Row(kept[t], false) in live;
      }
    }
    forall i | 0 <= i < |all| ensures FiledAs(all[i], commands, active) {
      if i < |live| {
        assert FiledAs(live[i], kept, active);
      } else {
        assert all[i] == Row(issued[i - |live|], false);
      }
    }
  }

  // The stored rows after inserting the new commands one by one.
  ghost function StoredWith(rows: multiset<Row>, issued: seq<Decision>): (more: multiset<Row>)
    ensures more == rows + multiset(NewRows(issued))
  {
    if issued == [] then rows
    else
      var front, last := issued[..|issued| - 1], issued[|issued| - 1];
      assert NewRows(issued) == NewRows(front) + [Row(last, false)];
      StoredWith(rows, front) + multiset{Row(last, false)}
  }

  lemma {:induction false} InsertedInStep(table: Table, rows: multiset<Row>, issued: seq<Decision>, first: nat)
    requires Tabled(table, rows) && forall id <- table :: id < first
    requires forall i | 0 <= i < |issued| :: issued[i].commandId == first + i
    ensures Tabled(Inserted(table, issued), StoredWith(rows, issued))
  {
    if issued != [] {
      var n := |issued| - 1;
      InsertedInStep(table, rows, issued[..n], first);
      NextIdUnused(table, issued[..n], first);
      EntryAdded(Inserted(table, issued[..n]), StoredWith(rows, issued[..n]), issued[n]);
    }
  }

  lemma NextIdUnused(table: Table, issued: seq<Decision>, first: nat)
    requires forall id <- table :: id < first
    requires forall i | 0 <= i < |issued| :: issued[i].commandId == first + i
    ensures first + |issued| !in Inserted(table, issued)
  {
    InsertedRows(table, issued, first);
  }

  // The moments up to the end of planning, before the cycle's transaction.
  lemma CycleIsDeeds(
    cfg: ManagerConfig, topology: Topology, then_: nat, moments: seq<Moment>, deeds: seq<Deed>,
    commands: Commands, active: Commands, table: Table, removed: seq<string>,
    candidates: map<string, seq<Candidate>>, simulationNow: nat, wallNow: nat, first: nat,
    planned: State, decisions: seq<Decision>, issued: seq<Decision>)
    returns (ms: seq<Moment>, ds: seq<Deed>, m: Moment)
    requires ValidManagerConfig(cfg) && Life(cfg, topology, then_, moments, deeds)
    requires InStep(moments[|deeds|], commands, active, table)
    requires Cycled(cfg, Offered(WithoutCommands(moments[|deeds|].state, commands, removed), Resources(topology.shared),
                                 candidates, wallNow),
                    planned, commands - Listed(removed), Resources(topology.shared), simulationNow, wallNow, first,
                    topology.revision, decisions, issued)
    ensures Life(cfg, topology, then_, ms, ds) && Extends(moments, deeds, ms, ds)
    ensures InStep(m, commands - Listed(removed), active, table)
    ensures ms[|ds|].state == planned && ms[|ds|].live == m.live + NewRows(issued) && ms[|ds|].stray == m.stray
  {
    var rs := Resources(topology.shared);
    ms, ds := CleanupIsDeeds(cfg, topology, then_, moments, deeds, commands, active, table, removed, |removed|);
    assert removed[..|removed|] == removed;
    ms, ds := OffersAreDeeds(cfg, topology, then_, ms, ds, rs, candidates, wallNow);
    m := ms[|ds|];
    assert rs[..|decisions|] == rs && decisions[..|decisions|] == decisions;
    ms, ds := PlanningsAreDeeds(
      cfg, topology, then_, ms, ds, m, commands - Listed(removed), active, rs, simulationNow, wallNow, first, decisions,
      |decisions|);
  }

  /** A telemetry cycle whose transaction commits, for what it does to the maps, the table
      and the manager, is a series of deeds. */
  lemma StoredCycleIsDeeds(
    cfg: ManagerConfig, topology: Topology, then_: nat, moments: seq<Moment>, deeds: seq<Deed>,
    commands: Commands, active: Commands, table: Table, removed: seq<string>,
    candidates: map<string, seq<Candidate>>, simulationNow: nat, wallNow: nat, first: nat,
    planned: State, decisions: seq<Decision>, issued: seq<Decision>, after: Commands)
    returns (ms: seq<Moment>, ds: seq<Deed>)
    requires ValidManagerConfig(cfg) && Life(cfg, topology, then_, moments, deeds)
    requires InStep(moments[|deeds|], commands, active, table) && forall id <- table :: id < first
    requires Cycled(cfg, Offered(WithoutCommands(moments[|deeds|].state, commands, removed), Resources(topology.shared),
                                 candidates, wallNow),
                    planned, commands - Listed(removed), Resources(topology.shared), simulationNow, wallNow, first,
                    topology.revision, decisions, issued)
    requires Batch(commands - Listed(removed), after, issued, first)
    ensures Life(cfg, topology, then_, ms, ds) && Extends(moments, deeds, ms, ds)
    ensures ms[|ds|].state == planned && InStep(ms[|ds|], after, active, Inserted(table, issued))
  {
    var m;
    ms, ds, m := CycleIsDeeds(
      cfg, topology, then_, moments, deeds, commands, active, table, removed, candidates, simulationNow, wallNow, first,
      planned, decisions, issued);
    FiledWithNew(m.live, commands - Listed(removed), after, active, issued, first);
    InsertedInStep(table, Stored(m), issued, first);
    StoredTogether(m, issued, ms[|ds|]);
    SameStored(Inserted(table, issued), StoredWith(Stored(m), issued), Stored(ms[|ds|]));
  }

  lemma StoredTogether(m: Moment, issued: seq<Decision>, next: Moment)
    requires next.live == m.live + NewRows(issued) && next.stray == m.stray
    ensures Stored(next) == StoredWith(Stored(m), issued)
  {
  }

  lemma WithdrawnFirst(live: seq<Row>, issued: seq<Decision>, k: nat)
    requires k < |issued|
    ensures var all := live + NewRows(issued[k..]);
      && all[|live|] == Row(issued[k], false)
      && Without(all, |live|) == live + NewRows(issued[k + 1..])
  {
    var all := live + NewRows(issued[k..]);
    assert issued[k..][0] == issued[k] && issued[k..][1..] == issued[k + 1..];
    assert NewRows(issued[k..])[1..] == NewRows(issued[k + 1..]);
    assert all[|live| + 1..] == NewRows(issued[k + 1..]);
  }

  // The commands of a failed cycle are withdrawn one after the other.
  lemma {:induction false} WithdrawalsAreDeeds(
    cfg: ManagerConfig, topology: Topology, then_: nat, moments: seq<Moment>, deeds: seq<Deed>,
    live: seq<Row>, issued: seq<Decision>, k: nat)
    returns (ms: seq<Moment>, ds: seq<Deed>)
    requires ValidManagerConfig(cfg) && Life(cfg, topology, then_, moments, deeds) && k <= |issued|
    requires moments[|deeds|].live == live + NewRows(issued)
    ensures Life(cfg, topology, then_, ms, ds) && Extends(moments, deeds, ms, ds)
    ensures ms[|ds|].state == CancelledAll(moments[|deeds|].state, issued[..k])
    ensures ms[|ds|].live == live + NewRows(issued[k..]) && ms[|ds|].stray == moments[|deeds|].stray
  {
    if k == 0 {
      ms, ds := moments, deeds;
      assert issued[0..] == issued;
    } else {
      var front, past := WithdrawalsAreDeeds(cfg, topology, then_, moments, deeds, live, issued, k - 1);
      NowOnePerKind(cfg, topology, then_, front, past);
      WithdrawnFirst(live, issued, k - 1);
      CancelledNext(moments[|deeds|].state, issued, k - 1);
      ms, ds := Advance(cfg, topology, then_, front, past, Reject(|live|));
    }
  }

  /** So is one whose transaction fails: its commands are issued and withdrawn, and neither
      the maps nor the table know of them. */
  lemma FailedCycleIsDeeds(
    cfg: ManagerConfig, topology: Topology, then_: nat, moments: seq<Moment>, deeds: seq<Deed>,
    commands: Commands, active: Commands, table: Table, removed: seq<string>,
    candidates: map<string, seq<Candidate>>, simulationNow: nat, wallNow: nat, first: nat,
    planned: State, decisions: seq<Decision>, issued: seq<Decision>)
    returns (ms: seq<Moment>, ds: seq<Deed>)
    requires ValidManagerConfig(cfg) && Life(cfg, topology, then_, moments, deeds)
    requires InStep(moments[|deeds|], commands, active, table)
    requires Cycled(cfg, Offered(WithoutCommands(moments[|deeds|].state, commands, removed), Resources(topology.shared),
                                 candidates, wallNow),
                    planned, commands - Listed(removed), Resources(topology.shared), simulationNow, wallNow, first,
                    topology.revision, decisions, issued)
    ensures Life(cfg, topology, then_, ms, ds) && Extends(moments, deeds, ms, ds)
    ensures ms[|ds|].state == CancelledAll(planned, issued)
    ensures InStep(ms[|ds|], commands - Listed(removed), active, table)
  {
    var front, past, m := CycleIsDeeds(
      cfg, topology, then_, moments, deeds, commands, active, table, removed, candidates, simulationNow, wallNow, first,
      planned, decisions, issued);
    ms, ds := WithdrawalsAreDeeds(cfg, topology, then_, front, past, m.live, issued, |issued|);
    assert issued[..|issued|] == issued && NewRows(issued[|issued|..]) == [];
    assert ms[|ds|].live == m.live;
  }

  // ----- restart from the table -----

  /** Whatever the service did, recovery from its table succeeds exactly when every two stored
      rows stand together, and brings the live state back exactly when in addition withdrawn
      commands stand in for unfiled ones and what is reserved is what the rows name. */
  lemma RestartFromTable(
    cfg: ManagerConfig, topology: Topology, then_: nat, moments: seq<Moment>, deeds: seq<Deed>, now: nat,
    commands: Commands, active: Commands, table: Table, pending: seq<Decision>, passages: seq<Decision>)
    requires ValidManagerConfig(cfg) && Life(cfg, topology, then_, moments, deeds)
    requires InStep(moments[|deeds|], commands, active, table) && Reads(table, pending, passages)
    ensures var f, m := Built(cfg, topology, now), moments[|deeds|];
      && (Recoverable(f, pending, passages, topology.revision) <==> PairsTogether(f, m.live + m.stray))
      && (Recoverable(f, pending, passages, topology.revision)
          && SameLive(m.state, Replay(f, RowsOf(pending, passages)))
          <==> PairsTogether(f, m.live + m.stray) && StandIns(m) && ActiveIsRows(m.state.book, m.live + m.stray))
  {
    ReadingGivesStored(table, Stored(moments[|deeds|]), pending, passages);
    RestartAcceptedIff(cfg, topology, then_, moments, deeds, |deeds|, now, pending, passages);
    RestartRestoresIff(cfg, topology, then_, moments, deeds, |deeds|, now, pending, passages);
  }

  /** As long as the life was orderly, it does both exactly when no cleanup withdrew a command. */
  lemma OrderlyRestartFromTable(
    cfg: ManagerConfig, topology: Topology, then_: nat, moments: seq<Moment>, deeds: seq<Deed>, now: nat,
    commands: Commands, active: Commands, table: Table, pending: seq<Decision>, passages: seq<Decision>)
    requires ValidManagerConfig(cfg) && Life(cfg, topology, then_, moments, deeds)
    requires OrderlyTo(moments, deeds, |deeds|)
    requires InStep(moments[|deeds|], commands, active, table) && Reads(table, pending, passages)
    ensures var f := Built(cfg, topology, now);
      Recoverable(f, pending, passages, topology.revision)
      && SameLive(moments[|deeds|].state, Replay(f, RowsOf(pending, passages)))
      <==> NothingRevoked(moments, deeds, |deeds|)
  {
    ReadingGivesStored(table, Stored(moments[|deeds|]), pending, passages);
    OrderlyRestartIff(cfg, topology, then_, moments, deeds, |deeds|, now, pending, passages);
  }

  /** A service that starts with no unfinished row is in step with the start of a life. */
  lemma StartsInStep(cfg: ManagerConfig, topology: Topology, then_: nat, table: Table)
    requires ValidManagerConfig(cfg)
    requires forall id <- table :: table[id].command.commandId == id && !IsUnfinished(table[id].status)
    ensures var start := Moment(Built(cfg, topology, then_), [], [], {});
      Life(cfg, topology, then_, [start], []) && InStep(start, map[], map[], table)
  {
  }
}
