/** Single calls on a manager that runs within its rules: corridors are set up while idle
    and movements under fresh ids.  Each call keeps it so. */
module ManagerCalls {
  import opened Reservations
  import opened Policy
  import opened DispatchSpec
  import opened DispatchManagers
  import opened DispatchRuns
  import opened Restart
  import opened Lifecycle

  /** The manager runs within its rules: valid, with a tidy run behind it. */
  ghost predicate Running(m: DispatchManager)
    reads m, m.reservations
  {
    m.Valid() && Tidy(m.cfg, m.labels)
  }

  /** Whatever the service did, the interlock and the reservations are sound. */
  lemma RunningIsSafe(m: DispatchManager)
    requires Running(m)
    ensures Safe(m.View()) && SoundBook(m.View().book)
    ensures SafeRun(m.cfg, m.states, m.labels)
  {
    TidyIsSafe(m.cfg, m.states, m.labels);
  }

  // ----- single calls from a running manager -----

  method Cancel(m: DispatchManager, resource: string) returns (ok: bool)
    requires Running(m)
    modifies m, m.reservations
    ensures Running(m) && ok == (resource in old(m.View()).pending)
    ensures m.View() == PendingCancelled(old(m.View()), resource)
    ensures m.pending == old(m.pending) - {resource}
  {
    TidyNext(m.cfg, m.labels, CancelPending(resource));
    ok := m.CancelPendingCommand(resource);
  }

  method Enter(m: DispatchManager, resource: string, train: string, now: nat) returns (ok: bool)
    requires Running(m)
    modifies m
    ensures Running(m) && m.View() == Confirmed(old(m.View()), resource, train, now)
    ensures ok <==> resource in old(m.pending) && old(m.pending)[resource].trainId == train
    ensures ok ==> m.pending == old(m.pending) - {resource}
  {
    RunningIsSafe(m);
    TidyNext(m.cfg, m.labels, Confirm(resource, train, now));
    ok := m.ConfirmEntry(resource, train, now);
  }

  method Offer(m: DispatchManager, resource: string, candidates: seq<Candidate>, wallNow: nat)
    requires Running(m)
    modifies m
    ensures Running(m) && m.pending == old(m.pending)
    ensures m.View() == Replaced(old(m.View()), resource, candidates, wallNow)
  {
    TidyNext(m.cfg, m.labels, Replace(resource, candidates, wallNow));
    var _ := m.ReplaceCandidates(resource, candidates, wallNow);
  }

  method PlanOne(m: DispatchManager, resource: string, simulationNow: nat, wallNow: nat) returns (d: Decision)
    requires Running(m)
    modifies m, m.reservations
    ensures Running(m) && PlanResult(m.cfg, old(m.View()), resource, simulationNow, wallNow, d)
    ensures m.View() == Planned(old(m.View()), resource, simulationNow, d)
    ensures d.action != Release ==> m.pending == old(m.pending)
    ensures d.action == Release ==>
      resource !in old(m.pending) && m.pending == old(m.pending)[resource := d] && d.resourceId == resource
  {
    RunningIsSafe(m);
    ghost var s, prior := m.View(), m.labels;
    d := m.PlanNext(resource, simulationNow, wallNow);
    TidyNext(m.cfg, prior, Plan(resource, simulationNow, wallNow, d));
    if d.action == Release {
      ReleaseIsNew(m.cfg, s, resource, simulationNow, wallNow, d);
    }
  }

  method Leave(m: DispatchManager, resource: string) returns (ok: bool)
    requires Running(m)
    modifies m
    ensures Running(m) && m.View() == Exited(old(m.View()), resource) && m.pending == old(m.pending)
    ensures ok == CanExit(old(m.View()), resource)
  {
    TidyNext(m.cfg, m.labels, Exit(resource));
    ok := m.MarkCorridorExited(resource);
  }

  method ClearOne(m: DispatchManager, ix: string, train: string, now: nat) returns (held: bool)
    requires Running(m)
    modifies m, m.reservations
    ensures Running(m) && m.View() == old(m.View()).(book := Cleared(old(m.View()).book, ix, train, now))
    ensures held == HoldsAt(old(m.View()).book, ix, train)
  {
    TidyNext(m.cfg, m.labels, ClearIntersection(ix, train, now));
    held := m.MarkIntersectionCleared(ix, train, now);
  }

  method ClearIntersections(m: DispatchManager, ixs: seq<string>, train: string, now: nat) returns (any: bool)
    requires Running(m)
    modifies m, m.reservations
    ensures Running(m) && m.pending == old(m.pending)
    ensures m.View() == old(m.View()).(book := ClearedAll(old(m.View()).book, ixs, train, now))
    ensures any <==> AnyHeld(old(m.View()).book, ixs, train, now)
  {
    any := false;
    ghost var s := m.View();
    for i := 0 to |ixs|
      invariant Running(m)
      invariant m.View() == s.(book := ClearedAll(s.book, ixs[..i], train, now))
      invariant any == AnyHeld(s.book, ixs[..i], train, now)
    {
      var here := ClearOne(m, ixs[i], train, now);
      assert ixs[..i + 1][..i] == ixs[..i];
      any := here || any;
    }
    assert ixs[..|ixs|] == ixs;
  }

  method RestoreRow(m: DispatchManager, row: Row) returns (ok: bool)
    requires Running(m)
    modifies m, m.reservations
    ensures Running(m) && ok == Accepts(old(m.View()), row) && m.View() == ReplayStep(old(m.View()), row)
  {
    TidyNext(m.cfg, m.labels, RowLabel(row));
    if row.accepted {
      ok := m.RestoreActiveCommand(row.decision);
    } else {
      ok := m.RestorePendingCommand(row.decision);
    }
  }

  lemma SetupNext(m: DispatchManager, l: Label)
    requires Running(m) && IdleUpsert(m.View(), l) && FreshRegistration(m.View(), l)
    ensures Tidy(m.cfg, m.labels + [l])
  {
    RunState(m.cfg, m.states, m.labels, |m.labels|);
    assert m.labels[..|m.labels|] == m.labels;
    assert (m.labels + [l])[..|m.labels|] == m.labels;
  }
}
