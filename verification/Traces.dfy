/**
 Runs in which the code does less than its header promises (src/zf_zonetick.h:21-33): a run that never calls done_cb,
 and a run that ticks twice for one commit.
 */
module Traces {
  import opened Bytes
  import opened Keys
  import opened Tick
  import opened TickMachine
  import opened TickInvariant
  import opened Fabric
  import opened Serial

  // ----- a lost run stays lost

  lemma NextKeepsLost(s: Sys, a: Action, i: nat)
    requires i < |s.runs|
    ensures i < |Next(s, a).runs| && |Next(s, a).runs[i].mem.lost| >= |s.runs[i].mem.lost|
  {
    hide Step, Free, Ticks;
    if a.Execute? && a.i == i {
      assert Follows(s.runs[i], Step(s.runs[i], s.store, a.t, a.env));
    }
  }

  /** After an ignored submission failure nothing that happens later makes the run call done_cb. */
  lemma {:induction false} LostForever(store0: Store, actions: seq<Action>, more: seq<Action>, i: nat)
    requires i < |Exec(Begin(store0), actions).runs| && Exec(Begin(store0), actions).runs[i].mem.lost != []
    ensures var s := Exec(Begin(store0), actions + more);
            i < |s.runs| && s.runs[i].mem.lost != [] && s.runs[i].mem.done == [] && Owners(s.runs[i]) == 0
    decreases |more|
  {
    hide Next, Owners;
    if more == [] {
      assert actions + more == actions;
    } else {
      var n := |more| - 1;
      LostForever(store0, actions, more[..n], i);
      assert (actions + more)[..|actions + more| - 1] == actions + more[..n];
      NextKeepsLost(Exec(Begin(store0), actions + more[..n]), more[n], i);
    }
    RunInvariant(store0, actions + more, i);
  }

  // ----- driving one run

  ghost predicate Reachable(store0: Store, s: Sys) {
    exists actions :: Exec(Begin(store0), actions) == s
  }

  lemma Reaches(store0: Store, s: Sys, a: Action)
    requires Reachable(store0, s)
    ensures Reachable(store0, Next(s, a))
  {
    hide Next;
    var actions :| Exec(Begin(store0), actions) == s;
    assert (actions + [a])[..|actions|] == actions;
    assert Exec(Begin(store0), actions + [a]) == Next(s, a);
  }

  /** A reachable system of one run, whose first thread is about to execute x. */
  ghost predicate At(store0: Store, s: Sys, x: Frame, d: Data, z: u32, n: u32) {
    && Reachable(store0, s) && |s.runs| == 1
    && var r := s.runs[0];
    && Executes(r, 0, x) && r.data == d && r.zone == z && r.count == n
  }

  /** The library does its part: futures are made and callbacks fire at once. */
  function Fine(rows: seq<Row>): Env {
    Env(true, true, true, true, false, false, rows, true)
  }

  ghost function Go(s: Sys, env: Env): Sys {
    Next(s, Execute(0, 0, env))
  }

  lemma Moved(store0: Store, s: Sys, x: Frame, d: Data, z: u32, n: u32, env: Env)
    requires At(store0, s, x, d, z, n)
    ensures Reachable(store0, Go(s, env)) && |Go(s, env).runs| == 1
    ensures Go(s, env) == s.(runs := [Step(s.runs[0], s.store, 0, env)])
  {
    hide Step, Reachable, Executes;
    Reaches(store0, s, Execute(0, 0, env));
  }

  /** A submission whose callback fires at once. */
  lemma Submitted(store0: Store, s: Sys, f: nat, k: Kind, d: Data, z: u32, n: u32)
    requires At(store0, s, Submit(f, k), d, z, n)
    ensures At(store0, Go(Go(s, Fine([])), Fine([])), Callback(f, k), d, z, n)
    ensures var s' := Go(Go(s, Fine([])), Fine([]));
            s'.store == s.store && s'.hist == s.hist && s'.runs[0].mem.lost == s.runs[0].mem.lost
  {
    hide Reachable;
    Moved(store0, s, Submit(f, k), d, z, n, Fine([]));
    var s1 := Go(s, Fine([]));
    assert At(store0, s1, FutureCb(f, k), d, z, n);
    Moved(store0, s1, FutureCb(f, k), d, z, n, Fine([]));
  }

  lemma ReadReturned(store0: Store, s: Sys, d: Data, z: u32, n: u32) returns (s': Sys, f: nat)
    requires At(store0, s, StartRead, d, z, n)
    ensures At(store0, s', OnRead(f), d.(snap := s.store, phase := Reading), z, n) && s'.store == s.store
  {
    hide Reachable;
    var env := Fine([]);
    Moved(store0, s, StartRead, d, z, n, env);
    f := s.runs[0].ctl.next;
    var s1 := Go(s, env);
    assert At(store0, s1, Submit(f, Read), d.(snap := s.store, phase := Reading), z, n);
    Submitted(store0, s1, f, Read, d.(snap := s.store, phase := Reading), z, n);
    s' := Go(Go(s1, env), env);
  }

  lemma CommitReturned(store0: Store, s: Sys, f: nat, d: Data, z: u32, n: u32, rows: seq<Row>) returns (s': Sys, g: nat)
    requires At(store0, s, OnRead(f), d, z, n) && IsScan(d.snap + d.writes, z, rows)
    ensures At(store0, s', OnCommit(g), Ticked(d, rows, n, true), z, n) && s'.store == s.store
  {
    hide Reachable, IsScan, Ticked;
    Moved(store0, s, OnRead(f), d, z, n, Fine(rows));
    g := s.runs[0].ctl.next;
    var s1 := Go(s, Fine(rows));
    assert At(store0, s1, Submit(g, Commit), Ticked(d, rows, n, true), z, n);
    Submitted(store0, s1, g, Commit, Ticked(d, rows, n, true), z, n);
    s' := Go(Go(s1, Fine([])), Fine([]));
  }

  function AfterError(d: Data): Data {
    d.(phase := Recovering, heard := Failed(Commit))
  }

  lemma ErrorReturned(store0: Store, s: Sys, f: nat, d: Data, z: u32, n: u32) returns (s': Sys, g: nat)
    requires At(store0, s, OnCommit(f), d, z, n)
    ensures At(store0, s', OnRetry(g), AfterError(d), z, n) && s'.store == s.store
  {
    hide Reachable;
    var env := Fine([]).(failed := true);
    Moved(store0, s, OnCommit(f), d, z, n, env);
    g := s.runs[0].ctl.next;
    var s1 := Go(s, env);
    assert At(store0, s1, Submit(g, Retry), AfterError(d), z, n);
    Submitted(store0, s1, g, Retry, AfterError(d), z, n);
    s' := Go(Go(s1, Fine([])), Fine([]));
  }

  /** The future of on_error carries an error, and the transaction was not reset. */
  const BAD_RETRY := Fine([]).(failed := true, reset := false)

  lemma Restarted(store0: Store, s: Sys, f: nat, d: Data, z: u32, n: u32)
    requires At(store0, s, OnRetry(f), d, z, n)
    ensures var s' := Go(s, BAD_RETRY);
            At(store0, s', StartRead, Recovered(d, true, false), z, n) && s'.store == s.store
  {
    hide Reachable, Recovered;
    Moved(store0, s, OnRetry(f), d, z, n, BAD_RETRY);
  }

  /** The commit reports an error, on_error completes with an error, and the run starts over. */
  lemma StartedOver(store0: Store, s: Sys, f: nat, d: Data, z: u32, n: u32) returns (s': Sys)
    requires At(store0, s, OnCommit(f), d, z, n)
    ensures At(store0, s', StartRead, Recovered(AfterError(d), true, false), z, n) && s'.store == s.store
  {
    hide At, Recovered, Next;
    var s1, g := ErrorReturned(store0, s, f, d, z, n);
    Restarted(store0, s1, g, AfterError(d), z, n);
    s' := Go(s1, BAD_RETRY);
  }

  lemma CommitApplied(store0: Store, s: Sys, f: nat, d: Data, z: u32, n: u32)
    requires At(store0, s, OnCommit(f), d, z, n) && d.open
    ensures var s' := Next(s, Reach(0));
            && At(store0, s', OnCommit(f), Land(s.runs[0]).data, z, n) && s'.store == s.store + d.writes
  {
    hide Reachable;
    Reaches(store0, s, Reach(0));
  }

  lemma ReportedOk(store0: Store, s: Sys, f: nat, d: Data, z: u32, n: u32)
    requires At(store0, s, OnCommit(f), d, z, n) && d.landed
    ensures At(store0, Go(s, Fine([])), Finish(true), d.(heard := Committed), z, n) && Go(s, Fine([])).store == s.store
  {
    hide Reachable;
    Moved(store0, s, OnCommit(f), d, z, n, Fine([]));
  }

  /** The commit reaches the store, reports success, and the run finishes. */
  lemma Succeeded(store0: Store, s: Sys, f: nat, d: Data, z: u32, n: u32) returns (s': Sys)
    requires At(store0, s, OnCommit(f), d, z, n) && d.open
    ensures Reachable(store0, s') && |s'.runs| == 1 && s'.runs[0].mem.done == [true]
    ensures s'.store == s.store + d.writes
    ensures var y := d.tally;
            s'.runs[0].data.tally == Tally(y.lands + 1, y.given + |d.pend|, y.unsure, y.carried + d.kept, y.allReset)
  {
    hide Reachable, Next;
    CommitApplied(store0, s, f, d, z, n);
    var s1 := Next(s, Reach(0));
    var e := Land(s.runs[0]).data;
    ReportedOk(store0, s1, f, e, z, n);
    var s2 := Go(s1, Fine([]));
    Moved(store0, s2, Finish(true), e.(heard := Committed), z, n, Fine([]));
    s' := Go(s2, Fine([]));
    FinishedOnce(store0, s');
  }

  lemma FinishedOnce(store0: Store, s: Sys)
    requires Reachable(store0, s) && |s.runs| == 1 && true in s.runs[0].mem.done
    ensures s.runs[0].mem.done == [true]
  {
    hide Exec, Owners;
    var actions :| Exec(Begin(store0), actions) == s;
    RunInvariant(store0, actions, 0);
    assert |s.runs[0].mem.done| <= 1;
  }

  lemma Launched(store0: Store, z: u32, n: u32) returns (s: Sys)
    ensures At(store0, s, StartRead, Init(z, n).data, z, n) && s.store == store0
  {
    hide Reachable;
    assert Reachable(store0, Begin(store0)) by {
      BeginReachable(store0);
    }
    Reaches(store0, Begin(store0), Launch(z, n));
    s := Next(Begin(store0), Launch(z, n));
  }

  lemma BeginReachable(store0: Store)
    ensures Reachable(store0, Begin(store0))
  {
    assert Exec(Begin(store0), []) == Begin(store0);
  }

  lemma OneRowScan(view: Store, z: u32, e: u32, v: Bytes)
    requires view == map[EntityKey(z, e) := v] && e < 0xFF00_0000
    ensures IsScan(view, z, [Row(EntityKey(z, e), v)]) && RowKeys([Row(EntityKey(z, e), v)]) == {EntityKey(z, e)}
  {
    hide InRange, Less, EntityKey;
    RangeScanExact(z, z, e);
    assert [Row(EntityKey(z, e), v)][0].key in RowKeys([Row(EntityKey(z, e), v)]);
  }

  /** For every entity a tick scans and every count: if the commit does not apply and the future of on_error carries an
      error and leaves the transaction as it was, the run reports neither; the retry reads its own writes, and the one
      commit that applies ticks twice. */
  lemma TicksTwice(z: u32, e: u32, n: u32, b: Bytes)
    requires e < 0xFF00_0000
    ensures exists actions ::
              var s := Exec(Begin(map[EntityKey(z, e) := b]), actions);
              && |s.runs| == 1 && s.runs[0].mem.done == [true]
              && s.runs[0].data.tally == Tally(1, 2, 0, 1, false)
              && s.store == map[EntityKey(z, e) := TickValue(b, n + n)]
  {
    hide At, EntityKey, TickValue, IsScan;
    var k := EntityKey(z, e);
    var store0 := map[k := b];
    var s := Launched(store0, z, n);
    var d := Init(z, n).data;
    var f;
    s, f := ReadReturned(store0, s, d, z, n);
    var d1 := d.(snap := store0, phase := Reading);
    assert d1.snap + d1.writes == store0;
    OneRowScan(store0, z, e, b);
    var rows1 := [Row(k, b)];
    s, f := CommitReturned(store0, s, f, d1, z, n, rows1);
    var d2 := Ticked(d1, rows1, n, true);
    OneRowWrites(k, b, n);
    s := StartedOver(store0, s, f, d2, z, n);
    var d3 := Recovered(AfterError(d2), true, false);
    s, f := ReadReturned(store0, s, d3, z, n);
    var d4 := d3.(snap := store0, phase := Reading);
    var v := TickValue(b, n);
    assert d4.snap + d4.writes == map[k := v];
    OneRowScan(map[k := v], z, e, v);
    var rows2 := [Row(k, v)];
    s, f := CommitReturned(store0, s, f, d4, z, n, rows2);
    var d5 := Ticked(d4, rows2, n, true);
    OneRowWrites(k, v, n);
    s := Succeeded(store0, s, f, d5, z, n);
    TickCompose(b, n, n);
  }

  lemma OneRowWrites(k: Key, v: Bytes, n: u32)
    ensures TickWrites([Row(k, v)], n) == map[k := TickValue(v, n)]
  {
    hide TickValue;
    assert [Row(k, v)][..0] == [];
  }

  /** For every store and zone: a commit whose submission fails leaves a run that never calls done_cb. */
  lemma LosesCommit(store0: Store, z: u32, n: u32)
    ensures exists actions ::
              var s := Exec(Begin(store0), actions);
              && |s.runs| == 1 && s.runs[0].mem.lost == [Commit] && s.runs[0].mem.done == []
              && Owners(s.runs[0]) == 0
  {
    hide Reachable, Owners;
    var s := Launched(store0, z, n);
    var d := Init(z, n).data;
    var f;
    s, f := ReadReturned(store0, s, d, z, n);
    var d1 := d.(snap := store0, phase := Reading);
    var env := Fine([]).(created := false);
    Moved(store0, s, OnRead(f), d1, z, n, env);
    var s1 := Go(s, env);
    var d2 := s1.runs[0].data;
    assert s1.runs[0] == StepOnRead(s.runs[0], 0, f, env);
    assert At(store0, s1, RetErr(Commit), d2, z, n);
    Moved(store0, s1, RetErr(Commit), d2, z, n, env);
    var s2 := Go(s1, env);
    LostNow(store0, s2);
  }

  lemma LostNow(store0: Store, s: Sys)
    requires Reachable(store0, s) && |s.runs| == 1 && Commit in s.runs[0].mem.lost
    ensures exists actions :: Exec(Begin(store0), actions) == s
    ensures s.runs[0].mem.lost == [Commit] && s.runs[0].mem.done == [] && Owners(s.runs[0]) == 0
  {
    hide Exec, Owners;
    var actions :| Exec(Begin(store0), actions) == s;
    RunInvariant(store0, actions, 0);
  }
}
