/**
 Processes ticking zones of one shared store (src/zf_zonetick.c:48-146): any number of runs, interleaved in any
 order, one unfinished run per zone at a time and no other writer of entities.
 */
module Fabric {
  import opened Bytes
  import opened Keys
  import opened Tick
  import opened TickMachine
  import opened TickInvariant

  /** One read ticked into the store by a commit. */
  datatype Applied = Applied(run: nat, zone: u32, count: u32, keys: set<Key>)

  datatype Sys = Sys(store: Store, runs: seq<Run>, hist: seq<Applied>)

  datatype Action =
    | Launch(z: u32, n: u32)
    | Execute(i: nat, t: nat, env: Env)
    | Deliver(i: nat, f: nat)
    | Reach(i: nat)              // the commit of run i reaches the store

  function Begin(store: Store): Sys {
    Sys(store, [], [])
  }

  /** No unfinished run ticks zone z. */
  predicate Free(s: Sys, z: u32) {
    forall i :: 0 <= i < |s.runs| && s.runs[i].zone == z ==> s.runs[i].mem.done != []
  }

  ghost function Next(s: Sys, a: Action): Sys {
    match a
    case Launch(z, n) => if Free(s, z) then s.(runs := s.runs + [Init(z, n)]) else s
    case Execute(i, t, env) => if i < |s.runs| then s.(runs := s.runs[i := Step(s.runs[i], s.store, t, env)]) else s
    case Deliver(i, f) => if i < |s.runs| then s.(runs := s.runs[i := Fire(s.runs[i], f)]) else s
    case Reach(i) =>
      if i < |s.runs| && s.runs[i].data.open then
        var r := s.runs[i];
        Sys(s.store + r.data.writes, s.runs[i := Land(r)], s.hist + Ticks(i, r.zone, r.count, r.data.pend))
      else s
  }

  ghost function Exec(s: Sys, actions: seq<Action>): Sys {
    if actions == [] then s else Next(Exec(s, actions[..|actions| - 1]), actions[|actions| - 1])
  }

  // ----- the serial meaning

  /** An atomic tick: every listed entity moves, nothing else changes. */
  function ApplyTick(s: Store, a: Applied): Store {
    map k | k in s :: if k in a.keys then TickValue(s[k], a.count) else s[k]
  }

  function Fold(s: Store, hist: seq<Applied>): Store {
    if hist == [] then s else ApplyTick(Fold(s, hist[..|hist| - 1]), hist[|hist| - 1])
  }

  function Ticks(i: nat, z: u32, n: u32, pend: seq<set<Key>>): seq<Applied> {
    seq(|pend|, j requires 0 <= j < |pend| => Applied(i, z, n, pend[j]))
  }

  /** A stored value after the reads in `pend` that returned its key were ticked. */
  function KeyFold(b: Bytes, pend: seq<set<Key>>, n: u32, k: Key): Bytes {
    if pend == [] then b
    else
      var rest := KeyFold(b, pend[..|pend| - 1], n, k);
      if k in pend[|pend| - 1] then TickValue(rest, n) else rest
  }

  lemma {:induction false} FoldConcat(s: Store, a: seq<Applied>, b: seq<Applied>)
    ensures Fold(s, a + b) == Fold(Fold(s, a), b)
  {
    if b == [] {
      assert a + b == a;
    } else {
      assert (a + b)[..|a + b| - 1] == a + b[..|b| - 1];
      FoldConcat(s, a, b[..|b| - 1]);
    }
  }

  lemma {:induction false} FoldKeys(s: Store, h: seq<Applied>)
    ensures Fold(s, h).Keys == s.Keys
  {
    if h != [] {
      FoldKeys(s, h[..|h| - 1]);
    }
  }

  lemma {:induction false} FoldTicks(s: Store, i: nat, z: u32, n: u32, pend: seq<set<Key>>)
    ensures Fold(s, Ticks(i, z, n, pend)) == map k | k in s :: KeyFold(s[k], pend, n, k)
  {
    hide TickValue;
    if pend != [] {
      var init := pend[..|pend| - 1];
      assert Ticks(i, z, n, pend)[..|pend| - 1] == Ticks(i, z, n, init);
      FoldTicks(s, i, z, n, init);
    }
  }

  lemma {:induction false} KeyFoldAbsent(b: Bytes, pend: seq<set<Key>>, n: u32, k: Key)
    requires forall j :: 0 <= j < |pend| ==> k !in pend[j]
    ensures KeyFold(b, pend, n, k) == b
  {
    hide TickValue;
    if pend != [] {
      KeyFoldAbsent(b, pend[..|pend| - 1], n, k);
    }
  }

  lemma KeyFoldNext(b: Bytes, pend: seq<set<Key>>, keys: set<Key>, n: u32, k: Key)
    ensures KeyFold(b, pend + [keys], n, k)
         == if k in keys then TickValue(KeyFold(b, pend, n, k), n) else KeyFold(b, pend, n, k)
  {
    hide TickValue;
    assert (pend + [keys])[..|pend|] == pend;
  }

  // ----- a run and the store

  ghost predicate Agree(z: u32, a: Store, b: Store) {
    forall k :: InRange(k, z) ==> (k in a <==> k in b) && (k in a ==> a[k] == b[k])
  }

  /** The write buffer holds, for entities of the zone only, the store's values with the pending reads ticked in. */
  ghost predicate Buffered(store: Store, z: u32, n: u32, d: Data) {
    && (forall k :: k in d.writes ==> InRange(k, z) && k in store && d.writes[k] == KeyFold(store[k], d.pend, n, k))
    && (forall j, k :: 0 <= j < |d.pend| && k in d.pend[j] ==> k in d.writes)
  }

  ghost predicate Tied(store: Store, z: u32, n: u32, d: Data) {
    d.phase != Over ==> Buffered(store, z, n, d) && (d.phase == Reading ==> Agree(z, d.snap, store))
  }

  /** What a range read returns is the store's value with the pending reads ticked in. */
  lemma ViewAt(store: Store, z: u32, n: u32, d: Data, k: Key)
    requires Buffered(store, z, n, d) && Agree(z, d.snap, store)
    requires InRange(k, z) && k in d.snap + d.writes
    ensures k in store && (d.snap + d.writes)[k] == KeyFold(store[k], d.pend, n, k)
  {
    hide InRange, KeyFold;
    if k !in d.writes {
      KeyFoldAbsent(store[k], d.pend, n, k);
    }
  }

  lemma TickedBuffered(store: Store, z: u32, n: u32, d: Data, rows: seq<Row>, created: bool)
    requires Buffered(store, z, n, d) && Agree(z, d.snap, store) && IsScan(d.snap + d.writes, z, rows)
    ensures Buffered(store, z, n, Ticked(d, rows, n, created)) && Ticked(d, rows, n, created).phase == Committing
    ensures forall k :: k in RowKeys(rows) ==> InRange(k, z) && k in store
  {
    hide InRange, KeyFold, TickValue, TickWrites, Less;
    var view, keys := d.snap + d.writes, RowKeys(rows);
    TickWritesAt(rows, n, view);
    forall k | k in keys
      ensures InRange(k, z) && k in view && k in store && view[k] == KeyFold(store[k], d.pend, n, k)
    {
      ViewAt(store, z, n, d, k);
    }
    var e := Ticked(d, rows, n, created);
    forall k | k in e.writes
      ensures InRange(k, z) && k in store && e.writes[k] == KeyFold(store[k], e.pend, n, k)
    {
      KeyFoldNext(store[k], d.pend, keys, n, k);
    }
  }

  lemma BufferedSame(store: Store, z: u32, n: u32, d: Data, e: Data)
    requires Buffered(store, z, n, d)
    requires (e.writes == d.writes && e.pend == d.pend) || (e.writes == map[] && e.pend == [])
    ensures Buffered(store, z, n, e)
  {
    hide InRange, KeyFold;
  }

  lemma DataStepTied(store: Store, z: u32, n: u32, d: Data, e: Data, env: Env)
    requires Tied(store, z, n, d) && DataStep(d, e, z, n, store, env)
    ensures Tied(store, z, n, e)
  {
    hide Buffered, Agree, Ticked, IsScan;
    if d.phase == Over {
    } else if d.phase == Reading && IsScan(d.snap + d.writes, z, env.rows) && e == Ticked(d, env.rows, n, env.created) {
      TickedBuffered(store, z, n, d, env.rows, env.created);
    } else {
      BufferedSame(store, z, n, d, e);
      AgreeSelf(z, store);
    }
  }

  lemma AgreeSelf(z: u32, store: Store)
    ensures Agree(z, store, store)
  {
  }

  /** A commit has the effect of its reads applied one after the other. */
  lemma LandFolds(store: Store, i: nat, z: u32, n: u32, d: Data)
    requires Buffered(store, z, n, d)
    ensures store + d.writes == Fold(store, Ticks(i, z, n, d.pend))
    ensures (store + d.writes).Keys == store.Keys
  {
    hide InRange, KeyFold, Fold, Ticks;
    FoldTicks(store, i, z, n, d.pend);
    var after := store + d.writes;
    assert forall k :: k in d.writes ==> k in store;
    assert after.Keys == store.Keys;
    forall k | k in store
      ensures after[k] == KeyFold(store[k], d.pend, n, k)
    {
      if k !in d.writes {
        KeyFoldAbsent(store[k], d.pend, n, k);
      }
    }
  }

  lemma LandTied(store: Store, r: Run)
    requires Steady(r.data) && r.data.open && Tied(store, r.zone, r.count, r.data)
    ensures Tied(store + r.data.writes, r.zone, r.count, Land(r).data)
  {
    hide InRange, TickValue;
  }

  /** A commit in another zone changes nothing a run can see. */
  lemma LandElsewhere(store: Store, z: u32, n: u32, d: Data, z': u32, n': u32, d': Data)
    requires Buffered(store, z, n, d) && Tied(store, z', n', d') && z != z'
    ensures Tied(store + d.writes, z', n', d')
  {
    hide InRange, KeyFold;
    var after := store + d.writes;
    forall k | InRange(k, z')
      ensures k !in d.writes
    {
      if k in d.writes {
        RangesDisjoint(z, z', k);
      }
    }
    assert Agree(z', store, after);
  }

  // ----- every reachable state

  ghost predicate RunOk(store: Store, r: Run) {
    Inv(r) && Tied(store, r.zone, r.count, r.data)
  }

  /** One unfinished run per zone. */
  ghost predicate Exclusive(runs: seq<Run>) {
    forall i, j :: 0 <= i < j < |runs| && runs[i].zone == runs[j].zone ==> runs[i].mem.done != []
  }

  /** How many applied reads a run has to its name. */
  function Contribution(h: seq<Applied>, i: nat): nat {
    if h == [] then 0 else Contribution(h[..|h| - 1], i) + (if h[|h| - 1].run == i then 1 else 0)
  }

  /** Each applied read belongs to a run and lists entities of that run's zone. */
  ghost predicate Attributed(h: seq<Applied>, runs: seq<Run>, store: Store) {
    && (forall j :: 0 <= j < |h| ==>
          && h[j].run < |runs| && h[j].zone == runs[h[j].run].zone && h[j].count == runs[h[j].run].count
          && forall k :: k in h[j].keys ==> InRange(k, h[j].zone) && k in store)
  }

  ghost predicate Counted(h: seq<Applied>, runs: seq<Run>) {
    forall i :: 0 <= i < |runs| ==> Contribution(h, i) == runs[i].data.tally.given
  }

  ghost predicate SysInv(s: Sys, store0: Store) {
    && (forall i :: 0 <= i < |s.runs| ==> RunOk(s.store, s.runs[i]))
    && Exclusive(s.runs)
    && s.store == Fold(store0, s.hist)
    && Attributed(s.hist, s.runs, store0)
    && Counted(s.hist, s.runs)
  }

  lemma StepRunOk(store: Store, r: Run, t: nat, env: Env)
    requires RunOk(store, r)
    ensures RunOk(store, Step(r, store, t, env)) && Follows(r, Step(r, store, t, env))
  {
    hide Sound, Phased, Steady, Step, DataStep, Tied, Follows;
    StepInv(r, store, t, env);
    StepData(r, store, t, env);
    DataStepTied(store, r.zone, r.count, r.data, Step(r, store, t, env).data, env);
  }

  lemma FireRunOk(store: Store, r: Run, f: nat)
    requires RunOk(store, r)
    ensures RunOk(store, Fire(r, f)) && Follows(r, Fire(r, f))
  {
    hide Sound, Phased, Steady, Tied;
    FireInv(r, f);
  }

  lemma UpdateSysInv(s: Sys, store0: Store, i: nat, r: Run)
    requires SysInv(s, store0) && i < |s.runs| && RunOk(s.store, r) && Follows(s.runs[i], r)
    ensures SysInv(s.(runs := s.runs[i := r]), store0)
  {
    hide RunOk, Fold;
  }

  lemma LaunchSysInv(s: Sys, store0: Store, z: u32, n: u32)
    requires SysInv(s, store0) && Free(s, z)
    ensures SysInv(s.(runs := s.runs + [Init(z, n)]), store0)
  {
    hide Fold, Inv, InRange;
    InitInv(z, n);
    var i := |s.runs|;
    NothingYet(s.hist, i);
  }

  lemma {:induction false} NothingYet(h: seq<Applied>, i: nat)
    requires forall j :: 0 <= j < |h| ==> h[j].run < i
    ensures Contribution(h, i) == 0
  {
    if h != [] {
      NothingYet(h[..|h| - 1], i);
    }
  }

  lemma {:induction false} ContributionTicks(h: seq<Applied>, j: nat, i: nat, z: u32, n: u32, pend: seq<set<Key>>)
    ensures Contribution(h + Ticks(i, z, n, pend), j) == Contribution(h, j) + (if i == j then |pend| else 0)
  {
    var added := Ticks(i, z, n, pend);
    if pend == [] {
      assert h + added == h;
    } else {
      var init := pend[..|pend| - 1];
      assert (h + added)[..|h + added| - 1] == h + Ticks(i, z, n, init);
      ContributionTicks(h, j, i, z, n, init);
    }
  }

  lemma ReachRuns(s: Sys, store0: Store, i: nat)
    requires SysInv(s, store0) && i < |s.runs| && s.runs[i].data.open
    ensures var s' := Next(s, Reach(i)); forall j :: 0 <= j < |s'.runs| ==> RunOk(s'.store, s'.runs[j])
  {
    hide Fold, Contribution, Attributed, Sound, Phased, Steady, Tied, Land, Buffered, Ticks;
    var r := s.runs[i];
    var s' := Next(s, Reach(i));
    OpenIsLive(s.store, r);
    forall j | 0 <= j < |s'.runs|
      ensures RunOk(s'.store, s'.runs[j])
    {
      var q := s.runs[j];
      if i == j {
        LandInv(r);
        LandTied(s.store, r);
        LandKeeps(r);
      } else if q.zone == r.zone {
        FinishedTied(s'.store, q, r);
      } else {
        LandElsewhere(s.store, r.zone, r.count, r.data, q.zone, q.count, q.data);
      }
    }
  }

  lemma LandKeeps(r: Run)
    ensures Land(r).zone == r.zone && Land(r).count == r.count && Land(r).mem == r.mem
    ensures r.data.open ==> Land(r).data.tally.given == r.data.tally.given + |r.data.pend|
  {
  }

  /** A commit in flight belongs to an unfinished run, whose buffer is tied to the store. */
  lemma OpenIsLive(store: Store, r: Run)
    requires RunOk(store, r) && r.data.open
    ensures r.mem.done == [] && Buffered(store, r.zone, r.count, r.data)
  {
    hide Sound, Buffered;
  }

  lemma FinishedTied(store: Store, q: Run, r: Run)
    requires Inv(q) && q.mem.done != []
    ensures Tied(store, q.zone, q.count, q.data)
  {
    hide Sound, Buffered;
  }

  lemma ReachSysInv(s: Sys, store0: Store, i: nat)
    requires SysInv(s, store0) && i < |s.runs| && s.runs[i].data.open
    ensures SysInv(Next(s, Reach(i)), store0)
  {
    hide Fold, Contribution, RunOk, InRange, Land, KeyFold;
    var r := s.runs[i];
    var s' := Next(s, Reach(i));
    OpenIsLive(s.store, r);
    ReachRuns(s, store0, i);
    LandKeeps(r);
    LandFolds(s.store, i, r.zone, r.count, r.data);
    FoldConcat(store0, s.hist, Ticks(i, r.zone, r.count, r.data.pend));
    FoldKeys(store0, s.hist);
    forall j | 0 <= j < |s'.runs|
      ensures Contribution(s'.hist, j) == s'.runs[j].data.tally.given
    {
      ContributionTicks(s.hist, j, i, r.zone, r.count, r.data.pend);
    }
  }

  lemma NextSysInv(s: Sys, store0: Store, a: Action)
    requires SysInv(s, store0)
    ensures SysInv(Next(s, a), store0)
  {
    hide RunOk, Fold, Step, Fire, Land, Exclusive, Attributed, Counted;
    match a
    case Launch(z, n) =>
      if Free(s, z) {
        LaunchSysInv(s, store0, z, n);
      }
    case Execute(i, t, env) =>
      if i < |s.runs| {
        StepRunOk(s.store, s.runs[i], t, env);
        UpdateSysInv(s, store0, i, Step(s.runs[i], s.store, t, env));
      }
    case Deliver(i, f) =>
      if i < |s.runs| {
        FireRunOk(s.store, s.runs[i], f);
        UpdateSysInv(s, store0, i, Fire(s.runs[i], f));
      }
    case Reach(i) =>
      if i < |s.runs| && s.runs[i].data.open {
        ReachSysInv(s, store0, i);
      }
  }

  lemma {:induction false} ExecSysInv(store0: Store, actions: seq<Action>)
    ensures SysInv(Exec(Begin(store0), actions), store0)
  {
    hide Next, SysInv;
    if actions == [] {
      BeginSysInv(store0);
    } else {
      ExecSysInv(store0, actions[..|actions| - 1]);
      NextSysInv(Exec(Begin(store0), actions[..|actions| - 1]), store0, actions[|actions| - 1]);
    }
  }

  lemma BeginSysInv(store0: Store)
    ensures SysInv(Begin(store0), store0)
  {
  }
}
