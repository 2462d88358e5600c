/**
 What the interleaved ticks amount to: the run invariant, the fate of every future, a serial order, a closed form
 of every stored value, and how often a run ticks (src/zf_zonetick.c:37-146).
 */
module Serial {
  import opened Bytes
  import opened Keys
  import opened Tick
  import opened TickMachine
  import opened TickInvariant
  import opened Fabric

  // ----- owners and futures in every reachable state

  /** Executing frames and pending callbacks that will still use the context. */
  function Owners(r: Run): nat {
    TotalWeight(Owning, r.ctl.stacks) + |r.ctl.pending|
  }

  /** Every run of every reachable state is live with one owner, or finished once, or lost to the failed submission
      of a commit or of on_error; nothing is used after its release. */
  lemma RunInvariant(store0: Store, actions: seq<Action>, i: nat)
    requires i < |Exec(Begin(store0), actions).runs|
    ensures var r := Exec(Begin(store0), actions).runs[i];
            && !r.mem.fault
            && Owners(r) + |r.mem.done| + |r.mem.lost| == 1
            && r.mem.ctxFreed == |r.mem.done| && r.mem.trDestroyed == |r.mem.done|
            && (r.mem.lost != [] ==> r.mem.lost == [Commit] || r.mem.lost == [Retry])
            && (r.mem.done == [true] ==> r.data.landed)
  {
    hide Exec, Fold, Exclusive, Attributed, Counted, Tied, FutureOk, StackOk, Steady, TotalWeight;
    ExecSysInv(store0, actions);
    var r := Exec(Begin(store0), actions).runs[i];
    assert RunOk(Exec(Begin(store0), actions).store, r);
    Told(r);
    if r.mem.lost != [] {
      assert r.mem.lost == [r.mem.lost[0]];
      assert r.mem.lost[0] != Read;
    }
  }

  /** What a run that reported, or was lost, last heard. */
  lemma Told(r: Run)
    requires Phased(r)
    ensures r.mem.done == [true] ==> r.data.landed && r.data.heard == Committed
    ensures r.mem.done == [false] ==> FinalFalse(r.data.heard)
    ensures r.mem.lost != [] ==> r.data.heard == Refused(r.mem.lost[0])
  {
    assert r.mem.done != [] ==> r.mem.done[0] in r.mem.done;
  }

  /** A run that can no longer move has called done_cb if and only if no commit or on_error submission failed. */
  lemma SettledIff(store0: Store, actions: seq<Action>, i: nat)
    requires i < |Exec(Begin(store0), actions).runs| && Owners(Exec(Begin(store0), actions).runs[i]) == 0
    ensures var m := Exec(Begin(store0), actions).runs[i].mem; m.done != [] <==> m.lost == []
  {
    hide Exec, Owners;
    RunInvariant(store0, actions, i);
  }

  /** A live run can move: a pending callback can fire, or a thread executes the owning frame. */
  lemma LiveMoves(r: Run)
    requires Sound(r) && Owners(r) == 1
    ensures (exists f :: f in r.ctl.pending) || exists t, x :: Executes(r, t, x) && Weight(Owning, x) == 1
  {
    if r.ctl.pending == map[] {
      var t := HeavyStack(r.ctl.stacks);
      HeavyTop(r.ctl.stacks[t]);
      assert Executes(r, t, Top(r.ctl.stacks[t]));
    } else {
      assert r.ctl.pending.Keys != {};
      var f :| f in r.ctl.pending.Keys;
    }
  }

  ghost function HeavyStack(ss: seq<seq<Frame>>): (t: nat)
    requires TotalWeight(Owning, ss) > 0
    ensures t < |ss| && StackWeight(Owning, ss[t]) > 0
  {
    if StackWeight(Owning, ss[|ss| - 1]) > 0 then |ss| - 1 else HeavyStack(ss[..|ss| - 1])
  }

  lemma HeavyTop(s: seq<Frame>)
    requires StackOk(s) && StackWeight(Owning, s) > 0
    ensures s != [] && Weight(Owning, Top(s)) == 1
  {
    WaitersOwnNothing(s[..|s| - 1]);
  }

  lemma {:induction false} WaitersOwnNothing(s: seq<Frame>)
    requires AllWait(s)
    ensures StackWeight(Owning, s) == 0
  {
    if s != [] {
      WaitersOwnNothing(s[..|s| - 1]);
    }
  }

  /** A frame or a pending callback still answers for future f. */
  function Holders(r: Run, f: nat): nat {
    TotalWeight(Holding(f), r.ctl.stacks) + if f in r.ctl.pending then 1 else 0
  }

  /** In every run each future is destroyed at most once, and exactly once when its submission has failed or its
      callback has returned; by then its wrapper has been freed as often as it was made. */
  lemma FutureInvariant(store0: Store, actions: seq<Action>, i: nat, f: nat)
    requires i < |Exec(Begin(store0), actions).runs|
    ensures var r := Exec(Begin(store0), actions).runs[i];
            && Holders(r, f) + r.mem.destroyed[f] == (if f < r.ctl.next then 1 else 0)
            && r.mem.freed[f] <= r.mem.made[f] <= 1
            && r.mem.freed[f] <= r.mem.destroyed[f]
            && (Holders(r, f) == 0 ==> r.mem.freed[f] == r.mem.made[f])
  {
    hide Exec, Fold, Exclusive, Attributed, Counted, Tied, StackOk, Steady, TotalWeight;
    ExecSysInv(store0, actions);
    var r := Exec(Begin(store0), actions).runs[i];
    assert RunOk(Exec(Begin(store0), actions).store, r);
    assert FutureOk(r.ctl, r.mem, f);
    WrapsHold(f, r.ctl.stacks);
  }

  lemma {:induction false} WrapsHold(f: nat, ss: seq<seq<Frame>>)
    ensures TotalWeight(Wrapping(f), ss) <= TotalWeight(Holding(f), ss)
  {
    if ss != [] {
      WrapsHold(f, ss[..|ss| - 1]);
      WrapsHoldStack(f, ss[|ss| - 1]);
    }
  }

  lemma {:induction false} WrapsHoldStack(f: nat, s: seq<Frame>)
    ensures StackWeight(Wrapping(f), s) <= StackWeight(Holding(f), s)
  {
    if s != [] {
      WrapsHoldStack(f, s[..|s| - 1]);
    }
  }

  /** Exactly when a run reports what: it has reported ok = false if and only if nothing of it can move and the last
      thing it heard was that its range read was refused or its rows were unreadable; ok = true if and only if its last
      commit reported success; and nothing at all if and only if a commit or an on_error was refused. */
  lemma ReportedIff(store0: Store, actions: seq<Action>, i: nat)
    requires i < |Exec(Begin(store0), actions).runs|
    ensures var r := Exec(Begin(store0), actions).runs[i];
            var still := Owners(r) == 0;
            && (r.mem.done == [false] <==> still && (r.data.heard == Refused(Read) || r.data.heard == Unreadable))
            && (r.mem.done == [true] <==> still && r.data.heard == Committed)
            && (r.mem.done == [] && still <==> r.data.heard == Refused(Commit) || r.data.heard == Refused(Retry))
  {
    hide Exec, Fold, Exclusive, Attributed, Counted, Tied, FutureOk, StackOk, Steady, Owners;
    ExecSysInv(store0, actions);
    RunInvariant(store0, actions, i);
    var r := Exec(Begin(store0), actions).runs[i];
    assert RunOk(Exec(Begin(store0), actions).store, r);
    OneReport(r);
    Told(r);
    if Owners(r) == 1 {
      LiveHears(r);
    }
  }

  /** A run with an owner has not heard that a commit or an on_error was refused. */
  lemma LiveHears(r: Run)
    requires Sound(r) && Phased(r) && Owners(r) == 1
    ensures r.data.heard != Refused(Commit) && r.data.heard != Refused(Retry)
  {
    LiveMoves(r);
    if t, x :| Executes(r, t, x) && Weight(Owning, x) == 1 {
      SuitsAt(r, t);
    }
  }

  lemma OneReport(r: Run)
    requires |r.mem.done| <= 1 && |r.mem.lost| <= 1
    ensures r.mem.done == [] || r.mem.done == [true] || r.mem.done == [false]
    ensures r.mem.lost == [] || r.mem.lost == [r.mem.lost[0]]
  {
    if r.mem.done != [] {
      assert r.mem.done == [r.mem.done[0]];
      assert r.mem.done[0] == true || r.mem.done[0] == false;
    }
    if r.mem.lost != [] {
      assert r.mem.lost == [r.mem.lost[0]];
    }
  }

  // ----- a serial order

  /** Any interleaving leaves the store that the applied ticks, as atomic steps in the order of their commits, leave;
      each lists only entities of its own zone that were in the store, so no key appears, disappears or changes
      outside the zones ticked. */
  lemma Serialised(store0: Store, actions: seq<Action>)
    ensures var s := Exec(Begin(store0), actions);
            && s.store == Fold(store0, s.hist)
            && s.store.Keys == store0.Keys
            && (forall j :: 0 <= j < |s.hist| ==>
                  && s.hist[j].run < |s.runs| && s.hist[j].zone == s.runs[s.hist[j].run].zone
                  && s.hist[j].count == s.runs[s.hist[j].run].count
                  && forall k :: k in s.hist[j].keys ==> InRange(k, s.hist[j].zone) && k in store0)
            && (forall k :: k in store0 && (forall i :: 0 <= i < |s.runs| ==> !InRange(k, s.runs[i].zone)) ==>
                  s.store[k] == store0[k])
  {
    hide Exec, Fold, Exclusive, Counted, RunOk, InRange, TickValue;
    ExecSysInv(store0, actions);
    var s := Exec(Begin(store0), actions);
    FoldKeys(store0, s.hist);
    forall k | k in store0 && (forall i :: 0 <= i < |s.runs| ==> !InRange(k, s.runs[i].zone))
      ensures s.store[k] == store0[k]
    {
      Unticked(s.hist, k);
      FoldAt(store0, s.hist, k);
    }
  }

  /** How many applied ticks list k, and the sum of their counts. */
  function Hits(h: seq<Applied>, k: Key): nat {
    if h == [] then 0 else Hits(h[..|h| - 1], k) + (if k in h[|h| - 1].keys then 1 else 0)
  }

  function Total(h: seq<Applied>, k: Key): nat {
    if h == [] then 0 else Total(h[..|h| - 1], k) + (if k in h[|h| - 1].keys then h[|h| - 1].count else 0)
  }

  lemma {:induction false} Unticked(h: seq<Applied>, k: Key)
    requires forall j :: 0 <= j < |h| ==> k !in h[j].keys
    ensures Hits(h, k) == 0
  {
    if h != [] {
      Unticked(h[..|h| - 1], k);
    }
  }

  /** Closed form: a stored value is its first value moved by the sum of the counts applied to it. */
  lemma {:induction false} FoldAt(s: Store, h: seq<Applied>, k: Key)
    requires k in s
    ensures k in Fold(s, h)
    ensures Fold(s, h)[k] == if Hits(h, k) == 0 then s[k] else TickValue(s[k], Total(h, k))
  {
    hide TickValue;
    if h != [] {
      var init, last := h[..|h| - 1], h[|h| - 1];
      FoldAt(s, init, k);
      NoHitsNoTotal(init, k);
      if k in last.keys {
        TickCompose(s[k], Total(init, k), last.count);
      }
    }
  }

  lemma {:induction false} NoHitsNoTotal(h: seq<Applied>, k: Key)
    ensures Hits(h, k) == 0 ==> Total(h, k) == 0
  {
    if h != [] {
      NoHitsNoTotal(h[..|h| - 1], k);
    }
  }

  /** Taking an entry out of a history takes it out of both sums. */
  lemma {:induction false} TakeOut(h: seq<Applied>, i: nat, k: Key)
    requires i < |h|
    ensures var rest := h[..i] + h[i + 1..];
            && Hits(h, k) == Hits(rest, k) + (if k in h[i].keys then 1 else 0)
            && Total(h, k) == Total(rest, k) + (if k in h[i].keys then h[i].count else 0)
  {
    hide Hits, Total;
    var n := |h| - 1;
    var init, rest := h[..n], h[..i] + h[i + 1..];
    assert h == init + [h[n]];
    OneMoreTick(init, h[n], k);
    if i == n {
      assert rest == init;
    } else {
      var shorter := init[..i] + init[i + 1..];
      assert rest == shorter + [h[n]];
      TakeOut(init, i, k);
      OneMoreTick(shorter, h[n], k);
    }
  }

  lemma OneMoreTick(h: seq<Applied>, a: Applied, k: Key)
    ensures Hits(h + [a], k) == Hits(h, k) + (if k in a.keys then 1 else 0)
    ensures Total(h + [a], k) == Total(h, k) + (if k in a.keys then a.count else 0)
  {
    assert (h + [a])[..|h|] == h;
  }

  lemma Without(h: seq<Applied>, i: nat)
    requires i < |h|
    ensures multiset(h[..i] + h[i + 1..]) == multiset(h) - multiset{h[i]}
  {
    assert h == h[..i] + ([h[i]] + h[i + 1..]);
  }

  lemma {:induction false} SumsPermute(h: seq<Applied>, h': seq<Applied>, k: Key)
    requires multiset(h) == multiset(h')
    ensures Hits(h, k) == Hits(h', k) && Total(h, k) == Total(h', k)
  {
    if h == [] {
      assert |h'| == |multiset(h')| == 0;
    } else {
      hide Hits, Total;
      var n := |h| - 1;
      assert h[n] in multiset(h');
      var i :| 0 <= i < |h'| && h'[i] == h[n];
      Without(h, n);
      Without(h', i);
      SumsPermute(h[..n] + h[n + 1..], h'[..i] + h'[i + 1..], k);
      TakeOut(h, n, k);
      TakeOut(h', i, k);
    }
  }

  /** Every order of the same ticks gives the same store: an interleaved run equals any serial one. */
  lemma AnyOrder(s: Store, h: seq<Applied>, h': seq<Applied>)
    requires multiset(h) == multiset(h')
    ensures Fold(s, h) == Fold(s, h')
  {
    hide Fold, TickValue;
    FoldKeys(s, h);
    FoldKeys(s, h');
    forall k | k in s
      ensures Fold(s, h)[k] == Fold(s, h')[k]
    {
      SumsPermute(h, h', k);
      FoldAt(s, h, k);
      FoldAt(s, h', k);
    }
  }

  /** So two executions that applied the same ticks leave the same store, however they interleaved. */
  lemma SameTicksSameStore(store0: Store, actions: seq<Action>, actions': seq<Action>)
    requires multiset(Exec(Begin(store0), actions).hist) == multiset(Exec(Begin(store0), actions').hist)
    ensures Exec(Begin(store0), actions).store == Exec(Begin(store0), actions').store
  {
    hide Exec, Fold;
    Serialised(store0, actions);
    Serialised(store0, actions');
    AnyOrder(store0, Exec(Begin(store0), actions).hist, Exec(Begin(store0), actions').hist);
  }

  /** Zone records, and entities whose id has the top byte 0xFF, keep their values in every execution. */
  lemma NeverTicked(store0: Store, actions: seq<Action>, z: u32, e: u32, k: Key)
    requires k in store0 && (k == ZoneKey(z) || (k == EntityKey(z, e) && e >= 0xFF00_0000))
    ensures var s := Exec(Begin(store0), actions); k in s.store && s.store[k] == store0[k]
  {
    hide Exec, Fold, InRange, ZoneKey, EntityKey;
    var s := Exec(Begin(store0), actions);
    forall i | 0 <= i < |s.runs|
      ensures !InRange(k, s.runs[i].zone)
    {
      ZoneKeyOutside(z, s.runs[i].zone);
      RangeScanExact(s.runs[i].zone, z, e);
    }
    Serialised(store0, actions);
  }

  // ----- how often a run ticks

  /** A run that reported ok has ticked once for the commit that succeeded, once for every commit that was reported as
      failed and applied all the same, and once for every read that one of these commits took along from an attempt
      whose on_error did not reset the transaction. So it has ticked exactly once per applied commit if and only if no
      commit took such a read along; it took none if every on_error reset the transaction. */
  lemma OkTicks(store0: Store, actions: seq<Action>, i: nat)
    requires i < |Exec(Begin(store0), actions).runs| && Exec(Begin(store0), actions).runs[i].mem.done == [true]
    ensures var s := Exec(Begin(store0), actions);
            var y := s.runs[i].data.tally;
            && Contribution(s.hist, i) == 1 + y.unsure + y.carried
            && (Contribution(s.hist, i) == y.lands <==> y.carried == 0)
            && (y.allReset ==> y.carried == 0)
  {
    hide Exec, Fold, Exclusive, Attributed, Tied, Sound;
    ExecSysInv(store0, actions);
    assert RunOk(Exec(Begin(store0), actions).store, Exec(Begin(store0), actions).runs[i]);
    Told(Exec(Begin(store0), actions).runs[i]);
  }

  /** The history without the ticks of run i. */
  function Others(h: seq<Applied>, i: nat): seq<Applied> {
    if h == [] then []
    else Others(h[..|h| - 1], i) + (if h[|h| - 1].run == i then [] else [h[|h| - 1]])
  }

  /** What run i and the others did to a key that every read of run i returned. */
  lemma {:induction false} Split(h: seq<Applied>, i: nat, k: Key, n: u32)
    requires forall j :: 0 <= j < |h| && h[j].run == i ==> k in h[j].keys && h[j].count == n
    ensures Hits(h, k) == Hits(Others(h, i), k) + Contribution(h, i)
    ensures Total(h, k) == Total(Others(h, i), k) + n * Contribution(h, i)
  {
    if h != [] {
      var init, last := h[..|h| - 1], h[|h| - 1];
      assert forall j :: 0 <= j < |init| ==> init[j] == h[j];
      Split(init, i, k, n);
      if last.run == i {
        assert Others(h, i) == Others(init, i);
        assert Contribution(h, i) == Contribution(init, i) + 1;
        OneMore(n, Contribution(init, i));
      } else {
        assert Others(h, i) == Others(init, i) + [last];
        assert Contribution(h, i) == Contribution(init, i);
        OneMoreTick(Others(init, i), last, k);
      }
    }
  }

  lemma OneMore(n: nat, c: nat)
    ensures n * (c + 1) == n * c + n
  {
  }

  /** Whatever other runs did before, after or meanwhile: an entity that every applied read of an ok run returned has
      moved, by that run, by exactly count times the ticks of OkTicks from where the others alone would have it. */
  lemma OkRunStore(store0: Store, actions: seq<Action>, i: nat, k: Key)
    requires var s := Exec(Begin(store0), actions);
             && i < |s.runs| && s.runs[i].mem.done == [true] && k in store0
             && (forall j :: 0 <= j < |s.hist| && s.hist[j].run == i ==> k in s.hist[j].keys)
    ensures var s := Exec(Begin(store0), actions);
            var alone := Fold(store0, Others(s.hist, i));
            var y := s.runs[i].data.tally;
            && k in s.store && k in alone
            && s.store[k] == TickValue(alone[k], s.runs[i].count * (1 + y.unsure + y.carried))
  {
    hide Exec, Fold, InRange, TickValue, Hits, Total;
    var s := Exec(Begin(store0), actions);
    var rest, n := Others(s.hist, i), s.runs[i].count * Contribution(s.hist, i);
    OkTicks(store0, actions, i);
    Serialised(store0, actions);
    Split(s.hist, i, k, s.runs[i].count);
    FoldAt(store0, s.hist, k);
    FoldAt(store0, rest, k);
    if Hits(rest, k) > 0 {
      TickCompose(store0[k], Total(rest, k), n);
    } else {
      NoHitsNoTotal(rest, k);
    }
  }

  // ----- all runs of a zone

  /** The ticks the first n runs gave to zone z: each its count, once for each read it applied. */
  function Given(runs: seq<Run>, h: seq<Applied>, z: u32): nat {
    if runs == [] then 0
    else
      var i := |runs| - 1;
      Given(runs[..i], h, z) + (if runs[i].zone == z then runs[i].count * Contribution(h, i) else 0)
  }

  lemma {:induction false} GivenNext(runs: seq<Run>, h: seq<Applied>, a: Applied, z: u32)
    requires a.run < |runs| ==> a.zone == runs[a.run].zone && a.count == runs[a.run].count
    ensures Given(runs, h + [a], z) == Given(runs, h, z) + (if a.run < |runs| && a.zone == z then a.count else 0)
  {
    if runs != [] {
      var i := |runs| - 1;
      GivenNext(runs[..i], h, a, z);
      assert (h + [a])[..|h|] == h;
      OneMore(runs[i].count, Contribution(h, i));
    }
  }

  lemma {:induction false} GivenNothing(runs: seq<Run>, z: u32)
    ensures Given(runs, [], z) == 0
  {
    if runs != [] {
      GivenNothing(runs[..|runs| - 1], z);
    }
  }

  /** k is listed by exactly the ticks of zone z. */
  lemma {:induction false} ZoneTotal(runs: seq<Run>, h: seq<Applied>, z: u32, k: Key)
    requires forall j :: 0 <= j < |h| ==>
               && h[j].run < |runs| && h[j].zone == runs[h[j].run].zone && h[j].count == runs[h[j].run].count
               && (k in h[j].keys <==> h[j].zone == z)
    ensures Total(h, k) == Given(runs, h, z)
  {
    if h == [] {
      GivenNothing(runs, z);
    } else {
      var init, last := h[..|h| - 1], h[|h| - 1];
      assert h == init + [last];
      ZoneTotal(runs, init, z, k);
      GivenNext(runs, init, last, z);
    }
  }

  /** The ticks the runs of zone z gave it, by their own books: each its count, once for each commit it applied and
      once more for each read such a commit took along. For a run that reported ok, lands is 1 + unsure. */
  function ZoneTicks(runs: seq<Run>, z: u32): nat {
    if runs == [] then 0
    else
      var r := runs[|runs| - 1];
      ZoneTicks(runs[..|runs| - 1], z)
        + (if r.zone == z then r.count * (r.data.tally.lands + r.data.tally.carried) else 0)
  }

  lemma {:induction false} BooksAgree(runs: seq<Run>, h: seq<Applied>, z: u32)
    requires forall i :: 0 <= i < |runs| ==> Contribution(h, i) == runs[i].data.tally.lands + runs[i].data.tally.carried
    ensures Given(runs, h, z) == ZoneTicks(runs, z)
  {
    if runs != [] {
      BooksAgree(runs[..|runs| - 1], h, z);
    }
  }

  /** Every run has as many ticks in the history as its books say, and a run that reported ok has 1 + unsure commits. */
  lemma Books(store0: Store, actions: seq<Action>)
    ensures var s := Exec(Begin(store0), actions);
            forall i :: 0 <= i < |s.runs| ==>
              && Contribution(s.hist, i) == s.runs[i].data.tally.lands + s.runs[i].data.tally.carried
              && (s.runs[i].mem.done == [true] ==> s.runs[i].data.tally.lands == 1 + s.runs[i].data.tally.unsure)
  {
    hide Exec, Fold, Exclusive, Attributed, Tied, Sound, Contribution;
    ExecSysInv(store0, actions);
    var s := Exec(Begin(store0), actions);
    forall i | 0 <= i < |s.runs|
      ensures Contribution(s.hist, i) == s.runs[i].data.tally.lands + s.runs[i].data.tally.carried
      ensures s.runs[i].mem.done == [true] ==> s.runs[i].data.tally.lands == 1 + s.runs[i].data.tally.unsure
    {
      assert RunOk(s.store, s.runs[i]);
      Told(s.runs[i]);
    }
  }

  /** Over a whole execution, whatever became of each run: an entity that every applied read of its zone returned has
      moved by the sum, over all runs of the zone, of the ticks each gave it. */
  lemma ZoneStore(store0: Store, actions: seq<Action>, z: u32, k: Key)
    requires var s := Exec(Begin(store0), actions);
             && k in store0 && InRange(k, z)
             && (forall j :: 0 <= j < |s.hist| && s.hist[j].zone == z ==> k in s.hist[j].keys)
    ensures var s := Exec(Begin(store0), actions);
            && k in s.store
            && s.store[k] == (if exists j :: 0 <= j < |s.hist| && s.hist[j].zone == z
                              then TickValue(store0[k], ZoneTicks(s.runs, z)) else store0[k])
  {
    hide Exec, Fold, InRange, TickValue;
    var s := Exec(Begin(store0), actions);
    Serialised(store0, actions);
    forall j | 0 <= j < |s.hist|
      ensures k in s.hist[j].keys <==> s.hist[j].zone == z
    {
      if k in s.hist[j].keys && s.hist[j].zone != z {
        RangesDisjoint(s.hist[j].zone, z, k);
      }
    }
    ZoneTotal(s.runs, s.hist, z, k);
    Books(store0, actions);
    BooksAgree(s.runs, s.hist, z);
    FoldAt(store0, s.hist, k);
    if j :| 0 <= j < |s.hist| && s.hist[j].zone == z {
      TakeOut(s.hist, j, k);
    } else {
      Unticked(s.hist, k);
    }
  }
}
