/**
 What every reachable state of a tick run keeps: who owns the context, what becomes of each future and wrapper,
 and where the data stands.
 */
module TickInvariant {
  import opened Bytes
  import opened Tick
  import opened TickMachine

  // ----- weights

  datatype Weighing = Owning | Holding(f: nat) | Wrapping(f: nat) | Submitting(f: nat)

  /** Owning: the frame will still use the context. Holding / Wrapping: it answers for a future / a wrapper. */
  function Weight(w: Weighing, x: Frame): nat {
    match w
    case Owning => if Waits(x) || x.Ret? then 0 else 1
    case Holding(f) => if (x.Submit? || x.FutureCb? || x.FutureCbRet?) && x.f == f then 1 else 0
    case Wrapping(f) => if (x.FutureCb? || x.FutureCbRet?) && x.f == f then 1 else 0
    case Submitting(f) => if x.Submit? && x.f == f then 1 else 0
  }

  function StackWeight(w: Weighing, s: seq<Frame>): nat {
    if s == [] then 0 else StackWeight(w, s[..|s| - 1]) + Weight(w, s[|s| - 1])
  }

  function TotalWeight(w: Weighing, ss: seq<seq<Frame>>): nat {
    if ss == [] then 0 else TotalWeight(w, ss[..|ss| - 1]) + StackWeight(w, ss[|ss| - 1])
  }

  lemma {:induction false} StackWeightConcat(w: Weighing, a: seq<Frame>, b: seq<Frame>)
    ensures StackWeight(w, a + b) == StackWeight(w, a) + StackWeight(w, b)
  {
    if b == [] {
      assert a + b == a;
    } else {
      assert (a + b)[..|a + b| - 1] == a + b[..|b| - 1];
      StackWeightConcat(w, a, b[..|b| - 1]);
    }
  }

  lemma {:induction false} TotalWeightUpdate(w: Weighing, ss: seq<seq<Frame>>, t: nat, s: seq<Frame>)
    requires t < |ss|
    ensures TotalWeight(w, ss[t := s]) == TotalWeight(w, ss) - StackWeight(w, ss[t]) + StackWeight(w, s)
    ensures TotalWeight(w, ss) >= StackWeight(w, ss[t])
  {
    var n := |ss| - 1;
    if t == n {
      assert ss[t := s][..n] == ss[..n];
    } else {
      assert ss[t := s][..n] == ss[..n][t := s];
      TotalWeightUpdate(w, ss[..n], t, s);
    }
  }

  lemma TotalWeightAppend(w: Weighing, ss: seq<seq<Frame>>, s: seq<Frame>)
    ensures TotalWeight(w, ss + [s]) == TotalWeight(w, ss) + StackWeight(w, s)
  {
    assert (ss + [s])[..|ss|] == ss;
  }

  /** What replacing the top frames does to a total. */
  lemma PutWeight(w: Weighing, c: Control, t: nat, drop: nat, push: seq<Frame>)
    requires Has(c, t, drop)
    ensures var s := c.stacks[t];
            && TotalWeight(w, Put(c, t, drop, push).stacks)
               == TotalWeight(w, c.stacks) - StackWeight(w, s[|s| - drop..]) + StackWeight(w, push)
            && TotalWeight(w, c.stacks) >= StackWeight(w, s[|s| - drop..])
  {
    var s := c.stacks[t];
    var base := s[..|s| - drop];
    assert s == base + s[|s| - drop..];
    StackWeightConcat(w, base, s[|s| - drop..]);
    StackWeightConcat(w, base, push);
    TotalWeightUpdate(w, c.stacks, t, base + push);
  }

  lemma OneFrame(w: Weighing, x: Frame)
    ensures StackWeight(w, []) == 0 && StackWeight(w, [x]) == Weight(w, x)
  {
    assert [x][..0] == [];
  }

  lemma TwoFrames(w: Weighing, x: Frame, y: Frame)
    ensures StackWeight(w, [x, y]) == Weight(w, x) + Weight(w, y)
  {
    OneFrame(w, x);
    assert [x, y][..1] == [x];
  }

  // ----- call stacks

  /** Frames that wait for a call to return; every other frame is about to execute. */
  predicate Waits(x: Frame) {
    x.RunRet? || x.StartReadRet? || x.SubmitRet? || x.FutureCbRet? || x.CbRet?
  }

  predicate Sits(below: Frame, x: Frame) {
    match x
    case OnRead(f) => below == FutureCbRet(f)
    case OnCommit(f) => below == FutureCbRet(f)
    case OnRetry(f) => below == FutureCbRet(f)
    case Submit(_, k) => below == Waiter(k)
    case RetErr(k) => below == Waiter(k)
    case _ => true
  }

  predicate AllWait(s: seq<Frame>) {
    forall i :: 0 <= i < |s| ==> Waits(s[i])
  }

  function Top(s: seq<Frame>): Frame
    requires s != []
  {
    s[|s| - 1]
  }

  /** Waiting frames under one executing frame, each callback under its wrapper and each submission under its caller. */
  predicate StackOk(s: seq<Frame>) {
    s != [] ==>
      && AllWait(s[..|s| - 1]) && !Waits(Top(s))
      && Sits(if |s| == 1 then RunRet else s[|s| - 2], Top(s))
  }

  ghost predicate Shape(c: Control) {
    forall t :: 0 <= t < |c.stacks| ==> StackOk(c.stacks[t])
  }

  /** The weight of the executing frame is part of the total, and of two stacks at most one can hold a single unit. */
  lemma TopWeight(w: Weighing, c: Control, t: nat)
    requires Has(c, t, 1)
    ensures Weight(w, Top(c.stacks[t])) <= StackWeight(w, c.stacks[t]) <= TotalWeight(w, c.stacks)
  {
    TotalWeightUpdate(w, c.stacks, t, c.stacks[t]);
  }

  lemma OtherWeight(w: Weighing, c: Control, t: nat, u: nat)
    requires Has(c, t, 1) && Has(c, u, 1) && t != u
    ensures Weight(w, Top(c.stacks[t])) + Weight(w, Top(c.stacks[u])) <= TotalWeight(w, c.stacks)
  {
    TotalWeightUpdate(w, c.stacks, t, []);
    OneFrame(w, Ret);
    TotalWeightUpdate(w, c.stacks[t := []], u, []);
  }

  lemma PutShape(c: Control, t: nat, drop: nat, push: seq<Frame>)
    requires Shape(c) && Has(c, t, drop)
    requires StackOk(c.stacks[t][..|c.stacks[t]| - drop] + push)
    ensures Shape(Put(c, t, drop, push))
  {
    hide StackOk;
  }

  lemma ReplaceWeight(w: Weighing, c: Control, t: nat, x: Frame)
    requires Has(c, t, 1)
    ensures TotalWeight(w, Put(c, t, 1, [x]).stacks)
         == TotalWeight(w, c.stacks) - Weight(w, Top(c.stacks[t])) + Weight(w, x)
  {
    var s := c.stacks[t];
    PutWeight(w, c, t, 1, [x]);
    assert s[|s| - 1..] == [Top(s)];
    OneFrame(w, Top(s));
    OneFrame(w, x);
  }

  lemma CallWeight(w: Weighing, c: Control, t: nat, y: Frame, x: Frame)
    requires Has(c, t, 1)
    ensures TotalWeight(w, Put(c, t, 1, [y, x]).stacks)
         == TotalWeight(w, c.stacks) - Weight(w, Top(c.stacks[t])) + Weight(w, y) + Weight(w, x)
  {
    var s := c.stacks[t];
    PutWeight(w, c, t, 1, [y, x]);
    assert s[|s| - 1..] == [Top(s)];
    OneFrame(w, Top(s));
    TwoFrames(w, y, x);
  }

  lemma ResumeWeight(w: Weighing, c: Control, t: nat, x: Frame)
    requires Has(c, t, 2)
    ensures TotalWeight(w, Put(c, t, 2, [x]).stacks)
            == TotalWeight(w, c.stacks) - Weight(w, c.stacks[t][|c.stacks[t]| - 2]) - Weight(w, Top(c.stacks[t]))
              + Weight(w, x)
  {
    var s := c.stacks[t];
    PutWeight(w, c, t, 2, [x]);
    assert s[|s| - 2..] == [s[|s| - 2], Top(s)];
    TwoFrames(w, s[|s| - 2], Top(s));
    OneFrame(w, x);
  }

  lemma LeaveWeight(w: Weighing, c: Control, t: nat)
    requires Has(c, t, 1)
    ensures TotalWeight(w, Put(c, t, 1, []).stacks) == TotalWeight(w, c.stacks) - Weight(w, Top(c.stacks[t]))
  {
    var s := c.stacks[t];
    PutWeight(w, c, t, 1, []);
    assert s[|s| - 1..] == [Top(s)];
    OneFrame(w, Top(s));
  }

  /** The executing frame is replaced by one that sits on the same frame. */
  lemma Replace(c: Control, t: nat, x: Frame)
    requires Shape(c) && Has(c, t, 1) && !Waits(x)
    requires forall y :: Sits(y, Top(c.stacks[t])) ==> Sits(y, x)
    ensures Shape(Put(c, t, 1, [x]))
    ensures forall w :: TotalWeight(w, Put(c, t, 1, [x]).stacks)
                        == TotalWeight(w, c.stacks) - Weight(w, Top(c.stacks[t])) + Weight(w, x)
  {
    forall w
      ensures TotalWeight(w, Put(c, t, 1, [x]).stacks)
           == TotalWeight(w, c.stacks) - Weight(w, Top(c.stacks[t])) + Weight(w, x)
    {
      ReplaceWeight(w, c, t, x);
    }
    var s := c.stacks[t];
    var base := s[..|s| - 1];
    assert (base + [x])[..|base + [x]| - 1] == base;
    PutShape(c, t, 1, [x]);
  }

  /** The executing frame makes a call. */
  lemma Call(c: Control, t: nat, w: Frame, x: Frame)
    requires Shape(c) && Has(c, t, 1) && Waits(w) && !Waits(x) && Sits(w, x)
    ensures Shape(Put(c, t, 1, [w, x]))
    ensures forall v :: TotalWeight(v, Put(c, t, 1, [w, x]).stacks)
                        == TotalWeight(v, c.stacks) - Weight(v, Top(c.stacks[t])) + Weight(v, w) + Weight(v, x)
  {
    forall v
      ensures TotalWeight(v, Put(c, t, 1, [w, x]).stacks)
           == TotalWeight(v, c.stacks) - Weight(v, Top(c.stacks[t])) + Weight(v, w) + Weight(v, x)
    {
      CallWeight(v, c, t, w, x);
    }
    var s := c.stacks[t];
    var base := s[..|s| - 1];
    assert (base + [w, x])[..|base + [w, x]| - 1] == base + [w];
    PutShape(c, t, 1, [w, x]);
  }

  /** A call returns to the waiting frame below, which goes on as x. */
  lemma Resume(c: Control, t: nat, x: Frame)
    requires Shape(c) && Has(c, t, 2) && !Waits(x)
    requires forall y :: Sits(y, x)
    ensures Shape(Put(c, t, 2, [x]))
    ensures forall w :: TotalWeight(w, Put(c, t, 2, [x]).stacks)
                        == TotalWeight(w, c.stacks) - Weight(w, c.stacks[t][|c.stacks[t]| - 2])
                          - Weight(w, Top(c.stacks[t])) + Weight(w, x)
  {
    forall w
      ensures TotalWeight(w, Put(c, t, 2, [x]).stacks)
              == TotalWeight(w, c.stacks) - Weight(w, c.stacks[t][|c.stacks[t]| - 2]) - Weight(w, Top(c.stacks[t]))
                + Weight(w, x)
    {
      ResumeWeight(w, c, t, x);
    }
    var s := c.stacks[t];
    var base := s[..|s| - 2];
    assert AllWait(base) by {
      assert forall i :: 0 <= i < |base| ==> base[i] == s[..|s| - 1][i];
    }
    assert (base + [x])[..|base + [x]| - 1] == base;
    PutShape(c, t, 2, [x]);
  }

  /** The bottom frame returns. */
  lemma Leave(c: Control, t: nat)
    requires Shape(c) && Has(c, t, 1) && |c.stacks[t]| == 1
    ensures Shape(Put(c, t, 1, []))
    ensures forall w :: TotalWeight(w, Put(c, t, 1, []).stacks)
                        == TotalWeight(w, c.stacks) - Weight(w, Top(c.stacks[t]))
  {
    forall w
      ensures TotalWeight(w, Put(c, t, 1, []).stacks) == TotalWeight(w, c.stacks) - Weight(w, Top(c.stacks[t]))
    {
      LeaveWeight(w, c, t);
    }
    PutShape(c, t, 1, []);
  }

  /** Obtaining a future, or failing to, leaves one frame in charge. */
  lemma ObtainMoves(c: Control, t: nat, k: Kind, env: Env)
    requires Shape(c) && Has(c, t, 1)
    ensures var d := Obtain(c, t, k, env);
            && Shape(d) && d.pending == c.pending && d.next == c.next + (if env.created then 1 else 0)
            && forall w :: TotalWeight(w, d.stacks) == TotalWeight(w, c.stacks) - Weight(w, Top(c.stacks[t]))
                                                       + Weight(w, if env.created then Submit(c.next, k) else RetErr(k))
  {
    hide TotalWeight;
    if env.created {
      Call(c.(next := c.next + 1), t, Waiter(k), Submit(c.next, k));
    } else {
      Call(c, t, Waiter(k), RetErr(k));
    }
  }

  // ----- ownership

  /** Exactly one of: a frame or a pending callback that owns the context; a finished run, which released the context
      and the transaction once and called done_cb once; a run that lost its owner to an ignored submission failure. */
  ghost predicate OwnerOk(r: Run) {
    && TotalWeight(Owning, r.ctl.stacks) + |r.ctl.pending| + |r.mem.done| + |r.mem.lost| == 1
    && r.mem.ctxFreed == |r.mem.done| && r.mem.trDestroyed == |r.mem.done| && !r.mem.fault
    && Read !in r.mem.lost
  }

  /** Each future handed out is held by one frame or pending callback, or destroyed once; its wrapper is held or
      freed likewise, and never freed before the future is destroyed. */
  ghost predicate FutureOk(c: Control, m: Memory, f: nat) {
    var waiting, have := if f in c.pending then 1 else 0, if f < c.next then 1 else 0;
    && TotalWeight(Holding(f), c.stacks) + waiting + m.destroyed[f] == have
    && TotalWeight(Wrapping(f), c.stacks) + waiting + m.freed[f] == m.made[f]
    && m.made[f] + TotalWeight(Submitting(f), c.stacks) <= have
    && m.freed[f] <= m.destroyed[f]
  }

  ghost predicate Sound(r: Run) {
    Shape(r.ctl) && OwnerOk(r) && forall f :: FutureOk(r.ctl, r.mem, f)
  }

  ghost predicate Executes(r: Run, t: nat, x: Frame) {
    Has(r.ctl, t, 1) && Top(r.ctl.stacks[t]) == x
  }

  /** The owner executes alone, and nothing it uses has been released. */
  lemma OwnerAlone(r: Run, t: nat, x: Frame)
    requires Sound(r) && Executes(r, t, x) && Weight(Owning, x) == 1
    ensures TotalWeight(Owning, r.ctl.stacks) == 1 && r.ctl.pending == map[] && r.mem.done == [] && r.mem.lost == []
    ensures TouchCtx(r.mem) == r.mem
  {
    TopWeight(Owning, r.ctl, t);
  }

  /** While a callback executes, its future is alive. */
  lemma FutureAlive(r: Run, t: nat, f: nat, x: Frame)
    requires Sound(r) && Executes(r, t, x) && x in {OnRead(f), OnCommit(f), OnRetry(f)}
    ensures TouchFuture(r.mem, f) == r.mem
  {
    var s := r.ctl.stacks[t];
    assert StackOk(s);
    assert |s| >= 2 && s[|s| - 2] == FutureCbRet(f);
    PutWeight(Holding(f), r.ctl, t, 2, []);
    assert s[|s| - 2..] == [s[|s| - 2], Top(s)];
    TwoFrames(Holding(f), s[|s| - 2], Top(s));
    assert FutureOk(r.ctl, r.mem, f);
  }

  /** What a submission goes on as. */
  function SubmitNext(f: nat, k: Kind, env: Env): Frame {
    if !env.wrapped || !env.registered then RetErr(k) else if env.immediate then FutureCb(f, k) else Ret
  }

  /** The submission's new control state. */
  lemma SubmitMoves(r: Run, t: nat, f: nat, k: Kind, env: Env)
    requires Shape(r.ctl) && Executes(r, t, Submit(f, k))
    ensures var c, d := r.ctl, StepSubmit(r, t, f, k, env).ctl;
            && Shape(d) && d.next == c.next
            && d.pending == (if env.wrapped && env.registered && !env.immediate then c.pending[f := k] else c.pending)
            && forall w :: TotalWeight(w, d.stacks) == TotalWeight(w, c.stacks) - Weight(w, Submit(f, k))
                                                       + Weight(w, SubmitNext(f, k, env))
  {
    hide TotalWeight, StackOk;
    if !env.wrapped || !env.registered {
      Replace(r.ctl, t, RetErr(k));
    } else if env.immediate {
      Call(r.ctl, t, SubmitRet, FutureCb(f, k));
    } else {
      Replace(r.ctl.(pending := r.ctl.pending[f := k]), t, Ret);
    }
  }

  lemma SubmitFutureOk(r: Run, t: nat, f: nat, k: Kind, env: Env, g: nat)
    requires Shape(r.ctl) && Executes(r, t, Submit(f, k)) && FutureOk(r.ctl, r.mem, g)
    ensures var r' := StepSubmit(r, t, f, k, env); FutureOk(r'.ctl, r'.mem, g)
  {
    hide TotalWeight, StackOk, Put, Shape;
    SubmitMoves(r, t, f, k, env);
    TopWeight(Submitting(g), r.ctl, t);
    TopWeight(Holding(g), r.ctl, t);
  }

  lemma SubmitSound(r: Run, t: nat, f: nat, k: Kind, env: Env)
    requires Sound(r) && Executes(r, t, Submit(f, k))
    ensures Sound(StepSubmit(r, t, f, k, env))
  {
    hide TotalWeight, StackOk, Put, FutureOk, Shape;
    var r' := StepSubmit(r, t, f, k, env);
    OwnerAlone(r, t, Submit(f, k));
    SubmitMoves(r, t, f, k, env);
    forall g
      ensures FutureOk(r'.ctl, r'.mem, g)
    {
      SubmitFutureOk(r, t, f, k, env, g);
    }
  }

  /** Moves that touch no future: what they hold stays as it was. */
  ghost predicate Keeps(c: Control, m: Memory, d: Control, n: Memory) {
    && d.pending == c.pending && d.next == c.next
    && n.destroyed == m.destroyed && n.made == m.made && n.freed == m.freed
    && forall w :: w != Owning ==> TotalWeight(w, d.stacks) == TotalWeight(w, c.stacks)
  }

  lemma KeepsFutures(c: Control, m: Memory, d: Control, n: Memory)
    requires Keeps(c, m, d, n) && forall f :: FutureOk(c, m, f)
    ensures forall f :: FutureOk(d, n, f)
  {
    hide TotalWeight;
    forall f
      ensures FutureOk(d, n, f)
    {
      assert FutureOk(c, m, f);
    }
  }

  /** An owner without a future of its own obtains one. */
  lemma ObtainSound(r: Run, t: nat, x: Frame, k: Kind, env: Env, data: Data)
    requires Sound(r) && Executes(r, t, x) && (x.StartRead? || x.OnRead? || x.OnCommit?)
    ensures Sound(r.(ctl := Obtain(r.ctl, t, k, env), data := data))
  {
    hide TotalWeight, StackOk, Put, Shape, Obtain, FutureOk;
    var d := Obtain(r.ctl, t, k, env);
    OwnerAlone(r, t, x);
    ObtainMoves(r.ctl, t, k, env);
    forall g
      ensures FutureOk(d, r.mem, g)
    {
      assert FutureOk(r.ctl, r.mem, g);
      ObtainFutureOk(r.ctl, r.mem, t, k, env, g);
    }
  }

  lemma ObtainFutureOk(c: Control, m: Memory, t: nat, k: Kind, env: Env, g: nat)
    requires Shape(c) && Has(c, t, 1) && FutureOk(c, m, g)
    requires var x := Top(c.stacks[t]); x.StartRead? || x.OnRead? || x.OnCommit?
    ensures FutureOk(Obtain(c, t, k, env), m, g)
  {
    hide TotalWeight, StackOk, Put, Shape, Obtain;
    ObtainMoves(c, t, k, env);
  }

  /** An owner goes on to finish. */
  lemma FinishNextSound(r: Run, t: nat, x: Frame, ok: bool, data: Data)
    requires Sound(r) && Executes(r, t, x) && (x.OnRead? || x.OnCommit?)
    ensures Sound(r.(ctl := Put(r.ctl, t, 1, [Finish(ok)]), data := data))
  {
    hide TotalWeight, StackOk, Put, FutureOk;
    Replace(r.ctl, t, Finish(ok));
    KeepsFutures(r.ctl, r.mem, Put(r.ctl, t, 1, [Finish(ok)]), r.mem);
  }

  lemma FinishSound(r: Run, t: nat, ok: bool)
    requires Sound(r) && Executes(r, t, Finish(ok))
    ensures Sound(StepFinish(r, t, ok))
  {
    hide TotalWeight, StackOk, Put, FutureOk;
    OwnerAlone(r, t, Finish(ok));
    Replace(r.ctl, t, Ret);
    KeepsFutures(r.ctl, r.mem, Put(r.ctl, t, 1, [Ret]), StepFinish(r, t, ok).mem);
  }

  lemma RetrySound(r: Run, t: nat, f: nat, env: Env)
    requires Sound(r) && Executes(r, t, OnRetry(f))
    ensures Sound(StepOnRetry(r, t, env))
  {
    hide TotalWeight, StackOk, Put, FutureOk;
    OwnerAlone(r, t, OnRetry(f));
    Call(r.ctl, t, CbRet, StartRead);
    KeepsFutures(r.ctl, r.mem, Put(r.ctl, t, 1, [CbRet, StartRead]), r.mem);
  }

  /** future_callback still has its wrapper when it calls the callback. */
  lemma CallbackSound(r: Run, t: nat, f: nat, k: Kind)
    requires Sound(r) && Executes(r, t, FutureCb(f, k))
    ensures TouchWrapper(r.mem, f) == r.mem
    ensures Sound(r.(ctl := Put(r.ctl, t, 1, [FutureCbRet(f), Callback(f, k)])))
  {
    hide TotalWeight, StackOk, Put, FutureOk;
    WrapperAlive(r, t, f, k);
    Call(r.ctl, t, FutureCbRet(f), Callback(f, k));
    KeepsFutures(r.ctl, r.mem, Put(r.ctl, t, 1, [FutureCbRet(f), Callback(f, k)]), r.mem);
  }

  lemma WrapperAlive(r: Run, t: nat, f: nat, k: Kind)
    requires Sound(r) && Executes(r, t, FutureCb(f, k))
    ensures TouchWrapper(r.mem, f) == r.mem
  {
    hide TotalWeight, StackOk;
    TopWeight(Wrapping(f), r.ctl, t);
    assert FutureOk(r.ctl, r.mem, f);
  }

  /** A returning frame stands alone or on a frame that waits. */
  lemma BelowWaits(r: Run, t: nat, x: Frame)
    requires Shape(r.ctl) && Executes(r, t, x) && |r.ctl.stacks[t]| >= 2
    ensures Waits(r.ctl.stacks[t][|r.ctl.stacks[t]| - 2])
    ensures Sits(r.ctl.stacks[t][|r.ctl.stacks[t]| - 2], x)
  {
    var s := r.ctl.stacks[t];
    assert StackOk(s);
    assert s[..|s| - 1][|s| - 2] == s[|s| - 2];
  }

  lemma ReturnSound(r: Run, t: nat)
    requires Sound(r) && Executes(r, t, Ret)
    ensures Sound(StepReturn(r, t))
  {
    hide TotalWeight, StackOk, Put, FutureOk;
    var s := r.ctl.stacks[t];
    if |s| == 1 {
      Leave(r.ctl, t);
      KeepsFutures(r.ctl, r.mem, Put(r.ctl, t, 1, []), r.mem);
    } else {
      BelowWaits(r, t, Ret);
      Resume(r.ctl, t, Ret);
      var d := Put(r.ctl, t, 2, [Ret]);
      if s[|s| - 2].FutureCbRet? {
        var f := s[|s| - 2].f;
        forall g
          ensures FutureOk(d, FreeWrapper(DestroyFuture(r.mem, f), f), g)
        {
          assert FutureOk(r.ctl, r.mem, g);
          ReleaseFutureOk(r.ctl, r.mem, t, f, g);
        }
      } else {
        KeepsFutures(r.ctl, r.mem, d, r.mem);
      }
    }
  }

  lemma ReleaseFutureOk(c: Control, m: Memory, t: nat, f: nat, g: nat)
    requires Shape(c) && Has(c, t, 2) && FutureOk(c, m, g)
    requires Top(c.stacks[t]) == Ret && c.stacks[t][|c.stacks[t]| - 2] == FutureCbRet(f)
    ensures FutureOk(Put(c, t, 2, [Ret]), FreeWrapper(DestroyFuture(m, f), f), g)
  {
    hide TotalWeight, StackOk, Put, Shape;
    Resume(c, t, Ret);
  }

  /** A failed submission: the range read finishes the run with ok = false, the commit and on_error are lost. */
  lemma ReturnErrorSound(r: Run, t: nat, k: Kind)
    requires Sound(r) && Executes(r, t, RetErr(k))
    ensures Sound(StepReturnError(r, t, k))
    ensures StepReturnError(r, t, k).mem.lost == if k == Read then r.mem.lost else r.mem.lost + [k]
  {
    hide TotalWeight, Put, FutureOk;
    var s := r.ctl.stacks[t];
    assert StackOk(s);
    BelowWaits(r, t, RetErr(k));
    if k == Read {
      Resume(r.ctl, t, Finish(false));
      KeepsFutures(r.ctl, r.mem, Put(r.ctl, t, 2, [Finish(false)]), r.mem);
    } else {
      Resume(r.ctl, t, Ret);
      KeepsFutures(r.ctl, r.mem, Put(r.ctl, t, 2, [Ret]), StepReturnError(r, t, k).mem);
    }
  }

  /** Every step of every thread keeps the ownership protocol. */
  lemma StepSound(r: Run, store: Store, t: nat, env: Env)
    requires Sound(r)
    ensures Sound(Step(r, store, t, env))
  {
    hide Sound, StepSubmit, StepReturn, StepReturnError, StepFinish, StepOnRetry, Put, Obtain, Ticked, IsScan;
    if Has(r.ctl, t, 1) {
      var x := Top(r.ctl.stacks[t]);
      match x
      case StartRead =>
        OwnerAlone(r, t, x);
        ObtainSound(r, t, x, Read, env, r.data.(snap := store, phase := Reading));
      case Submit(f, k) => SubmitSound(r, t, f, k, env);
      case FutureCb(f, k) => CallbackSound(r, t, f, k);
      case OnRead(f) =>
        OwnerAlone(r, t, x);
        FutureAlive(r, t, f, x);
        ObtainSound(r, t, x, Retry, env, r.data.(phase := Recovering, heard := Failed(Read)));
        FinishNextSound(r, t, x, false, r.data.(heard := Unreadable));
        ObtainSound(r, t, x, Commit, env, Ticked(r.data, env.rows, r.count, env.created));
      case OnCommit(f) =>
        OwnerAlone(r, t, x);
        FutureAlive(r, t, f, x);
        ObtainSound(r, t, x, Retry, env, r.data.(phase := Recovering, heard := Failed(Commit)));
        FinishNextSound(r, t, x, true, r.data.(heard := Committed));
      case OnRetry(f) => RetrySound(r, t, f, env);
      case Finish(ok) => FinishSound(r, t, ok);
      case Ret => ReturnSound(r, t);
      case RetErr(k) => ReturnErrorSound(r, t, k);
      case _ =>
    }
  }

  lemma FireWeight(r: Run, f: nat, w: Weighing)
    requires f in r.ctl.pending
    ensures TotalWeight(w, Fire(r, f).ctl.stacks)
         == TotalWeight(w, r.ctl.stacks) + Weight(w, FutureCb(f, r.ctl.pending[f]))
  {
    hide TotalWeight, Weight;
    var x := FutureCb(f, r.ctl.pending[f]);
    TotalWeightAppend(w, r.ctl.stacks, [x]);
    OneFrame(w, x);
  }

  lemma FireShape(r: Run, f: nat)
    requires Shape(r.ctl)
    ensures Shape(Fire(r, f).ctl)
  {
    if f in r.ctl.pending {
      assert StackOk([FutureCb(f, r.ctl.pending[f])]);
      hide StackOk;
    }
  }

  lemma FireFutureOk(r: Run, f: nat, g: nat)
    requires f in r.ctl.pending && FutureOk(r.ctl, r.mem, g)
    ensures FutureOk(Fire(r, f).ctl, r.mem, g)
  {
    hide TotalWeight;
    FireWeight(r, f, Holding(g));
    FireWeight(r, f, Wrapping(g));
    FireWeight(r, f, Submitting(g));
  }

  lemma FirePending(c: Control, f: nat)
    requires f in c.pending
    ensures |c.pending - {f}| == |c.pending| - 1
  {
    assert c.pending == (c.pending - {f})[f := c.pending[f]];
  }

  lemma FireSound(r: Run, f: nat)
    requires Sound(r)
    ensures Sound(Fire(r, f))
  {
    hide TotalWeight, Shape, FutureOk;
    if f in r.ctl.pending {
      FireShape(r, f);
      FireWeight(r, f, Owning);
      FirePending(r.ctl, f);
      forall g
        ensures FutureOk(Fire(r, f).ctl, r.mem, g)
      {
        assert FutureOk(r.ctl, r.mem, g);
        FireFutureOk(r, f, g);
      }
    }
  }

  lemma InitSound(z: u32, n: u32)
    ensures Sound(Init(z, n))
  {
    var c := Init(z, n).ctl;
    forall w
      ensures TotalWeight(w, c.stacks) == Weight(w, StartRead)
    {
      assert c.stacks == [] + [[RunRet, StartRead]];
      TotalWeightAppend(w, [], [RunRet, StartRead]);
      TwoFrames(w, RunRet, StartRead);
    }
  }

  // ----- phases and data

  function KindPhase(k: Kind): Phase {
    match k
    case Read => Reading
    case Commit => Committing
    case Retry => Recovering
  }

  /** Answers after which a run does nothing but report, or nothing at all. */
  predicate Final(a: Answer) {
    a.Refused? || a.Unreadable? || a.Committed?
  }

  predicate FinalFalse(a: Answer) {
    a == Refused(Read) || a == Unreadable
  }

  /** The phase in which an owner executes and what it has heard; a run is reported as ok only once its commit is in
      the store and has reported success. */
  predicate Suits(d: Data, x: Frame) {
    match x
    case StartRead => d.phase == Starting && !Final(d.heard)
    case Submit(_, k) => d.phase == KindPhase(k) && !Final(d.heard)
    case FutureCb(_, k) => d.phase == KindPhase(k) && !Final(d.heard)
    case RetErr(k) => d.phase == KindPhase(k) && !Final(d.heard)
    case OnRead(_) => d.phase == Reading && !Final(d.heard)
    case OnCommit(_) => d.phase == Committing && !Final(d.heard)
    case OnRetry(_) => d.phase == Recovering && !Final(d.heard)
    case Finish(ok) =>
      if ok then d.phase == Committing && d.landed && d.heard == Committed
      else d.phase == Reading && FinalFalse(d.heard)
    case _ => true
  }

  ghost predicate TopsSuit(c: Control, d: Data) {
    forall t :: 0 <= t < |c.stacks| && c.stacks[t] != [] ==> Suits(d, Top(c.stacks[t]))
  }

  ghost predicate Phased(r: Run) {
    && TopsSuit(r.ctl, r.data)
    && (forall f :: f in r.ctl.pending ==> r.data.phase == KindPhase(r.ctl.pending[f]) && !Final(r.data.heard))
    && (r.mem.done != [] <==> r.data.phase == Over)
    && (forall ok :: ok in r.mem.done ==>
          if ok then r.data.landed && r.data.heard == Committed else FinalFalse(r.data.heard))
    && (forall k :: k in r.mem.lost ==> r.data.heard == Refused(k))
  }

  /** How the commits, the write buffer and the resets stand to each other. */
  ghost predicate Steady(d: Data) {
    && (d.phase.Starting? || d.phase.Reading? ==> !d.landed)
    && (d.phase.Starting? || d.phase.Reading? || d.phase.Over? || d.landed ==> !d.open)
    && (d.phase.Starting? || d.phase.Reading? ==> |d.pend| == d.kept)
    && (d.open ==> |d.pend| == d.kept + 1)
    && d.tally.lands == d.tally.unsure + (if d.landed then 1 else 0)
    && d.tally.given == d.tally.lands + d.tally.carried
    && (d.tally.allReset ==> d.kept == 0 && d.tally.carried == 0)
  }

  ghost predicate Inv(r: Run) {
    Sound(r) && Phased(r) && Steady(r.data)
  }

  /** When the owner moves, no other stack constrains the phase. */
  lemma OwnerSuits(r: Run, t: nat, x: Frame, c: Control, drop: nat, push: seq<Frame>, d: Data)
    requires Sound(r) && Executes(r, t, x) && Weight(Owning, x) == 1
    requires Has(c, t, drop) && c.stacks == r.ctl.stacks && push != [] && Suits(d, Top(push))
    ensures TopsSuit(Put(c, t, drop, push), d)
  {
    hide StackOk, FutureOk, TotalWeight;
    OwnerAlone(r, t, x);
    var c' := Put(c, t, drop, push);
    forall u | 0 <= u < |c'.stacks| && c'.stacks[u] != []
      ensures Suits(d, Top(c'.stacks[u]))
    {
      if u != t {
        OtherWeight(Owning, r.ctl, t, u);
      }
    }
  }

  lemma ObtainPhased(r: Run, t: nat, x: Frame, k: Kind, env: Env, d: Data)
    requires Sound(r) && Phased(r) && Executes(r, t, x) && Weight(Owning, x) == 1
    requires d.phase == KindPhase(k) && !Final(d.heard)
    ensures Phased(r.(ctl := Obtain(r.ctl, t, k, env), data := d))
  {
    hide Sound, Put, TopsSuit;
    OwnerAlone(r, t, x);
    if env.created {
      OwnerSuits(r, t, x, r.ctl.(next := r.ctl.next + 1), 1, [Waiter(k), Submit(r.ctl.next, k)], d);
    } else {
      OwnerSuits(r, t, x, r.ctl, 1, [Waiter(k), RetErr(k)], d);
    }
  }

  /** The owner goes on as y in thread t. */
  lemma OwnerPhased(r: Run, t: nat, x: Frame, drop: nat, push: seq<Frame>, d: Data)
    requires Sound(r) && Phased(r) && Executes(r, t, x) && Weight(Owning, x) == 1
    requires Has(r.ctl, t, drop) && push != [] && Suits(d, Top(push)) && d.phase != Over
    ensures Phased(r.(ctl := Put(r.ctl, t, drop, push), data := d))
  {
    hide Sound, Put, TopsSuit;
    OwnerAlone(r, t, x);
    OwnerSuits(r, t, x, r.ctl, drop, push, d);
  }

  lemma SubmitPhased(r: Run, t: nat, f: nat, k: Kind, env: Env)
    requires Sound(r) && Phased(r) && Executes(r, t, Submit(f, k))
    ensures Phased(StepSubmit(r, t, f, k, env))
  {
    hide Sound, Put, TopsSuit;
    SuitsAt(r, t);
    var x, c := Submit(f, k), r.ctl;
    OwnerAlone(r, t, x);
    OwnerSuits(r, t, x, c, 1, [RetErr(k)], r.data);
    OwnerSuits(r, t, x, c, 1, [SubmitRet, FutureCb(f, k)], r.data);
    OwnerSuits(r, t, x, c.(pending := c.pending[f := k]), 1, [Ret], r.data);
  }

  lemma SuitsAt(r: Run, t: nat)
    requires Phased(r) && Has(r.ctl, t, 1)
    ensures Suits(r.data, Top(r.ctl.stacks[t]))
  {
  }

  lemma FinishPhased(r: Run, t: nat, ok: bool)
    requires Sound(r) && Phased(r) && Executes(r, t, Finish(ok))
    ensures Phased(StepFinish(r, t, ok))
  {
    hide Sound, Put, TopsSuit;
    SuitsAt(r, t);
    OwnerAlone(r, t, Finish(ok));
    OwnerSuits(r, t, Finish(ok), r.ctl, 1, [Ret], r.data.(phase := Over));
  }

  lemma ReturnPhased(r: Run, t: nat)
    requires Phased(r) && Executes(r, t, Ret)
    ensures Phased(StepReturn(r, t))
  {
    hide KindPhase;
    if |r.ctl.stacks[t]| == 1 {
      PutSuits(r, t, 1, []);
    } else {
      PutSuits(r, t, 2, [Ret]);
    }
    hide Put, TopsSuit;
  }

  /** A returning thread asks nothing of the phase. */
  lemma PutSuits(r: Run, t: nat, drop: nat, push: seq<Frame>)
    requires Phased(r) && Has(r.ctl, t, drop) && (push == [Ret] || (push == [] && |r.ctl.stacks[t]| == drop))
    ensures TopsSuit(Put(r.ctl, t, drop, push), r.data)
  {
  }

  lemma ReturnErrorPhased(r: Run, t: nat, k: Kind)
    requires Sound(r) && Phased(r) && Executes(r, t, RetErr(k))
    ensures Phased(StepReturnError(r, t, k))
  {
    hide Put, TopsSuit, FutureOk;
    var s := r.ctl.stacks[t];
    assert StackOk(s);
    SuitsAt(r, t);
    if |s| >= 2 {
      OwnerAlone(r, t, RetErr(k));
      var told := r.data.(heard := Refused(k));
      OwnerSuits(r, t, RetErr(k), r.ctl, 2, [Ret], told);
      if k == Read {
        OwnerSuits(r, t, RetErr(k), r.ctl, 2, [Finish(false)], told);
      }
    }
  }

  lemma OnReadPhased(r: Run, t: nat, f: nat, env: Env)
    requires Sound(r) && Phased(r) && Executes(r, t, OnRead(f))
    ensures Phased(StepOnRead(r, t, f, env))
  {
    hide Sound, Phased, Put, Obtain, IsScan, TickWrites, RowKeys;
    var x := OnRead(f);
    SuitsAt(r, t);
    OwnerAlone(r, t, x);
    FutureAlive(r, t, f, x);
    ObtainPhased(r, t, x, Retry, env, r.data.(phase := Recovering, heard := Failed(Read)));
    OwnerPhased(r, t, x, 1, [Finish(false)], r.data.(heard := Unreadable));
    ObtainPhased(r, t, x, Commit, env, Ticked(r.data, env.rows, r.count, env.created));
  }

  lemma OnCommitPhased(r: Run, t: nat, f: nat, env: Env)
    requires Sound(r) && Phased(r) && Executes(r, t, OnCommit(f))
    ensures Phased(StepOnCommit(r, t, f, env))
  {
    hide Sound, Phased, Put, Obtain;
    var x := OnCommit(f);
    SuitsAt(r, t);
    OwnerAlone(r, t, x);
    FutureAlive(r, t, f, x);
    ObtainPhased(r, t, x, Retry, env, r.data.(phase := Recovering, heard := Failed(Commit)));
    if r.data.landed {
      OwnerPhased(r, t, x, 1, [Finish(true)], r.data.(heard := Committed));
    }
  }

  lemma StepPhased(r: Run, store: Store, t: nat, env: Env)
    requires Sound(r) && Phased(r)
    ensures Phased(Step(r, store, t, env))
  {
    hide Sound, Phased, StepSubmit, StepReturn, StepReturnError, StepFinish, StepOnRead, StepOnCommit, Put, Obtain;
    if Has(r.ctl, t, 1) {
      var x := Top(r.ctl.stacks[t]);
      SuitsAt(r, t);
      match x
      case StartRead =>
        OwnerAlone(r, t, x);
        ObtainPhased(r, t, x, Read, env, r.data.(snap := store, phase := Reading));
      case Submit(f, k) => SubmitPhased(r, t, f, k, env);
      case FutureCb(f, k) =>
        CallbackSound(r, t, f, k);
        OwnerPhased(r, t, x, 1, [FutureCbRet(f), Callback(f, k)], r.data);
      case OnRead(f) => OnReadPhased(r, t, f, env);
      case OnCommit(f) => OnCommitPhased(r, t, f, env);
      case OnRetry(f) =>
        OwnerAlone(r, t, x);
        OwnerPhased(r, t, x, 1, [CbRet, StartRead], Recovered(r.data, env.failed, env.reset));
      case Finish(ok) => FinishPhased(r, t, ok);
      case Ret => ReturnPhased(r, t);
      case RetErr(k) => ReturnErrorPhased(r, t, k);
      case _ =>
    }
  }

  /** The data after a step is the data before, with a new answer perhaps, or one of five updates in its own phase. */
  ghost predicate DataStep(d: Data, e: Data, zone: u32, n: u32, store: Store, env: Env) {
    || e == d.(heard := e.heard)
    || (d.phase == Starting && e == d.(snap := store, phase := Reading))
    || (d.phase == Reading && IsScan(d.snap + d.writes, zone, env.rows) && e == Ticked(d, env.rows, n, env.created))
    || ((d.phase == Reading || d.phase == Committing) && e == d.(phase := Recovering, heard := e.heard))
    || (d.phase == Recovering && e == Recovered(d, env.failed, env.reset))
    || ((d.phase == Reading || (d.phase == Committing && d.landed)) && e == d.(phase := Over))
  }

  lemma StepData(r: Run, store: Store, t: nat, env: Env)
    requires Phased(r)
    ensures DataStep(r.data, Step(r, store, t, env).data, r.zone, r.count, store, env)
    ensures var r' := Step(r, store, t, env); r'.zone == r.zone && r'.count == r.count
  {
    hide Phased, Put, Obtain, IsScan, Ticked, Recovered, StepOnRead, StepOnCommit, Follows;
    assert Follows(r, Step(r, store, t, env));
    SameRun(r, Step(r, store, t, env));
    if Has(r.ctl, t, 1) {
      SuitsAt(r, t);
      var x := Top(r.ctl.stacks[t]);
      if x.OnRead? {
        OnReadData(r, store, t, x.f, env);
      } else if x.OnCommit? {
        OnCommitData(r, store, t, x.f, env);
      }
    }
  }

  lemma SameRun(r: Run, after: Run)
    requires Follows(r, after)
    ensures after.zone == r.zone && after.count == r.count
  {
  }

  lemma OnReadData(r: Run, store: Store, t: nat, f: nat, env: Env)
    requires Has(r.ctl, t, 1) && r.data.phase == Reading
    ensures DataStep(r.data, StepOnRead(r, t, f, env).data, r.zone, r.count, store, env)
  {
    hide Put, Obtain, IsScan, Ticked, Recovered;
  }

  lemma OnCommitData(r: Run, store: Store, t: nat, f: nat, env: Env)
    requires Has(r.ctl, t, 1) && r.data.phase == Committing
    ensures DataStep(r.data, StepOnCommit(r, t, f, env).data, r.zone, r.count, store, env)
  {
    hide Put, Obtain, IsScan, Ticked, Recovered;
  }

  lemma DataStepSteady(d: Data, e: Data, zone: u32, n: u32, store: Store, env: Env)
    requires Steady(d) && DataStep(d, e, zone, n, store, env)
    ensures Steady(e)
  {
    hide IsScan, Ticked, Recovered;
    TickedSteady(d, env.rows, n, env.created);
    RecoveredSteady(d, env.failed, env.reset);
  }

  lemma TickedSteady(d: Data, rows: seq<Row>, n: nat, created: bool)
    ensures Steady(d) && d.phase == Reading ==> Steady(Ticked(d, rows, n, created))
  {
    hide TickWrites, RowKeys;
  }

  lemma RecoveredSteady(d: Data, failed: bool, reset: bool)
    ensures Steady(d) && d.phase == Recovering ==> Steady(Recovered(d, failed, reset))
  {
  }

  lemma StepInv(r: Run, store: Store, t: nat, env: Env)
    requires Inv(r)
    ensures Inv(Step(r, store, t, env))
  {
    hide Sound, Phased, Steady, Step, DataStep;
    StepSound(r, store, t, env);
    StepPhased(r, store, t, env);
    StepData(r, store, t, env);
    DataStepSteady(r.data, Step(r, store, t, env).data, r.zone, r.count, store, env);
  }

  lemma FireInv(r: Run, f: nat)
    requires Inv(r)
    ensures Inv(Fire(r, f))
  {
    hide Sound, Steady;
    FireSound(r, f);
  }

  lemma LandInv(r: Run)
    requires Inv(r)
    ensures Inv(Land(r))
  {
    hide TotalWeight, StackOk, FutureOk;
  }

  lemma InitInv(z: u32, n: u32)
    ensures Inv(Init(z, n))
  {
    hide Sound;
    InitSound(z, n);
  }
}
