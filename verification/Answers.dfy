/**
 What the library's answers make of a run (src/zf_zonetick.c:54-124): every answer a run acts on was given to it in a
 step of its own, and an error that a future carries never ends a run.
 */
module Answers {
  import opened Keys
  import opened Tick
  import opened TickMachine
  import opened TickInvariant
  import opened Fabric
  import opened Serial

  /** The frame x learns h from the library. */
  predicate Tells(x: Frame, env: Env, h: Answer) {
    match x
    case OnRead(_) => h == if env.failed then Failed(Read) else if env.arrayFailed then Unreadable else Rows
    case OnCommit(_) => h == if env.failed then Failed(Commit) else Committed
    case OnRetry(_) => h == Retried(env.failed)
    case RetErr(k) => h == Refused(k)
    case _ => false
  }

  /** A step leaves the last answer as it was, or it executes a frame that learns the new one; the errors of a read and
      of a commit, unreadable rows and the outcome of on_error are always learnt. */
  lemma StepHears(r: Run, store: Store, t: nat, env: Env)
    ensures var h := Step(r, store, t, env).data.heard;
            if Has(r.ctl, t, 1) then
              var x := Top(r.ctl.stacks[t]);
              && (h == r.data.heard || Tells(x, env, h))
              && ((x.OnRead? && (env.failed || env.arrayFailed)) || (x.OnCommit? && env.failed) || x.OnRetry? ==>
                    Tells(x, env, h))
            else h == r.data.heard
  {
    hide StepSubmit, StepReturn, StepReturnError, StepOnRead, StepOnCommit, Put, Obtain, TouchCtx, TouchWrapper,
         Callback;
    if Has(r.ctl, t, 1) {
      match Top(r.ctl.stacks[t])
      case Submit(f, k) => Quiet(r, t, f, k, env);
      case Ret => QuietReturn(r, t);
      case RetErr(k) => RefusalHeard(r, t, k);
      case OnRead(f) => ReadHeard(r, t, f, env);
      case OnCommit(f) => CommitHeard(r, t, f, env);
      case _ =>
    }
  }

  lemma Quiet(r: Run, t: nat, f: nat, k: Kind, env: Env)
    requires Has(r.ctl, t, 1)
    ensures StepSubmit(r, t, f, k, env).data == r.data
  {
    hide Put, DestroyFuture, MakeWrapper, FreeWrapper;
  }

  lemma QuietReturn(r: Run, t: nat)
    requires Has(r.ctl, t, 1)
    ensures StepReturn(r, t).data == r.data
  {
    hide Put, DestroyFuture, FreeWrapper;
  }

  lemma RefusalHeard(r: Run, t: nat, k: Kind)
    requires Has(r.ctl, t, 1)
    ensures StepReturnError(r, t, k).data.heard in {r.data.heard, Refused(k)}
  {
    hide Put;
  }

  lemma ReadHeard(r: Run, t: nat, f: nat, env: Env)
    requires Has(r.ctl, t, 1)
    ensures var h := StepOnRead(r, t, f, env).data.heard;
            if env.failed then h == Failed(Read) else if env.arrayFailed then h == Unreadable
            else h in {r.data.heard, Rows}
  {
    hide Put, Obtain, IsScan, TouchCtx, TouchFuture, TickWrites, RowKeys;
  }

  lemma CommitHeard(r: Run, t: nat, f: nat, env: Env)
    requires Has(r.ctl, t, 1)
    ensures var h := StepOnCommit(r, t, f, env).data.heard;
            if env.failed then h == Failed(Commit) else h in {r.data.heard, Committed}
  {
    hide Put, Obtain, TouchCtx, TouchFuture;
  }

  /** In step j run i learnt h. */
  ghost predicate Gave(store0: Store, actions: seq<Action>, i: nat, j: nat, h: Answer) {
    && j < |actions| && actions[j].Execute? && actions[j].i == i
    && var s := Exec(Begin(store0), actions[..j]);
       && i < |s.runs| && Has(s.runs[i].ctl, actions[j].t, 1)
       && Tells(Top(s.runs[i].ctl.stacks[actions[j].t]), actions[j].env, h)
  }

  /** Whatever a run last heard was told it in one of its own steps. */
  lemma {:induction false} AnswerGiven(store0: Store, actions: seq<Action>, i: nat) returns (j: nat)
    requires i < |Exec(Begin(store0), actions).runs| && Exec(Begin(store0), actions).runs[i].data.heard != Nothing
    ensures Gave(store0, actions, i, j, Exec(Begin(store0), actions).runs[i].data.heard)
  {
    hide Step, Tells, Free;
    var n := |actions| - 1;
    var s, a := Exec(Begin(store0), actions[..n]), actions[n];
    var h := Exec(Begin(store0), actions).runs[i].data.heard;
    if i < |s.runs| && h == s.runs[i].data.heard {
      j := AnswerGiven(store0, actions[..n], i);
      assert actions[..n][..j] == actions[..j];
    } else {
      j := n;
      assert a.Execute? && a.i == i;
      StepHears(s.runs[i], s.store, a.t, a.env);
    }
  }

  /** A report has its cause in the library: ok = true follows a commit whose future carried no error, ok = false a
      refused range read, or rows that could not be extracted from a read without an error. */
  lemma ReportGiven(store0: Store, actions: seq<Action>, i: nat) returns (j: nat)
    requires i < |Exec(Begin(store0), actions).runs| && Exec(Begin(store0), actions).runs[i].mem.done != []
    ensures if Exec(Begin(store0), actions).runs[i].mem.done == [true] then Gave(store0, actions, i, j, Committed)
            else Gave(store0, actions, i, j, Refused(Read)) || Gave(store0, actions, i, j, Unreadable)
  {
    hide Exec, Owners, Gave;
    RunInvariant(store0, actions, i);
    ReportedIff(store0, actions, i);
    OneReport(Exec(Begin(store0), actions).runs[i]);
    j := AnswerGiven(store0, actions, i);
  }

  // ----- errors alone never end a run

  /** The library creates and registers every future, and its rows can be extracted; futures may still carry errors. */
  predicate Willing(env: Env) {
    env.created && env.wrapped && env.registered && !env.arrayFailed
  }

  predicate Unrefused(s: seq<Frame>) {
    forall k :: 0 <= k < |s| ==> !s[k].RetErr?
  }

  /** No submission of the run is being refused. */
  predicate AllUnrefused(c: Control) {
    forall t :: 0 <= t < |c.stacks| ==> Unrefused(c.stacks[t])
  }

  predicate Served(r: Run) {
    AllUnrefused(r.ctl) && !r.data.heard.Refused? && r.data.heard != Unreadable
  }

  lemma PutUnrefused(c: Control, t: nat, drop: nat, push: seq<Frame>)
    requires Has(c, t, drop) && Unrefused(push) && AllUnrefused(c)
    ensures AllUnrefused(Put(c, t, drop, push))
  {
  }

  lemma ObtainUnrefused(c: Control, t: nat, k: Kind, env: Env)
    requires Has(c, t, 1) && AllUnrefused(c) && env.created
    ensures AllUnrefused(Obtain(c, t, k, env))
  {
    PutUnrefused(c.(next := c.next + 1), t, 1, [Waiter(k), Submit(c.next, k)]);
  }

  lemma StepServed(r: Run, store: Store, t: nat, env: Env)
    requires Served(r) && Willing(env)
    ensures Served(Step(r, store, t, env))
  {
    hide AllUnrefused, Step;
    StepUnrefused(r, store, t, env);
    StepHears(r, store, t, env);
    if Has(r.ctl, t, 1) {
      TopUnrefused(r.ctl, t);
    }
  }

  lemma TopUnrefused(c: Control, t: nat)
    requires AllUnrefused(c) && Has(c, t, 1)
    ensures !Top(c.stacks[t]).RetErr?
  {
    assert Unrefused(c.stacks[t]);
  }

  lemma StepUnrefused(r: Run, store: Store, t: nat, env: Env)
    requires AllUnrefused(r.ctl) && Willing(env)
    ensures AllUnrefused(Step(r, store, t, env).ctl)
  {
    hide AllUnrefused, Put, Obtain, IsScan, Ticked, TouchCtx, TouchFuture, TouchWrapper, DestroyFuture, MakeWrapper,
         FreeWrapper, Recovered;
    if Has(r.ctl, t, 1) {
      TopUnrefused(r.ctl, t);
      match Top(r.ctl.stacks[t])
      case StartRead => ObtainUnrefused(r.ctl, t, Read, env);
      case Submit(f, k) => SubmitUnrefused(r.ctl, t, f, k);
      case FutureCb(f, k) => PutUnrefused(r.ctl, t, 1, [FutureCbRet(f), Callback(f, k)]);
      case OnRead(f) =>
        ObtainUnrefused(r.ctl, t, Retry, env);
        ObtainUnrefused(r.ctl, t, Commit, env);
      case OnCommit(f) =>
        ObtainUnrefused(r.ctl, t, Retry, env);
        PutUnrefused(r.ctl, t, 1, [Finish(true)]);
      case OnRetry(f) => PutUnrefused(r.ctl, t, 1, [CbRet, StartRead]);
      case Finish(ok) => PutUnrefused(r.ctl, t, 1, [Ret]);
      case Ret =>
        PutUnrefused(r.ctl, t, 1, []);
        if |r.ctl.stacks[t]| > 1 {
          PutUnrefused(r.ctl, t, 2, [Ret]);
        }
      case _ =>
    }
  }

  lemma SubmitUnrefused(c: Control, t: nat, f: nat, k: Kind)
    requires Has(c, t, 1) && AllUnrefused(c)
    ensures AllUnrefused(Put(c, t, 1, [SubmitRet, FutureCb(f, k)]))
    ensures AllUnrefused(Put(c.(pending := c.pending[f := k]), t, 1, [Ret]))
  {
    PutUnrefused(c, t, 1, [SubmitRet, FutureCb(f, k)]);
    PutUnrefused(c.(pending := c.pending[f := k]), t, 1, [Ret]);
  }

  /** Retried for as long as it takes: unless a submission is refused or rows cannot be extracted, a run never reports
      ok = false and is never lost, whatever errors its futures carry; once nothing of it can move it has reported
      ok = true. */
  lemma NeverGivesUp(store0: Store, actions: seq<Action>, i: nat)
    requires i < |Exec(Begin(store0), actions).runs|
    requires forall a :: a in actions && a.Execute? && a.i == i ==> Willing(a.env)
    ensures var r := Exec(Begin(store0), actions).runs[i];
            && r.mem.done != [false] && r.mem.lost == []
            && (Owners(r) == 0 ==> r.mem.done == [true])
  {
    hide Exec, Owners;
    ServedAlways(store0, actions, i);
    RunInvariant(store0, actions, i);
    ReportedIff(store0, actions, i);
    OneReport(Exec(Begin(store0), actions).runs[i]);
  }

  lemma {:induction false} ServedAlways(store0: Store, actions: seq<Action>, i: nat)
    requires i < |Exec(Begin(store0), actions).runs|
    requires forall a :: a in actions && a.Execute? && a.i == i ==> Willing(a.env)
    ensures Served(Exec(Begin(store0), actions).runs[i])
  {
    hide Step, Free, Willing;
    var n := |actions| - 1;
    var s, a := Exec(Begin(store0), actions[..n]), actions[n];
    if i < |s.runs| {
      ServedAlways(store0, actions[..n], i);
      if a.Execute? && a.i == i {
        StepServed(s.runs[i], s.store, a.t, a.env);
      }
    }
  }
}
