/**
 One run of zf_zonetick_run (src/zf_zonetick.c:37-146) over the future wrappers of src/fdb_database.c:68-176, as a
 machine with explicit call stacks.

 Each thread is a stack of frames; a step executes the top frame up to its next call or return. The environment
 decides every answer of the database library: whether a future is created, whether the wrapper allocates, whether
 the callback registers, whether it fires at once inside the registration or later on another thread, what error
 a future carries, and when a submitted commit reaches the store. Threads interleave freely.
 */
module TickMachine {
  import opened Bytes
  import opened Keys
  import opened Tick

  datatype Kind = Read | Commit | Retry

  datatype Frame =
    | RunRet                        // zf_zonetick_run, waiting to return 0
    | StartRead                     // zt_start_range_read
    | StartReadRet                  // ... waiting for the result of fdb_async_get_range
    | Submit(f: nat, kind: Kind)    // submit_future
    | SubmitRet                     // ... waiting for fdb_future_set_callback to return
    | FutureCb(f: nat, kind: Kind)  // future_callback
    | FutureCbRet(f: nat)           // ... waiting for the callback to return
    | OnRead(f: nat)                // zt_on_range_read
    | OnCommit(f: nat)              // zt_on_commit
    | OnRetry(f: nat)               // zt_on_error_retry
    | CbRet                         // a callback, waiting for the call it makes last and whose result it ignores
    | Finish(ok: bool)              // zt_finish
    | Ret                           // returning 0, or void
    | RetErr(kind: Kind)            // returning a failed submission

  /** Where the run is; tracked to state what holds, never read by the code. */
  datatype Phase = Starting | Reading | Committing | Recovering | Over

  /** The answers the environment gives during one step. */
  datatype Env = Env(
    created: bool,       // the library returned a future
    wrapped: bool,       // malloc of the wrapper context succeeded
    registered: bool,    // fdb_future_set_callback succeeded
    immediate: bool,     // ... and fired the callback before returning
    failed: bool,        // fdb_future_get_error
    arrayFailed: bool,   // fdb_future_get_keyvalue_array
    rows: seq<Row>,      // the rows it returned
    reset: bool)         // on_error reset the transaction

  datatype Control = Control(
    stacks: seq<seq<Frame>>,
    pending: map<nat, Kind>,        // registered callbacks that have not fired
    next: nat)                      // futures handed out so far

  datatype Memory = Memory(
    destroyed: multiset<nat>,       // fdb_future_destroy calls
    made: multiset<nat>,            // wrapper contexts allocated
    freed: multiset<nat>,           // ... and freed
    ctxFreed: nat, trDestroyed: nat,
    done: seq<bool>,                // done_cb calls
    lost: seq<Kind>,                // failed submissions whose result the caller ignored
    fault: bool)                    // something was used after its release

  /** What the library last told the run. */
  datatype Answer =
    | Nothing
    | Refused(kind: Kind)           // a submission failed
    | Failed(kind: Kind)            // the future of a read or a commit carried an error
    | Unreadable                    // the rows of a read could not be extracted
    | Rows                          // a read returned its rows
    | Committed                     // a commit reported success
    | Retried(failed: bool)         // on_error completed, with or without an error

  /** Counts over the whole run. */
  datatype Tally = Tally(
    lands: nat, given: nat,         // commits that reached the store, and reads ticked through them
    unsure: nat,                    // commits that reached the store though they were reported as failed
    carried: nat,                   // reads that a commit took along from an attempt on_error had left in the buffer
    allReset: bool)                 // every on_error so far reset the transaction

  datatype Data = Data(
    phase: Phase, heard: Answer,
    snap: Store, writes: Store,     // the read snapshot and the transaction's write buffer
    open: bool, landed: bool,       // the commit may still reach the store; it has
    pend: seq<set<Key>>,            // the reads ticked into the write buffer and not yet in the store
    kept: nat,                      // how many of them an on_error without a reset left there
    tally: Tally)

  datatype Run = Run(zone: u32, count: u32, ctl: Control, mem: Memory, data: Data)

  function Init(z: u32, n: u32): Run {
    Run(z, n, Control([[RunRet, StartRead]], map[], 0),
        Memory(multiset{}, multiset{}, multiset{}, 0, 0, [], [], false),
        Data(Starting, Nothing, map[], map[], false, false, [], 0, Tally(0, 0, 0, 0, true)))
  }

  // ----- steps

  /** Thread t has at least n frames. */
  predicate Has(c: Control, t: nat, n: nat) {
    t < |c.stacks| && n <= |c.stacks[t]|
  }

  /** Replaces the top `drop` frames of thread t by `push`. */
  function Put(c: Control, t: nat, drop: nat, push: seq<Frame>): (d: Control)
    requires Has(c, t, drop)
    ensures d.pending == c.pending && d.next == c.next && |d.stacks| == |c.stacks|
  {
    var s := c.stacks[t];
    c.(stacks := c.stacks[t := s[..|s| - drop] + push])
  }

  /** The code uses the tick context or its transaction. */
  function TouchCtx(m: Memory): Memory {
    if m.ctxFreed > 0 || m.trDestroyed > 0 then m.(fault := true) else m
  }

  function TouchFuture(m: Memory, f: nat): Memory {
    if m.destroyed[f] > 0 then m.(fault := true) else m
  }

  function TouchWrapper(m: Memory, f: nat): Memory {
    if m.made[f] <= m.freed[f] then m.(fault := true) else m
  }

  function DestroyFuture(m: Memory, f: nat): Memory {
    m.(destroyed := m.destroyed + multiset{f})
  }

  function MakeWrapper(m: Memory, f: nat): Memory {
    m.(made := m.made + multiset{f})
  }

  function FreeWrapper(m: Memory, f: nat): Memory {
    m.(freed := m.freed + multiset{f})
  }

  function Callback(f: nat, k: Kind): Frame {
    match k
    case Read => OnRead(f)
    case Commit => OnCommit(f)
    case Retry => OnRetry(f)
  }

  /** The frame that waits for the result of a submission of each kind. */
  function Waiter(k: Kind): Frame {
    if k == Read then StartReadRet else CbRet
  }

  /** Obtains a future of the given kind and hands it to submit_future, or fails at once. */
  function Obtain(c: Control, t: nat, kind: Kind, env: Env): Control
    requires Has(c, t, 1)
  {
    if env.created then Put(c.(next := c.next + 1), t, 1, [Waiter(kind), Submit(c.next, kind)])
    else Put(c, t, 1, [Waiter(kind), RetErr(kind)])
  }

  /** No step changes the zone or the count, takes back a done_cb call or a failure, or applies a commit. */
  predicate Follows(r: Run, after: Run) {
    && after.zone == r.zone && after.count == r.count && after.data.tally.given == r.data.tally.given
    && |after.mem.done| >= |r.mem.done| && |after.mem.lost| >= |r.mem.lost|
  }

  /** submit_future, src/fdb_database.c:83-104 */
  function StepSubmit(r: Run, t: nat, f: nat, k: Kind, env: Env): (after: Run)
    requires Has(r.ctl, t, 1)
    ensures Follows(r, after)
  {
    if !env.wrapped then
      r.(ctl := Put(r.ctl, t, 1, [RetErr(k)]), mem := DestroyFuture(r.mem, f))
    else if !env.registered then
      r.(ctl := Put(r.ctl, t, 1, [RetErr(k)]), mem := FreeWrapper(DestroyFuture(MakeWrapper(r.mem, f), f), f))
    else if env.immediate then
      r.(ctl := Put(r.ctl, t, 1, [SubmitRet, FutureCb(f, k)]), mem := MakeWrapper(r.mem, f))
    else
      r.(ctl := Put(r.ctl.(pending := r.ctl.pending[f := k]), t, 1, [Ret]), mem := MakeWrapper(r.mem, f))
  }

  /** zt_start_range_read, src/zf_zonetick.c:48-56 */
  function StepStartRead(r: Run, store: Store, t: nat, env: Env): (after: Run)
    requires Has(r.ctl, t, 1)
    ensures Follows(r, after)
  {
    r.(ctl := Obtain(r.ctl, t, Read, env), mem := TouchCtx(r.mem), data := r.data.(snap := store, phase := Reading))
  }

  /** fdb_handle_error, whose result both callers ignore; src/zf_zonetick.c:77, 120 */
  function StepRecover(r: Run, t: nat, f: nat, kind: Kind, env: Env): (after: Run)
    requires Has(r.ctl, t, 1)
    ensures Follows(r, after)
  {
    r.(ctl := Obtain(r.ctl, t, Retry, env), mem := TouchFuture(TouchCtx(r.mem), f),
       data := r.data.(phase := Recovering, heard := Failed(kind)))
  }

  /** The rows are ticked into the write buffer and the commit is submitted. */
  ghost function Ticked(d: Data, rows: seq<Row>, n: nat, created: bool): Data {
    d.(writes := d.writes + TickWrites(rows, n), pend := d.pend + [RowKeys(rows)],
       phase := Committing, heard := Rows, open := created, landed := false)
  }

  /** zt_on_range_read, src/zf_zonetick.c:71-113 */
  ghost function StepOnRead(r: Run, t: nat, f: nat, env: Env): (after: Run)
    requires Has(r.ctl, t, 1)
    ensures Follows(r, after)
  {
    if env.failed then StepRecover(r, t, f, Read, env)
    else if env.arrayFailed then
      r.(ctl := Put(r.ctl, t, 1, [Finish(false)]), mem := TouchFuture(TouchCtx(r.mem), f),
         data := r.data.(heard := Unreadable))
    else if !IsScan(r.data.snap + r.data.writes, r.zone, env.rows) then r
    else r.(ctl := Obtain(r.ctl, t, Commit, env), mem := TouchFuture(TouchCtx(r.mem), f),
            data := Ticked(r.data, env.rows, r.count, env.created))
  }

  /** zt_on_commit, src/zf_zonetick.c:115-124; a commit that reports success has reached the store. */
  function StepOnCommit(r: Run, t: nat, f: nat, env: Env): (after: Run)
    requires Has(r.ctl, t, 1)
    ensures Follows(r, after)
  {
    if env.failed then StepRecover(r, t, f, Commit, env)
    else if !r.data.landed then r
    else
      r.(ctl := Put(r.ctl, t, 1, [Finish(true)]), mem := TouchFuture(TouchCtx(r.mem), f),
         data := r.data.(heard := Committed))
  }

  /** Once on_error has completed the commit is no longer in flight; a reset empties the write buffer. */
  function Recovered(d: Data, failed: bool, reset: bool): Data {
    d.(phase := Starting, heard := Retried(failed), open := false, landed := false,
       writes := if reset then map[] else d.writes, pend := if reset then [] else d.pend,
       kept := if reset then 0 else |d.pend|,
       tally := d.tally.(unsure := d.tally.unsure + (if d.landed then 1 else 0), allReset := d.tally.allReset && reset))
  }

  /** zt_on_error_retry, src/zf_zonetick.c:61-69: the future's error is not looked at. */
  function StepOnRetry(r: Run, t: nat, env: Env): (after: Run)
    requires Has(r.ctl, t, 1)
    ensures Follows(r, after)
  {
    r.(ctl := Put(r.ctl, t, 1, [CbRet, StartRead]), mem := TouchCtx(r.mem),
      data := Recovered(r.data, env.failed, env.reset))
  }

  /** zt_finish, src/zf_zonetick.c:37-46 */
  function StepFinish(r: Run, t: nat, ok: bool): (after: Run)
    requires Has(r.ctl, t, 1)
    ensures Follows(r, after)
  {
    var m := TouchCtx(r.mem);
    r.(ctl := Put(r.ctl, t, 1, [Ret]), data := r.data.(phase := Over),
       mem := m.(trDestroyed := m.trDestroyed + 1, done := m.done + [ok], ctxFreed := m.ctxFreed + 1))
  }

  /** A call returns to the frame below. */
  function StepReturn(r: Run, t: nat): (after: Run)
    requires Has(r.ctl, t, 1)
    ensures Follows(r, after)
  {
    var s := r.ctl.stacks[t];
    if |s| == 1 then r.(ctl := Put(r.ctl, t, 1, []))
    else
      match s[|s| - 2]
      case StartReadRet => r.(ctl := Put(r.ctl, t, 2, [Ret]))
      case CbRet => r.(ctl := Put(r.ctl, t, 2, [Ret]))
      case SubmitRet => r.(ctl := Put(r.ctl, t, 2, [Ret]))
      case FutureCbRet(f) => r.(ctl := Put(r.ctl, t, 2, [Ret]), mem := FreeWrapper(DestroyFuture(r.mem, f), f))
      case RunRet => r.(ctl := Put(r.ctl, t, 2, [Ret]))
      case _ => r
  }

  /** A failed submission returns: the range read finishes the run, the other two callers ignore it. */
  function StepReturnError(r: Run, t: nat, kind: Kind): (after: Run)
    requires Has(r.ctl, t, 1)
    ensures Follows(r, after)
  {
    var s := r.ctl.stacks[t];
    var told := r.data.(heard := Refused(kind));
    if |s| == 1 then r
    else
      match s[|s| - 2]
      case StartReadRet => r.(ctl := Put(r.ctl, t, 2, [Finish(false)]), data := told)
      case CbRet => r.(ctl := Put(r.ctl, t, 2, [Ret]), mem := r.mem.(lost := r.mem.lost + [kind]), data := told)
      case _ => r
  }

  /** Thread t executes its top frame. */
  ghost function Step(r: Run, store: Store, t: nat, env: Env): (after: Run)
    ensures Follows(r, after)
  {
    if !Has(r.ctl, t, 1) then r
    else
      match r.ctl.stacks[t][|r.ctl.stacks[t]| - 1]
      case StartRead => StepStartRead(r, store, t, env)
      case Submit(f, k) => StepSubmit(r, t, f, k, env)
      case FutureCb(f, k) => r.(ctl := Put(r.ctl, t, 1, [FutureCbRet(f), Callback(f, k)]),
        mem := TouchWrapper(r.mem, f))
      case OnRead(f) => StepOnRead(r, t, f, env)
      case OnCommit(f) => StepOnCommit(r, t, f, env)
      case OnRetry(f) => StepOnRetry(r, t, env)
      case Finish(ok) => StepFinish(r, t, ok)
      case Ret => StepReturn(r, t)
      case RetErr(k) => StepReturnError(r, t, k)
      case _ => r
  }

  /** The library fires a pending callback on a thread of its own. */
  function Fire(r: Run, f: nat): Run {
    if f in r.ctl.pending then
      r.(ctl := Control(r.ctl.stacks + [[FutureCb(f, r.ctl.pending[f])]], r.ctl.pending - {f}, r.ctl.next))
    else r
  }

  /** A submitted commit reaches the store. */
  function Land(r: Run): Run {
    var d := r.data;
    if d.open then
      r.(data := d.(open := false, landed := true, pend := [], kept := 0,
                    tally := d.tally.(lands := d.tally.lands + 1, given := d.tally.given + |d.pend|,
                                      carried := d.tally.carried + d.kept)))
    else r
  }
}
