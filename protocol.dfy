/** The bookkeeping protocol of one control block, stated on values.

    A control block carries a strong count `ref` and a weak count `wref`.
    Its only destructive side effects are running the payload's `destroy`
    and deleting the block itself; the model records them, in order, in a
    log. `Consistent` says that the log is exactly what the counts imply,
    which is the heart of the protocol: the payload is destroyed once, when
    `ref` is 0, and the block is freed once, after that, when both counts
    are 0. The class-based model in shared_ptr.dfy ties every count update
    of a `ControlBlock` to the functions defined here. */
module Protocol {

  /** An access pointer (a `T *`): only its identity is observable. */
  datatype Ptr = Null | Addr(address: nat)

  /** A user-supplied deletion callable, known only by its identity. */
  datatype Deleter = Deleter(id: nat)

  /** The three concrete control blocks; the shape is fixed at creation. */
  datatype Kind =
    | Default(obj: Ptr)                  // default_control_block: owns `obj`, frees it with `delete`
    | Custom(obj: Ptr, deleter: Deleter) // regular_control_block: hands `obj` to the deleter
    | InPlace(obj: Ptr)                  // inplace_control_block: `obj` lives inside the block

  /** What one run of `destroy` does to the managed object. */
  datatype Action =
    | DeleteObject(target: Ptr)
    | CallDeleter(deleter: Deleter, target: Ptr)
    | SkipNull
    | DestructInPlace(target: Ptr)

  /** A destructive side effect of a control block. */
  datatype Event = Destroyed(action: Action) | Freed

  /** The outcome of an operation that allocates a control block: either it
      completed, or allocation (or construction) threw, after the listed
      clean-up actions were applied to the raw object. */
  datatype Outcome = Completed | Threw(cleanup: seq<Action>)

  /** The observable state of one control block. */
  datatype Counts = Counts(ref: nat, wref: nat, log: seq<Event>)

  /** A freshly allocated block: one strong owner, no weak observer, nothing done yet. */
  const Fresh: Counts := Counts(1, 0, [])

  /** The payload destruction of each block shape: `delete obj` for the default
      block, the deleter for a non-null object of a custom block (nothing for a
      null one), the in-place destructor for the combined block. */
  function DestroyAction(k: Kind): (a: Action)
    ensures a.SkipNull? <==> k.Custom? && k.obj == Null
    ensures !a.SkipNull? ==> a.target == k.obj
    ensures a.CallDeleter? <==> k.Custom? && k.obj != Null
    ensures a.CallDeleter? ==> a.deleter == k.deleter
    ensures a.DeleteObject? <==> k.Default?
    ensures a.DestructInPlace? <==> k.InPlace?
  {
    match k
    case Default(obj) => DeleteObject(obj)
    case Custom(obj, d) => if obj == Null then SkipNull else CallDeleter(d, obj)
    case InPlace(obj) => DestructInPlace(obj)
  }

  /** The log a block of shape `k` has produced once its counts are `ref` and `wref`. */
  function ExpectedLog(k: Kind, ref: nat, wref: nat): seq<Event>
  {
    (if ref == 0 then [Destroyed(DestroyAction(k))] else [])
    + (if ref == 0 && wref == 0 then [Freed] else [])
  }

  predicate Consistent(k: Kind, c: Counts)
  {
    c.log == ExpectedLog(k, c.ref, c.wref)
  }

  /** Has the block been deleted? */
  predicate IsFreed(c: Counts)
  {
    Freed in c.log
  }

  /** Number of payload destructions in a log. */
  function Destroys(log: seq<Event>): nat
  {
    if log == [] then 0 else (if log[0].Destroyed? then 1 else 0) + Destroys(log[1..])
  }

  /** Number of block deletions in a log. */
  function Frees(log: seq<Event>): nat
  {
    if log == [] then 0 else (if log[0] == Freed then 1 else 0) + Frees(log[1..])
  }

  // ---------------------------------------------------------------------
  // The four count operations of control_block

  /** `inc`: one more strong owner. It is only reached through a live owner
      or through `lock` after it has seen a non-zero count. */
  function AfterInc(c: Counts): (d: Counts)
    requires c.ref > 0
    ensures d.ref == c.ref + 1 && d.wref == c.wref && d.log == c.log
    ensures forall k :: Consistent(k, c) ==> Consistent(k, d)
  {
    c.(ref := c.ref + 1)
  }

  /** `dec`: one strong owner fewer; at zero the payload is destroyed, and the
      block is deleted as well when no weak observer remains. */
  function AfterDec(k: Kind, c: Counts): (d: Counts)
    requires c.ref > 0
    ensures d.ref == c.ref - 1 && d.wref == c.wref
    ensures Consistent(k, c) ==> Consistent(k, d)
    ensures d.ref > 0 ==> d.log == c.log
    ensures d.ref == 0 ==> Destroys(d.log) == Destroys(c.log) + 1
    ensures IsFreed(d) <==> IsFreed(c) || (d.ref == 0 && c.wref == 0)
  {
    var r := c.ref - 1;
    if r != 0 then c.(ref := r)
    else
      var extra := ExpectedLog(k, 0, c.wref);
      DestroysAppend(c.log, extra);
      ExpectedLogCounts(k, 0, c.wref);
      c.(ref := r, log := c.log + extra)
  }

  /** `winc`: one more weak observer of a block that is still allocated. */
  function AfterWinc(c: Counts): (d: Counts)
    requires c.ref > 0 || c.wref > 0
    ensures d.ref == c.ref && d.wref == c.wref + 1 && d.log == c.log
    ensures forall k :: Consistent(k, c) ==> Consistent(k, d)
  {
    c.(wref := c.wref + 1)
  }

  /** `wdec`: one weak observer fewer; the block is deleted when this was the
      last weak observer and no strong owner remains. */
  function AfterWdec(c: Counts): (d: Counts)
    requires c.wref > 0
    ensures d.ref == c.ref && d.wref == c.wref - 1
    ensures forall k :: Consistent(k, c) ==> Consistent(k, d)
    ensures Destroys(d.log) == Destroys(c.log)
    ensures IsFreed(d) <==> IsFreed(c) || (d.wref == 0 && c.ref == 0)
  {
    var w := c.wref - 1;
    if w == 0 && c.ref == 0 then
      DestroysAppend(c.log, [Freed]);
      c.(wref := w, log := c.log + [Freed])
    else c.(wref := w)
  }

  // ---------------------------------------------------------------------
  // Histories of a block

  /** Every way a handle can touch a block. `Lock` is `weak_ptr::lock`: it takes
      a strong share only when the strong count is not yet zero. */
  datatype Op = Inc | Dec | Winc | Wdec | Lock

  /** The precondition under which the source performs each operation: a strong
      owner exists for `Inc` and `Dec`, a handle of either kind exists for `Winc`
      and `Lock`, a weak observer exists for `Wdec`. */
  predicate Enabled(c: Counts, op: Op)
  {
    match op
    case Inc => c.ref > 0
    case Dec => c.ref > 0
    case Winc => c.ref > 0 || c.wref > 0
    case Wdec => c.wref > 0
    case Lock => c.ref > 0 || c.wref > 0
  }

  function Step(k: Kind, c: Counts, op: Op): Counts
    requires Enabled(c, op)
  {
    match op
    case Inc => AfterInc(c)
    case Dec => AfterDec(k, c)
    case Winc => AfterWinc(c)
    case Wdec => AfterWdec(c)
    case Lock => if c.ref == 0 then c else AfterInc(c)
  }

  /** Can the operations be performed one after the other, starting from `c`? */
  predicate ValidRun(k: Kind, c: Counts, ops: seq<Op>)
    decreases |ops|
  {
    ops == [] || (Enabled(c, ops[0]) && ValidRun(k, Step(k, c, ops[0]), ops[1..]))
  }

  function Run(k: Kind, c: Counts, ops: seq<Op>): Counts
    requires ValidRun(k, c, ops)
    decreases |ops|
  {
    if ops == [] then c else Run(k, Step(k, c, ops[0]), ops[1..])
  }

  /** `n` strong releases in a row. */
  function Releases(k: Kind, c: Counts, n: nat): Counts
    requires n <= c.ref
    decreases n
  {
    if n == 0 then c else Releases(k, AfterDec(k, c), n - 1)
  }

  // ---------------------------------------------------------------------
  // Lemmas

  lemma {:induction false} DestroysAppend(a: seq<Event>, b: seq<Event>)
    ensures Destroys(a + b) == Destroys(a) + Destroys(b)
    ensures Frees(a + b) == Frees(a) + Frees(b)
    decreases |a|
  {
    if a != [] {
      assert (a + b)[1..] == a[1..] + b;
      DestroysAppend(a[1..], b);
    } else {
      assert a + b == b;
    }
  }

  /** The log implied by the counts holds one destruction exactly when the
      strong count is zero, and one deletion, placed last, exactly when both
      counts are zero. */
  lemma ExpectedLogCounts(k: Kind, ref: nat, wref: nat)
    ensures Destroys(ExpectedLog(k, ref, wref)) == (if ref == 0 then 1 else 0)
    ensures Frees(ExpectedLog(k, ref, wref)) == (if ref == 0 && wref == 0 then 1 else 0)
  {
    var a: seq<Event> := if ref == 0 then [Destroyed(DestroyAction(k))] else [];
    var b: seq<Event> := if ref == 0 && wref == 0 then [Freed] else [];
    DestroysAppend(a, b);
    if a != [] { assert a[1..] == []; }
    if b != [] { assert b[1..] == []; }
  }

  /** Each single operation keeps the log in step with the counts. */
  lemma StepKeepsConsistent(k: Kind, c: Counts, op: Op)
    requires Consistent(k, c) && Enabled(c, op)
    ensures Consistent(k, Step(k, c, op))
  {
  }

  /** Any history of a block keeps the log in step with the counts. */
  lemma {:induction false} RunKeepsConsistent(k: Kind, c: Counts, ops: seq<Op>)
    requires Consistent(k, c) && ValidRun(k, c, ops)
    ensures Consistent(k, Run(k, c, ops))
    decreases |ops|
  {
    if ops != [] {
      StepKeepsConsistent(k, c, ops[0]);
      RunKeepsConsistent(k, Step(k, c, ops[0]), ops[1..]);
    }
  }

  /** Side effects are never undone: the log of a block only grows. */
  lemma {:induction false} RunOnlyAppends(k: Kind, c: Counts, ops: seq<Op>)
    requires ValidRun(k, c, ops)
    ensures c.log <= Run(k, c, ops).log
    decreases |ops|
  {
    if ops != [] {
      RunOnlyAppends(k, Step(k, c, ops[0]), ops[1..]);
    }
  }

  /** Once the strong count has reached zero no history raises it again:
      neither `lock` nor anything else revives a destroyed payload. */
  lemma {:induction false} NoRevival(k: Kind, c: Counts, ops: seq<Op>)
    requires c.ref == 0 && ValidRun(k, c, ops)
    ensures Run(k, c, ops).ref == 0
    decreases |ops|
  {
    if ops != [] {
      NoRevival(k, Step(k, c, ops[0]), ops[1..]);
    }
  }

  /** Whatever a block goes through after its creation, its payload has been
      destroyed exactly once if the strong count is zero and never otherwise;
      the block has been freed exactly once if both counts are zero and never
      otherwise, and its deletion is the last thing that happened to it. */
  lemma LifetimeFromCreation(k: Kind, ops: seq<Op>)
    requires ValidRun(k, Fresh, ops)
    ensures var d := Run(k, Fresh, ops);
      && Destroys(d.log) == (if d.ref == 0 then 1 else 0)
      && Frees(d.log) == (if d.ref == 0 && d.wref == 0 then 1 else 0)
      && (d.ref > 0 ==> d.log == [])
      && (IsFreed(d) ==> d.log == [Destroyed(DestroyAction(k)), Freed])
  {
    RunKeepsConsistent(k, Fresh, ops);
    var d := Run(k, Fresh, ops);
    ExpectedLogCounts(k, d.ref, d.wref);
  }

  /** Releasing the `n` strong owners of a live block one by one leaves the
      payload alive through the first `n - 1` releases and destroys it at the
      last one, which also frees the block when no weak observer remains. */
  lemma {:induction false} DestroyedAtLastRelease(k: Kind, c: Counts, n: nat)
    requires Consistent(k, c) && n <= c.ref
    ensures Releases(k, c, n).ref == c.ref - n && Releases(k, c, n).wref == c.wref
    ensures n < c.ref ==> Releases(k, c, n).log == c.log
    ensures 0 < n == c.ref ==>
      Releases(k, c, n).log == [Destroyed(DestroyAction(k))] + (if c.wref == 0 then [Freed] else [])
    decreases n
  {
    if n > 0 {
      DestroyedAtLastRelease(k, AfterDec(k, c), n - 1);
    }
  }

  /** A block that some strong owner or weak observer still refers to has not
      been freed. */
  lemma NotFreedWhileReferenced(k: Kind, c: Counts)
    requires Consistent(k, c) && (c.ref > 0 || c.wref > 0)
    ensures !IsFreed(c)
    ensures c.ref > 0 ==> c.log == []
  {
  }
}
