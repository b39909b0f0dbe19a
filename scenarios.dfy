/** Client code replayed against the contracts of SharedPointers alone. Most
    methods are situations the test suite of the repository checks. Four more
    show failure paths and expired locks: `DeleterOnFailedAllocation`,
    `ResetRawFailureDangles`, `ResetRawFailureEmpties` and `LockExpiredTwice`.
    Each method builds its own objects and reports what a caller observes. */
module Scenarios {
  import opened Protocol
  import opened SharedPointers

  /** A default-constructed pointer counts 0 owners; one built from a null raw
      pointer owns a block (count 1) yet converts to false. */
  method NullRawPointerOwnsBlock() returns (emptyCount: nat, nullCount: nat, nullIsSet: bool)
    ensures emptyCount == 0
    ensures nullCount == 1 && !nullIsSet
  {
    var p := new SharedPtr.Empty();
    emptyCount := p.UseCount();
    var q := new SharedPtr.FromRaw(Null);
    nullCount := q.UseCount();
    nullIsSet := q.IsSet();
  }

  /** Copying shares the block: both handles report two owners and compare equal. */
  method CopyCountsTwo(x: nat) returns (pCount: nat, qCount: nat, equal: bool)
    ensures pCount == 2 && qCount == 2 && equal
  {
    var p := new SharedPtr.FromRaw(Addr(x));
    var q := new SharedPtr.Copy(p);
    assert p.Valid();
    pCount := p.UseCount();
    qCount := q.UseCount();
    equal := Equals(p, q);
  }

  /** Copy and move self-assignment leave the access pointer, the count and the
      payload untouched. */
  method SelfAssignment(x: nat) returns (before: Ptr, after: Ptr, countBefore: nat, countAfter: nat, log: seq<Event>)
    ensures after == before == Addr(x)
    ensures countAfter == countBefore == 1
    ensures log == []
  {
    var p := new SharedPtr.FromRaw(Addr(x));
    before := p.Get();
    countBefore := p.UseCount();
    p.CopyAssign(p);
    p.MoveAssign(p);
    after := p.Get();
    countAfter := p.UseCount();
    log := p.block.log;
  }

  /** Move assignment between two owners: the target's old payload is destroyed,
      the target takes the source's pointer and the source is left empty. */
  method MoveAssignment(x: nat, y: nat) returns (pGet: Ptr, qSet: bool, oldLog: seq<Event>, count: nat)
    ensures pGet == Addr(y) && !qSet && count == 1
    ensures oldLog == [Destroyed(DeleteObject(Addr(x))), Freed]
  {
    var p := new SharedPtr.FromRaw(Addr(x));
    var q := new SharedPtr.FromRaw(Addr(y));
    var b := p.block;
    p.MoveAssign(q);
    pGet := p.Get();
    qSet := q.IsSet();
    oldLog := b.log;
    count := p.UseCount();
  }

  /** A weak pointer whose last owner is gone: the payload was destroyed at the
      reset, the block stays allocated for the weak pointer, `lock` yields an
      empty pointer, and the block is freed when the weak pointer goes. */
  method LockAfterLastRelease(x: nat) returns (logAtLock: seq<Event>, locked: bool, lockedCount: nat, finalLog: seq<Event>)
    ensures logAtLock == [Destroyed(DeleteObject(Addr(x)))]
    ensures !locked && lockedCount == 0
    ensures finalLog == [Destroyed(DeleteObject(Addr(x))), Freed]
  {
    var p := new SharedPtr.FromRaw(Addr(x));
    var b := p.block;
    var w := new WeakPtr.FromShared(p);
    p.Reset();
    logAtLock := b.log;
    var r := w.Lock();
    locked := r.IsSet();
    lockedCount := r.UseCount();
    w.Destroy();
    finalLog := b.log;
  }

  /** Two weak pointers outlive the last owner: a failed `lock` through one
      leaves the other a valid observer, and the block is freed only when the
      second one goes. */
  method LockExpiredTwice(x: nat) returns (firstLocks: bool, secondLocks: bool, logAfterFirst: seq<Event>, finalLog: seq<Event>)
    ensures !firstLocks && !secondLocks
    ensures logAfterFirst == [Destroyed(DeleteObject(Addr(x)))]
    ensures finalLog == [Destroyed(DeleteObject(Addr(x))), Freed]
  {
    var p := new SharedPtr.FromRaw(Addr(x));
    var b := p.block;
    var w1 := new WeakPtr.FromShared(p);
    var w2 := new WeakPtr.FromShared(p);
    p.Reset();
    var r1 := w1.Lock();
    firstLocks := r1.IsSet();
    var r2 := w2.Lock();
    secondLocks := r2.IsSet();
    w1.Destroy();
    logAfterFirst := b.log;
    w2.Destroy();
    finalLog := b.log;
  }

  /** `lock` on a live block yields a pointer equal to the owner, sharing its count. */
  method LockWhileAlive(x: nat) returns (equal: bool, count: nat)
    ensures equal && count == 2
  {
    var p := new SharedPtr.FromRaw(Addr(x));
    var w := new WeakPtr.FromShared(p);
    var r := w.Lock();
    equal := Equals(r, p);
    count := r.UseCount();
  }

  /** Weak copy assignment retargets the observer: it then locks onto the
      second owner's block. */
  method WeakAssignment(x: nat, y: nat) returns (firstLocksToSecond: bool, secondLocksToSecond: bool)
    ensures firstLocksToSecond && secondLocksToSecond
  {
    var p1 := new SharedPtr.FromRaw(Addr(x));
    var q1 := new WeakPtr.FromShared(p1);
    var p2 := new SharedPtr.FromRaw(Addr(y));
    var q2 := new WeakPtr.FromShared(p2);
    q1.CopyAssign(q2);
    var l1 := q1.Lock();
    firstLocksToSecond := Equals(l1, p2);
    var l2 := q2.Lock();
    secondLocksToSecond := Equals(l2, p2);
  }

  /** Weak move assignment: the target observes the source's block and the
      source no longer locks onto anything. */
  method WeakMoveAssignment(x: nat, y: nat) returns (targetLocks: bool, sourceLocks: bool)
    ensures targetLocks && !sourceLocks
  {
    var p1 := new SharedPtr.FromRaw(Addr(x));
    var q1 := new WeakPtr.FromShared(p1);
    var p2 := new SharedPtr.FromRaw(Addr(y));
    var q2 := new WeakPtr.FromShared(p2);
    q1.MoveAssign(q2);
    var l1 := q1.Lock();
    targetLocks := Equals(l1, p2) && l1.IsSet();
    var l2 := q2.Lock();
    sourceLocks := l2.IsSet();
  }

  /** Aliasing: the alias shares the donor's count but exposes its own pointer
      (possibly null); when both are gone the donor's object is deleted exactly
      once, by the donor block's own strategy. */
  method AliasingSharesLifetime(x: nat, al: Ptr) returns (pCount: nat, qCount: nat, qGet: Ptr, finalLog: seq<Event>)
    ensures pCount == 2 && qCount == 2 && qGet == al
    ensures finalLog == [Destroyed(DeleteObject(Addr(x))), Freed]
  {
    var p := new SharedPtr.FromRaw(Addr(x));
    var b := p.block;
    var q := new SharedPtr.Aliasing(p, al);
    assert p.Valid();
    pCount := p.UseCount();
    qCount := q.UseCount();
    qGet := q.Get();
    p.Reset();
    q.Reset();
    finalLog := b.log;
  }

  /** A custom deleter runs exactly once, on the original pointer, and the
      object is not deleted in the ordinary way; the same holds after
      `reset(r, d)`. */
  method CustomDeleterRunsOnce(x: nat, d: Deleter) returns (log: seq<Event>, resetLog: seq<Event>)
    ensures log == [Destroyed(CallDeleter(d, Addr(x))), Freed]
    ensures resetLog == [Destroyed(CallDeleter(d, Addr(x))), Freed]
  {
    var sp, outcome := SharedPtr.NewWithDeleter(Addr(x), d, false);
    var b := sp.block;
    sp.Reset();
    log := b.log;
    var p := new SharedPtr.Empty();
    outcome := p.ResetWithDeleter(Addr(x), d, false);
    var c := p.block;
    p.Reset();
    resetLog := c.log;
  }

  /** A failed allocation in the deleter constructor or in `reset(r, d)` hands
      `r` to the deleter, and leaves the handle empty. */
  method DeleterOnFailedAllocation(x: nat, y: nat, z: nat, d: Deleter)
    returns (ctorOutcome: Outcome, resetOutcome: Outcome, afterReset: Ptr, oldLog: seq<Event>)
    ensures ctorOutcome == Threw([CallDeleter(d, Addr(x))])
    ensures resetOutcome == Threw([CallDeleter(d, Addr(y))]) && afterReset == Null
    ensures oldLog == [Destroyed(DeleteObject(Addr(z))), Freed]
  {
    var sp;
    sp, ctorOutcome := SharedPtr.NewWithDeleter(Addr(x), d, true);
    var p := new SharedPtr.FromRaw(Addr(z));
    var b := p.block;
    resetOutcome := p.ResetWithDeleter(Addr(y), d, true);
    afterReset := p.Get();
    oldLog := b.log;
  }

  /** `make_shared` with a weak observer: when the owner goes the object is
      destroyed in place but the combined block survives until the weak
      pointer goes too. */
  method MakeSharedWithWeak(storage: nat) returns (built: bool, logAfterOwner: seq<Event>, finalLog: seq<Event>)
    ensures built
    ensures logAfterOwner == [Destroyed(DestructInPlace(Addr(storage)))]
    ensures finalLog == [Destroyed(DestructInPlace(Addr(storage))), Freed]
  {
    var w := new WeakPtr.Empty();
    var q, outcome := MakeShared(storage, false);
    built := q != null;
    if q == null {
      return;
    }
    var b := q.block;
    var tmp := new WeakPtr.FromShared(q);
    w.MoveAssign(tmp);
    tmp.Destroy();
    q.Reset();
    logAfterOwner := b.log;
    w.Destroy();
    finalLog := b.log;
  }

  /** `reset(Y *r)` as written, when allocation fails: the handle still names
      its former block, which has already been deleted. */
  method ResetRawFailureDangles(x: nat, y: nat) returns (namesFreedBlock: bool, outcome: Outcome)
    ensures namesFreedBlock
    ensures outcome == Threw([])
  {
    var p := new SharedPtr.FromRaw(Addr(x));
    var b := p.block;
    outcome := p.ResetRawAsWritten(Addr(y), true);
    namesFreedBlock := p.block == b && b.Deleted();
  }

  /** `reset(Y *r)` as intended, when allocation fails: the handle is empty and
      `r` has been deleted. */
  method ResetRawFailureEmpties(x: nat, y: nat) returns (isSet: bool, count: nat, outcome: Outcome)
    ensures !isSet && count == 0
    ensures outcome == Threw([DeleteObject(Addr(y))])
  {
    var p := new SharedPtr.FromRaw(Addr(x));
    outcome := p.ResetRaw(Addr(y), true);
    isSet := p.IsSet();
    count := p.UseCount();
  }

  /** `reset(Y *r)` as written, when allocation succeeds, replaces the payload:
      the old object is deleted and the handle exposes the new one with a
      fresh count. */
  method ResetReplacesPayload(x: nat, y: nat) returns (get: Ptr, count: nat, oldLog: seq<Event>)
    ensures get == Addr(y) && count == 1
    ensures oldLog == [Destroyed(DeleteObject(Addr(x))), Freed]
  {
    var p := new SharedPtr.FromRaw(Addr(x));
    var b := p.block;
    var outcome := p.ResetRawAsWritten(Addr(y), false);
    get := p.Get();
    count := p.UseCount();
    oldLog := b.log;
  }
}
