# Reference-counted shared ownership: `shared_ptr`, `weak_ptr`, `make_shared`

This project models the ownership protocol of a small C++ smart-pointer
library (`shared_ptr.h`). Its parts are:

- a control block with a strong count `ref` and a weak count `wref`;
- three control-block shapes that destroy the managed object in different ways:
  - `delete`;
  - a user deleter, skipped for a null object;
  - an in-place destructor for the combined allocation built by `make_shared`;
- the strong handle `shared_ptr`, the pair {block, access pointer}, with
  its constructors, assignments, `reset`, `use_count`, boolean conversion
  and comparisons;
- the weak handle `weak_ptr`, which touches only `wref`, and its `lock`.

The model is in three modules:

- `Protocol` (protocol.dfy) states the protocol on values.
  - `Counts` is the state of one block: both counts, plus the log of its
    destructive side effects (running `destroy`, and `delete this`).
  - `AfterInc`, `AfterDec`, `AfterWinc` and `AfterWdec` are the four count
    operations of `control_block`.
  - `Consistent` says that the log is exactly what the counts imply. So the
    payload has been destroyed once iff `ref` is 0. The block has been freed
    once, and last, iff both counts are 0.
  - Lemmas over arbitrary histories (`Run`) prove these facts. They also
    prove that nothing revives a payload once `ref` is 0, and that the last
    of `n` strong releases, and no earlier one, destroys the payload.
- `SharedPointers` (shared_ptr.dfy) holds the imperative model.
  - `ControlBlock`, `SharedPtr` and `WeakPtr` are classes whose methods
    update `ref`, `wref`, `block` and `ptr` in place, in the source's order.
  - Every count update is tied to the `Protocol` function of the old state.
  - Each block keeps ghost sets of the strong handles (`owners`) and weak
    handles (`observers`) that name it. `Valid()` says:
    - `ref` is the number of strong handles naming the block;
    - `wref` is the number of weak handles naming it;
    - the log agrees with the counts.
  - `SharedPtr` and `WeakPtr` methods keep `Valid()` for the handles and
    blocks their contracts name. They also leave the other handles of the
    same block counted in `owners` and `observers`. Three methods are
    exceptions:
    - `ResetRawAsWritten` models a defect (see "## Findings"). When its
      allocation fails, it deliberately leaves the handle naming a block
      that no longer counts it.
    - The private release helpers `SharedPtr.Release` and `WeakPtr.Release`
      leave `this` naming a block that no longer counts it. Every caller
      then overwrites the handle's fields.
  - The `ControlBlock` count methods (`Inc`, `Dec`, `Winc`, `Wdec`) change a
    count without touching the ghost sets. The handle methods restore
    `Valid()` by pairing each of them with the ghost step that adds, removes
    or transfers the handle (`Adopt`, `Disown`, `HandOver` and their
    observer forms).
- `Scenarios` (scenarios.dfy) replays the situations the repository's test
  suite checks, using only the contracts above. Four further scenarios are
  not in that suite:
  - `DeleterOnFailedAllocation` shows the failure paths of the deleter
    constructor and `reset(r, d)`;
  - `ResetRawFailureDangles` and `ResetRawFailureEmpties` show `reset(r)`
    failing, as written and as corrected;
  - `LockExpiredTwice` shows `lock()` on an expired block with two weak
    pointers.

The access pointer (`T *`) is an opaque value `Ptr = Null | Addr(n)`.
Conversions between pointee types (derived to base, adding `const`) copy
that value. The user deleter is an opaque `Deleter` identity. An allocation
that may fail takes a boolean parameter that says whether it fails. The
outcome `Threw(cleanup)` lists what was done to the raw object before the
failure propagates.

Copy assignment (shared_ptr.h:141-151) always increments the new block and
then decrements the old one, even when both are the same block. The net
effect on the counts is then nil, and `SharedPtr.CopyAssign` proves that.

## Model

| member | source | states |
|---|---|---|
| `Protocol.DestroyAction` | shared_ptr.h:43-79 | `destroy` applies `delete` to the default block's object. It calls the deleter on a custom block's object exactly when that object is non-null, and does nothing otherwise. It runs the in-place destructor for the combined block. It always acts on the object the block was built with. |
| `Protocol.AfterInc` | shared_ptr.h:23 | `inc` adds one strong owner, produces no side effect and keeps the log consistent with the counts |
| `Protocol.AfterDec` | shared_ptr.h:24-32 | `dec` lowers `ref` by one and leaves `wref` alone. Above zero the log is unchanged, so the block stays allocated. At zero exactly one more destruction is logged. The block becomes freed iff `wref` is 0 at that moment. Consistency is preserved. |
| `Protocol.AfterWinc` | shared_ptr.h:35 | `winc` adds one weak observer, produces no side effect and keeps the log consistent |
| `Protocol.AfterWdec` | shared_ptr.h:36 | `wdec` lowers `wref` by one and never destroys the payload. The block becomes freed iff `wref` reaches 0 while `ref` is already 0. |
| `Protocol.ExpectedLogCounts` | shared_ptr.h:24-36 | a consistent log holds one destruction iff `ref` is 0, and one deletion iff both counts are 0 |
| `Protocol.RunKeepsConsistent` | shared_ptr.h:23-36 | every history of `inc`/`dec`/`winc`/`wdec`/`lock`, each performed under the condition the source performs it, keeps the log in step with the counts |
| `Protocol.RunOnlyAppends` | shared_ptr.h:24-36 | a block's side effects are never undone: its log only grows |
| `Protocol.NoRevival` | shared_ptr.h:306-312 | once `ref` is 0, no history (in particular no `lock`) makes it positive again |
| `Protocol.LifetimeFromCreation` | shared_ptr.h:15-36 | from creation (`ref = 1, wref = 0`), whatever happens, the payload has been destroyed exactly once iff `ref` is 0. It is untouched while `ref > 0`. The block has been freed exactly once iff both counts are 0, and only after the destruction. |
| `Protocol.DestroyedAtLastRelease` | shared_ptr.h:24-32 | releasing the `n` owners of a live block one by one leaves the payload alive through the first `n - 1` releases. The last release destroys it, and also frees the block iff no weak observer remains. |
| `Protocol.DestroysAppend` | shared_ptr.h:24-36 | helper for the `dec`/`wdec` lemmas, not a property of the source: counting destructions and deletions distributes over concatenated logs |
| `Protocol.StepKeepsConsistent` | shared_ptr.h:23-36 | each single count operation (or `lock`), performed under the condition the source performs it, keeps the log consistent with the counts |
| `Protocol.NotFreedWhileReferenced` | shared_ptr.h:24-36 | a consistent block that a strong owner or weak observer still counts has not been freed. While `ref > 0` its payload has not been destroyed either. |
| `SharedPointers.ControlBlock.constructor` | shared_ptr.h:15-16 | a new block has `ref = 1`, `wref = 0`, an empty log, and the shape it was created as |
| `SharedPointers.ControlBlock.Inc` | shared_ptr.h:23 | the block's new counts are `AfterInc` of the old ones |
| `SharedPointers.ControlBlock.Dec` | shared_ptr.h:24-32 | the block's new counts and log are `AfterDec` of the old ones: it destroys, then deletes itself if `wref == 0` |
| `SharedPointers.ControlBlock.Winc` | shared_ptr.h:35 | the block's new counts are `AfterWinc` of the old ones |
| `SharedPointers.ControlBlock.Wdec` | shared_ptr.h:36 | the block's new counts and log are `AfterWdec` of the old ones |
| `SharedPointers.ControlBlock.UseCount` | shared_ptr.h:33 | on a valid block, the count returned is the number of strong handles naming the block |
| `SharedPointers.ControlBlock.Destroy` | shared_ptr.h:40 | the virtual `destroy` logs exactly the shape's `DestroyAction` |
| `SharedPointers.ControlBlock.Delete` | shared_ptr.h:31 | `delete this` logs the block's deletion |
| `SharedPointers.SharedPtr.Empty` | shared_ptr.h:102-103 | default and `nullptr` construction hold no block and a null access pointer |
| `SharedPointers.SharedPtr.FromRaw` | shared_ptr.h:104-105 | construction from a raw pointer, null or not, creates a fresh default block owning it, with this handle as its sole owner |
| `SharedPointers.SharedPtr.FromBlock` | shared_ptr.h:98 | the private constructor adopts a strong share already counted in the block, without incrementing |
| `SharedPointers.SharedPtr.NewWithDeleter` | shared_ptr.h:108-115 | with allocation, a fresh custom block owns `p` with this deleter. If allocation fails, no handle is built, the deleter is applied to `p` (even a null `p`) and the failure propagates. |
| `SharedPointers.SharedPtr.Copy` | shared_ptr.h:116-119 | the copy shares the source's block and access pointer. The block's count goes up by one (if there is a block) and both handles are valid. |
| `SharedPointers.SharedPtr.Aliasing` | shared_ptr.h:106-107 | the alias shares the donor's block and its count goes up by one, but it exposes the supplied access pointer (possibly null). The block's shape, and so its deletion strategy, is unchanged. |
| `SharedPointers.SharedPtr.Move` | shared_ptr.h:120-122 | the new handle takes the source's block and pointer, the source becomes {null, null}, and no count changes |
| `SharedPointers.SharedPtr.Release` | shared_ptr.h:96 | the private `dec()` applies `AfterDec` to the handle's block, if there is one, and this handle stops being counted |
| `SharedPointers.SharedPtr.CopyAssign` | shared_ptr.h:140-151 | the target takes the source's block and pointer. With the same block (including `p = p`) counts and log are unchanged, so nothing is destroyed. Otherwise the new block gets `AfterInc` and the old one `AfterDec`. Both handles stay valid. |
| `SharedPointers.SharedPtr.MoveAssign` | shared_ptr.h:124-138 | with the same block (including self-move) only `ptr` is copied and no count changes. Otherwise the old block gets `AfterDec`, the target takes the source's pair with no count change, and the source becomes {null, null}. |
| `SharedPointers.SharedPtr.Destroy` | shared_ptr.h:160-163 | the destructor applies `AfterDec` to the handle's block, if there is one |
| `SharedPointers.SharedPtr.Reset` | shared_ptr.h:175-180 | `reset()` applies `AfterDec` to the old block and leaves the handle {null, null} |
| `SharedPointers.SharedPtr.ResetRawAsWritten` | shared_ptr.h:181-187 | `reset(r)` as written. It releases the old block, then takes a fresh default block owning `r`. If allocation fails, the handle still names the released block and `r` is not disposed of. |
| `SharedPointers.SharedPtr.ResetRaw` | shared_ptr.h:181-187 | `reset(r)` as evidently intended. It releases the old block and takes a fresh default block owning `r`. If allocation fails, the handle is left {null, null} and `r` is deleted. |
| `SharedPointers.SharedPtr.ResetWithDeleter` | shared_ptr.h:188-204 | `reset(r, d)` releases the old block and empties the handle before allocating. If allocation succeeds, a fresh custom block owns `r`. If it fails, the handle stays {null, null}, the deleter is applied to `r` and the failure propagates. |
| `SharedPointers.SharedPtr.Get` | shared_ptr.h:166 | `get()` returns the access pointer the handle stores, not the block's object. For an alias the two differ (`Scenarios.AliasingSharesLifetime`). |
| `SharedPointers.SharedPtr.IsSet` | shared_ptr.h:168 | `operator bool` is true iff `get()` is non-null, whatever the block. A handle that owns a null pointer converts to false (`Scenarios.NullRawPointerOwnsBlock`). |
| `SharedPointers.SharedPtr.UseCount` | shared_ptr.h:169-174 | `use_count()` is 0 iff the handle has no block. Otherwise it is the number of strong handles naming the block, this one included. |
| `SharedPointers.EqualsRaw` | shared_ptr.h:208-211 | comparing with a raw pointer looks only at the access pointer, so equal values agree on emptiness |
| `SharedPointers.Equals` | shared_ptr.h:212-213 | two shared pointers are equal iff the first equals the second's access pointer. Equal pointers agree on emptiness, whatever their blocks. |
| `SharedPointers.EqualsNull` | shared_ptr.h:214-217 | `p == nullptr` (either order) holds iff `p` converts to false (shared_ptr.h:168) |
| `SharedPointers.OwnedBlockIsLive` | shared_ptr.h:24-32 | a block named by a valid strong handle has `use_count() >= 1`, its payload has not been destroyed and it has not been freed |
| `SharedPointers.ObservedBlockNotFreed` | shared_ptr.h:35-36 | a block named by a valid weak handle has not been freed. Its payload has been destroyed iff its strong count is 0. |
| `SharedPointers.MakeShared` | shared_ptr.h:230-235 | `make_shared` creates one fresh in-place block whose sole owner exposes the embedded object. If allocation or construction fails, nothing is destroyed and the failure propagates. |
| `SharedPointers.WeakPtr.Empty` | shared_ptr.h:246-247 | default and `nullptr` construction hold no block |
| `SharedPointers.WeakPtr.FromShared` | shared_ptr.h:248-255 | observing a shared pointer shares its block and pointer and applies `AfterWinc`. Strong owners are unchanged. |
| `SharedPointers.WeakPtr.Copy` | shared_ptr.h:256-259 | the weak copy shares the block and pointer and applies `AfterWinc` |
| `SharedPointers.WeakPtr.Move` | shared_ptr.h:260-262 | the weak move takes the source's pair, empties the source, and changes no count |
| `SharedPointers.WeakPtr.Release` | shared_ptr.h:244 | the private `wdec()` applies `AfterWdec` to the handle's block, if there is one |
| `SharedPointers.WeakPtr.CopyAssign` | shared_ptr.h:280-291 | `winc` on the new block comes before `wdec` on the old. With the same block (including `q = q`) nothing changes. Otherwise the blocks get `AfterWinc` and `AfterWdec`. |
| `SharedPointers.WeakPtr.MoveAssign` | shared_ptr.h:264-278 | with the same block only `ptr` is copied. Otherwise the old block gets `AfterWdec`, the target takes the source's pair, and the source becomes {null, null}. |
| `SharedPointers.WeakPtr.Destroy` | shared_ptr.h:300-304 | the destructor applies `AfterWdec` to the handle's block, if there is one |
| `SharedPointers.WeakPtr.Lock` | shared_ptr.h:306-312 | with no block or a zero strong count, `lock()` returns an empty pointer and changes nothing. Otherwise it applies `AfterInc` and returns a new owner of the same block with the same access pointer. |
| `Scenarios.NullRawPointerOwnsBlock` | main.cpp:57-70 | an empty pointer counts 0. A pointer built from a null raw pointer counts 1 and converts to false. |
| `Scenarios.CopyCountsTwo` | main.cpp:81-93 | after a copy both handles count 2 and compare equal |
| `Scenarios.SelfAssignment` | main.cpp:212-218 | `p = p` (main.cpp:212-218) and `p = std::move(p)` (main.cpp:266-272) keep `get()` and `use_count()` and destroy nothing |
| `Scenarios.MoveAssignment` | main.cpp:227-235 | move assignment destroys and frees the target's old payload, takes the source's pointer and empties the source |
| `Scenarios.LockAfterLastRelease` | main.cpp:291-300 | after the last owner resets, the object has been destroyed and `lock()` yields an empty pointer. The block is freed only when the weak pointer goes. |
| `Scenarios.LockExpiredTwice` | shared_ptr.h:306-312 | two weak pointers outlive the last owner. A failed `lock()` through either one leaves the other a valid observer. The block is freed only when the second weak pointer goes. |
| `Scenarios.LockWhileAlive` | main.cpp:281-289 | `lock()` on a live block yields a pointer equal to the owner, with count 2 |
| `Scenarios.WeakAssignment` | main.cpp:338-350 | after `q1 = q2` both weak pointers lock onto the second owner |
| `Scenarios.WeakMoveAssignment` | main.cpp:410-422 | after `q1 = std::move(q2)` the target locks onto the second owner and the source locks onto nothing |
| `Scenarios.AliasingSharesLifetime` | main.cpp:521-539 | alias and donor both count 2, and the alias exposes its own pointer. Once both are gone the donor's object has been deleted exactly once and the block freed. |
| `Scenarios.CustomDeleterRunsOnce` | main.cpp:482-501 | through the constructor and through `reset(r, d)`, the deleter runs once on the original pointer, the object is never deleted by the default strategy, and the block is freed |
| `Scenarios.DeleterOnFailedAllocation` | shared_ptr.h:108-115 | a failed allocation hands the raw pointer to the deleter, in the constructor and in `reset(r, d)`. After `reset` the handle is empty and its old payload has been released. |
| `Scenarios.MakeSharedWithWeak` | main.cpp:510-519 | when the owner of a `make_shared` object goes, the object is destroyed in place. The combined block is freed only when the weak pointer goes. |
| `Scenarios.ResetRawFailureDangles` | shared_ptr.h:181-187 | as written, a failed `reset(r)` on a sole owner leaves the handle naming a block that has already been deleted |
| `Scenarios.ResetRawFailureEmpties` | shared_ptr.h:181-187 | as intended, a failed `reset(r)` leaves the handle empty with count 0, and `r` deleted |
| `Scenarios.ResetReplacesPayload` | main.cpp:128-135 | `reset(r)` as written (`ResetRawAsWritten`) with a successful allocation deletes the old object, frees its block, and exposes `r` with count 1 |

## Findings

| source | as written | input that shows it | evidently intended | confidence | as-written member | corrected member |
|---|---|---|---|---|---|---|
| shared_ptr.h:181-187 | `reset(Y *r)` runs `dec()` and then `block = new default_control_block<Y>(r)`, with no `try`. If that allocation throws, `block` keeps its old value and `r` is never deleted. | A handle `p` is the sole owner of block `b`, and `p.reset(r)` fails to allocate. `b` is destroyed and deleted, yet `p.block == b`, so `p`'s destructor will run `dec` on freed memory (`Scenarios.ResetRawFailureDangles`). | Do what `reset(r, d)` (shared_ptr.h:188-204) does: empty the handle before allocating, then dispose of `r` and rethrow. | medium; not executed | `SharedPointers.SharedPtr.ResetRawAsWritten` | `SharedPointers.SharedPtr.ResetRaw` |

## Left out

- Counts are unbounded `nat`. The `std::size_t` counters could only wrap after 2^64 live handles, which the model does not represent.
- SharedPointers.SharedPtr.FromRaw: always succeeds. The source constructor is `noexcept`, so a failing block allocation calls `std::terminate`, and the model has no outcome for that.
- SharedPointers.ControlBlock.Inc: requires `ref > 0`, although `inc` has no guard. Every caller reaches it through a live strong handle or after `lock` has seen a non-zero count.
- Template conversions (`Y` to `T`, derived to base, adding `const`) and `std::forward` are not modelled. One `Copy`, `Move`, `CopyAssign` and `MoveAssign` stand for all the overloads and `operator=` forms, and they copy the same access value.
- `operator*` and `operator->` are not modelled; `Get` returns the access pointer. Dereferencing an empty pointer is undefined behaviour in the source.
- Every `operator!=` overload (shared_ptr.h:219-228) is the negation of the matching `operator==`, and a caller writes `operator!=` as `!Equals(…)`, `!EqualsRaw(…)` or `!EqualsNull(…)`.
- Assigning a `shared_ptr` to a `weak_ptr` goes through the converting constructor and then move assignment, as in C++. The model has no separate member for it.
- After a destructor (`Destroy`), the handle object no longer exists in C++. The model leaves it detached as {null, null}.
- A freed block remains a Dafny object whose log ends with its deletion. Memory reuse is not modelled.
- Object values are not modelled: `make_shared`'s constructor arguments, the value stored in the object, or comparing a `make_shared` object with one built directly. The address of the embedded object is a parameter (`storage`).
- SharedPointers.ControlBlock.Dec: `destroy` runs as one uninterrupted step. The model does not cover a destructor or deleter that releases a handle of the block being destroyed. Example: a payload holding the only `weak_ptr` to its own block. In the source, that handle's `wdec` (shared_ptr.h:36) deletes the block inside `destroy()`. `dec` then reads `wref` of freed memory and may delete the block again (shared_ptr.h:29-31).
- Exceptions thrown by `destroy`, by a deleter or by an object destructor are not modelled, and neither is a throwing move of the deleter. The source assumes that move cannot throw (shared_ptr.h:59).
- Byte storage, `aligned_storage`, placement `new`, `reinterpret_cast` and virtual dispatch are not modelled. The three block shapes are the closed datatype `Kind`, and `destroy` is `DestroyAction`.
- Thread safety is not modelled, because the source counts are plain integers.
- main.cpp's test harness, `test_object.h` and `main()` are not part of this model. `Scenarios` restates some of their expectations.
