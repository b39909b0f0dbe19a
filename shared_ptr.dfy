/** Control blocks and the two handle types, as objects updated in place.

    A `ControlBlock` holds the two counts and the log of what it has
    destroyed; its `kind` stands for the derived class it was created as.
    A `SharedPtr` or `WeakPtr` is the pair {block, ptr}. Each block also
    keeps, as ghost state, the set of strong handles (`owners`) and weak
    handles (`observers`) whose `block` field names it; `Valid()` says that
    the counts are the sizes of those sets and that the log agrees with the
    counts, so a block is never freed while a handle names it. */
module SharedPointers {
  import opened Protocol

  class ControlBlock {
    var ref: nat
    var wref: nat
    const kind: Kind
    /** What `destroy` and `delete this` have done so far. */
    var log: seq<Event>
    ghost var owners: set<SharedPtr>
    ghost var observers: set<WeakPtr>

    function State(): Counts
      reads this
    {
      Counts(ref, wref, log)
    }

    /** The block is sound except that `pending` of its strong shares belong
        to a handle that has not been built yet. */
    ghost predicate Owes(pending: nat)
      reads this, owners, observers
    {
      && Consistent(kind, State())
      && ref == |owners| + pending
      && wref == |observers|
      && (forall o :: o in owners ==> o.block == this)
      && (forall w :: w in observers ==> w.block == this)
    }

    ghost predicate Valid()
      reads this, owners, observers
    {
      Owes(0)
    }

    predicate Deleted()
      reads this
    {
      IsFreed(State())
    }

    /** A new block of the given shape, owned by the handle about to be built. */
    constructor (k: Kind)
      ensures kind == k && State() == Fresh
      ensures owners == {} && observers == {}
      ensures Owes(1)
    {
      ref := 1;
      wref := 0;
      kind := k;
      log := [];
      owners := {};
      observers := {};
    }

    method Inc()
      requires ref > 0
      modifies this`ref
      ensures State() == AfterInc(old(State()))
    {
      ref := ref + 1;
    }

    method Dec()
      requires ref > 0
      modifies this`ref, this`log
      ensures State() == AfterDec(kind, old(State()))
    {
      ref := ref - 1;
      if ref != 0 {
        return;
      }
      Destroy();
      if wref == 0 {
        Delete();
      }
    }

    method Winc()
      requires ref > 0 || wref > 0
      modifies this`wref
      ensures State() == AfterWinc(old(State()))
    {
      wref := wref + 1;
    }

    method Wdec()
      requires wref > 0
      modifies this`wref, this`log
      ensures State() == AfterWdec(old(State()))
    {
      wref := wref - 1;
      if wref == 0 && ref == 0 {
        Delete();
      }
    }

    /** Ghost bookkeeping: `h` now holds the strong share just counted. */
    ghost method Adopt(h: SharedPtr)
      requires Owes(1) && h.block == this && h !in owners
      modifies this`owners
      ensures owners == old(owners) + {h}
      ensures Valid()
    {
      owners := owners + {h};
    }

    /** Ghost bookkeeping: `h` has just given up its strong share. */
    ghost method Disown(h: SharedPtr)
      requires h in owners && Consistent(kind, State())
      requires ref + 1 == |owners| && wref == |observers|
      requires forall o :: o in owners && o != h ==> o.block == this
      requires forall w :: w in observers ==> w.block == this
      modifies this`owners
      ensures owners == old(owners) - {h}
      ensures Valid()
    {
      owners := owners - {h};
    }

    /** Ghost bookkeeping: the strong share of `from` has moved to `to`. */
    ghost method HandOver(from: SharedPtr, to: SharedPtr)
      requires from in owners && to !in owners && to.block == this
      requires Consistent(kind, State())
      requires ref == |owners| && wref == |observers|
      requires forall o :: o in owners && o != from ==> o.block == this
      requires forall w :: w in observers ==> w.block == this
      modifies this`owners
      ensures owners == old(owners) - {from} + {to}
      ensures Valid()
    {
      owners := owners - {from} + {to};
    }

    /** Ghost bookkeeping: `h` now holds the weak share just counted. */
    ghost method AdoptObserver(h: WeakPtr)
      requires Consistent(kind, State())
      requires ref == |owners| && wref == |observers| + 1
      requires forall o :: o in owners ==> o.block == this
      requires forall w :: w in observers ==> w.block == this
      requires h.block == this && h !in observers
      modifies this`observers
      ensures observers == old(observers) + {h}
      ensures Valid()
    {
      observers := observers + {h};
    }

    /** Ghost bookkeeping: `h` has just given up its weak share. */
    ghost method DisownObserver(h: WeakPtr)
      requires h in observers && Consistent(kind, State())
      requires ref == |owners| && wref + 1 == |observers|
      requires forall o :: o in owners ==> o.block == this
      requires forall w :: w in observers && w != h ==> w.block == this
      modifies this`observers
      ensures observers == old(observers) - {h}
      ensures Valid()
    {
      observers := observers - {h};
    }

    /** Ghost bookkeeping: the weak share of `from` has moved to `to`. */
    ghost method HandOverObserver(from: WeakPtr, to: WeakPtr)
      requires from in observers && to !in observers && to.block == this
      requires Consistent(kind, State())
      requires ref == |owners| && wref == |observers|
      requires forall o :: o in owners ==> o.block == this
      requires forall w :: w in observers && w != from ==> w.block == this
      modifies this`observers
      ensures observers == old(observers) - {from} + {to}
      ensures Valid()
    {
      observers := observers - {from} + {to};
    }

    function UseCount(): (n: nat)
      reads this, owners, observers
      ensures Valid() ==> n == |owners|
    {
      ref
    }

    /** The shape's `destroy` override. */
    method Destroy()
      modifies this`log
      ensures log == old(log) + [Destroyed(DestroyAction(kind))]
    {
      log := log + [Destroyed(DestroyAction(kind))];
    }

    /** `delete this`. */
    method Delete()
      modifies this`log
      ensures log == old(log) + [Freed]
    {
      log := log + [Freed];
    }
  }

  class SharedPtr {
    var block: ControlBlock?
    var ptr: Ptr

    ghost predicate Valid()
      reads this, block
      reads if block == null then {} else block.owners
      reads if block == null then {} else block.observers
    {
      block != null ==> this in block.owners && block.Valid()
    }

    /** `shared_ptr()` and `shared_ptr(nullptr)`: no block at all. */
    constructor Empty()
      ensures block == null && ptr == Null
      ensures Valid()
    {
      block := null;
      ptr := Null;
    }

    /** `shared_ptr(Y *ptr)`: a default block owning `p`, even when `p` is null. */
    constructor FromRaw(p: Ptr)
      ensures fresh(block) && block.kind == Default(p) && block.State() == Fresh
      ensures block.owners == {this} && block.observers == {}
      ensures ptr == p
      ensures Valid()
    {
      block := new ControlBlock(Default(p));
      ptr := p;
      new;
      block.Adopt(this);
    }

    /** The private `shared_ptr(block, ptr)`: adopts a strong share that the
        caller has already counted in `b`. */
    constructor FromBlock(b: ControlBlock, p: Ptr)
      requires b.Owes(1)
      modifies b`owners
      ensures block == b && ptr == p
      ensures b.owners == old(b.owners) + {this}
      ensures Valid()
    {
      block := b;
      ptr := p;
      new;
      b.Adopt(this);
    }

    /** `shared_ptr(Y *ptr, D deleter)`: a custom block owning `p`; when the
        block cannot be allocated, the deleter is applied to `p` (null or not)
        and the failure propagates. */
    static method NewWithDeleter(p: Ptr, d: Deleter, allocFails: bool) returns (sp: SharedPtr?, outcome: Outcome)
      ensures outcome == if allocFails then Threw([CallDeleter(d, p)]) else Completed
      ensures sp == null <==> allocFails
      ensures sp != null ==>
        && fresh(sp) && fresh(sp.block) && sp.Valid()
        && sp.block.kind == Custom(p, d) && sp.block.State() == Fresh
        && sp.block.owners == {sp} && sp.block.observers == {}
        && sp.ptr == p
    {
      if allocFails {
        return null, Threw([CallDeleter(d, p)]);
      }
      var b := new ControlBlock(Custom(p, d));
      sp := new SharedPtr.FromBlock(b, p);
      outcome := Completed;
    }

    /** The copy constructors (also across convertible types). */
    constructor Copy(r: SharedPtr)
      requires r.Valid()
      modifies r.block
      ensures block == r.block && ptr == r.ptr
      ensures Valid() && r.Valid()
      ensures block != null ==>
        && block.State() == AfterInc(old(r.block.State()))
        && block.owners == old(r.block.owners) + {this}
        && block.observers == old(r.block.observers)
    {
      block := r.block;
      ptr := r.ptr;
      new;
      if block != null {
        block.Inc();
        block.Adopt(this);
      }
    }

    /** The aliasing constructor: shares `s`'s block, exposes `al`. */
    constructor Aliasing(s: SharedPtr, al: Ptr)
      requires s.Valid()
      modifies s.block
      ensures block == s.block && ptr == al
      ensures Valid() && s.Valid()
      ensures block != null ==>
        && block.State() == AfterInc(old(s.block.State()))
        && block.owners == old(s.block.owners) + {this}
        && block.observers == old(s.block.observers)
    {
      block := s.block;
      ptr := al;
      new;
      if block != null {
        block.Inc();
        block.Adopt(this);
      }
    }

    /** The move constructors: take over `r`'s share, leave `r` empty. */
    constructor Move(r: SharedPtr)
      requires r.Valid()
      modifies r, r.block
      ensures block == old(r.block) && ptr == old(r.ptr)
      ensures r.block == null && r.ptr == Null
      ensures Valid() && r.Valid()
      ensures block != null ==>
        && block.State() == old(r.block.State())
        && block.owners == old(r.block.owners) - {r} + {this}
        && block.observers == old(r.block.observers)
    {
      block := r.block;
      ptr := r.ptr;
      new;
      r.block := null;
      r.ptr := Null;
      if block != null {
        block.HandOver(r, this);
      }
    }

    /** The private `dec()`: gives up this handle's strong share. The fields are
        left as they are; every caller overwrites them next. */
    method Release()
      requires Valid()
      modifies block
      ensures block != null ==>
        && block.State() == AfterDec(block.kind, old(block.State()))
        && block.owners == old(block.owners) - {this}
        && block.observers == old(block.observers)
        && block.Valid()
    {
      if block != null {
        block.Dec();
        block.Disown(this);
      }
    }

    /** Copy assignment: take the new share before giving up the old one. */
    method CopyAssign(r: SharedPtr)
      requires Valid() && r.Valid()
      modifies this, block, r.block
      ensures block == old(r.block) && ptr == old(r.ptr)
      ensures r.block == old(r.block) && r.ptr == old(r.ptr)
      ensures Valid() && r.Valid()
      ensures old(block) == old(r.block) && block != null ==>
        && block.State() == old(block.State())
        && block.owners == old(block.owners)
        && block.observers == old(block.observers)
      ensures old(block) != old(r.block) && old(block) != null ==>
        && old(block).State() == AfterDec(old(block).kind, old(block.State()))
        && old(block).owners == old(block.owners) - {this}
        && old(block).observers == old(block.observers)
        && old(block).Valid()
      ensures old(block) != old(r.block) && block != null ==>
        && block.State() == AfterInc(old(r.block.State()))
        && block.owners == old(r.block.owners) + {this}
        && block.observers == old(r.block.observers)
    {
      var prev := block;
      assert r.block != null && r.block != prev ==> this !in r.block.owners;
      block := r.block;
      if block != null {
        block.Inc();
        if block != prev {
          block.Adopt(this);
        }
      }
      ptr := r.ptr;
      if prev != null {
        prev.Dec();
        if prev != block {
          prev.Disown(this);
        }
      }
    }

    /** Move assignment: between handles of one block only `ptr` is copied and
        no count changes (this covers self-move); otherwise the old share is
        given up and `r`'s share is taken over, leaving `r` empty. */
    method MoveAssign(r: SharedPtr)
      requires Valid() && r.Valid()
      modifies this, block, r, r.block
      ensures Valid() && r.Valid()
      ensures old(block) == old(r.block) ==>
        && block == old(block) && ptr == old(r.ptr)
        && r.block == old(r.block) && r.ptr == old(r.ptr)
        && (block != null ==>
              && block.State() == old(block.State())
              && block.owners == old(block.owners)
              && block.observers == old(block.observers))
      ensures old(block) != old(r.block) ==>
        && block == old(r.block) && ptr == old(r.ptr)
        && r.block == null && r.ptr == Null
        && (block != null ==>
              && block.State() == old(r.block.State())
              && block.owners == old(r.block.owners) - {r} + {this}
              && block.observers == old(r.block.observers))
      ensures old(block) != old(r.block) && old(block) != null ==>
        && old(block).State() == AfterDec(old(block).kind, old(block.State()))
        && old(block).owners == old(block.owners) - {this}
        && old(block).observers == old(block.observers)
        && old(block).Valid()
    {
      if block == r.block {
        ptr := r.ptr;
        return;
      }
      assert r.block != null ==> this !in r.block.owners && r in r.block.owners;
      Release();
      block := r.block;
      ptr := r.ptr;
      r.block := null;
      r.ptr := Null;
      if block != null {
        block.HandOver(r, this);
      }
    }

    /** `~shared_ptr()`: gives up the strong share; the model then detaches
        the handle, which no longer exists in the source. */
    method Destroy()
      requires Valid()
      modifies this, block
      ensures block == null && ptr == Null
      ensures Valid()
      ensures old(block) != null ==>
        && old(block).State() == AfterDec(old(block).kind, old(block.State()))
        && old(block).owners == old(block.owners) - {this}
        && old(block).observers == old(block.observers)
        && old(block).Valid()
    {
      Release();
      block := null;
      ptr := Null;
    }

    /** `reset()`: gives up the strong share and empties the handle. */
    method Reset()
      requires Valid()
      modifies this, block
      ensures block == null && ptr == Null
      ensures Valid()
      ensures old(block) != null ==>
        && old(block).State() == AfterDec(old(block).kind, old(block.State()))
        && old(block).owners == old(block.owners) - {this}
        && old(block).observers == old(block.observers)
        && old(block).Valid()
    {
      Release();
      block := null;
      ptr := Null;
    }

    /** `reset(Y *r)` exactly as written: the old share is given up first, and
        when allocating the new block fails the handle keeps naming the old
        block, whose count no longer includes it, and `r` is not disposed of. */
    method ResetRawAsWritten(r: Ptr, allocFails: bool) returns (outcome: Outcome)
      requires Valid()
      modifies this, block
      ensures outcome == if allocFails then Threw([]) else Completed
      ensures old(block) != null ==>
        && old(block).State() == AfterDec(old(block).kind, old(block.State()))
        && old(block).owners == old(block.owners) - {this}
        && old(block).observers == old(block.observers)
        && old(block).Valid()
      ensures allocFails ==> block == old(block) && ptr == old(ptr)
      ensures allocFails && block != null ==> this !in block.owners
      ensures !allocFails ==>
        && fresh(block) && block.kind == Default(r) && block.State() == Fresh
        && block.owners == {this} && block.observers == {}
        && ptr == r && Valid()
    {
      Release();
      if allocFails {
        return Threw([]);
      }
      block := new ControlBlock(Default(r));
      ptr := r;
      block.Adopt(this);
      outcome := Completed;
    }

    /** `reset(Y *r)` as evidently intended, following `reset(r, d)`: the
        handle is emptied before the allocation, and when the allocation fails
        `r` is deleted before the failure propagates. */
    method ResetRaw(r: Ptr, allocFails: bool) returns (outcome: Outcome)
      requires Valid()
      modifies this, block
      ensures Valid()
      ensures outcome == if allocFails then Threw([DeleteObject(r)]) else Completed
      ensures old(block) != null ==>
        && old(block).State() == AfterDec(old(block).kind, old(block.State()))
        && old(block).owners == old(block.owners) - {this}
        && old(block).observers == old(block.observers)
        && old(block).Valid()
      ensures allocFails ==> block == null && ptr == Null
      ensures !allocFails ==>
        && fresh(block) && block.kind == Default(r) && block.State() == Fresh
        && block.owners == {this} && block.observers == {}
        && ptr == r
    {
      Release();
      block := null;
      ptr := Null;
      if allocFails {
        return Threw([DeleteObject(r)]);
      }
      block := new ControlBlock(Default(r));
      ptr := r;
      block.Adopt(this);
      outcome := Completed;
    }

    /** `reset(Y *r, D deleter)`: the old share is given up and the handle
        emptied first, so a failed allocation leaves it empty, after the
        deleter has been applied to `r` (null or not). */
    method ResetWithDeleter(r: Ptr, d: Deleter, allocFails: bool) returns (outcome: Outcome)
      requires Valid()
      modifies this, block
      ensures Valid()
      ensures outcome == if allocFails then Threw([CallDeleter(d, r)]) else Completed
      ensures old(block) != null ==>
        && old(block).State() == AfterDec(old(block).kind, old(block.State()))
        && old(block).owners == old(block.owners) - {this}
        && old(block).observers == old(block.observers)
        && old(block).Valid()
      ensures allocFails ==> block == null && ptr == Null
      ensures !allocFails ==>
        && fresh(block) && block.kind == Custom(r, d) && block.State() == Fresh
        && block.owners == {this} && block.observers == {}
        && ptr == r
    {
      Release();
      block := null;
      ptr := Null;
      if allocFails {
        return Threw([CallDeleter(d, r)]);
      }
      block := new ControlBlock(Custom(r, d));
      ptr := r;
      block.Adopt(this);
      outcome := Completed;
    }

    /** `get()`: the access pointer this handle exposes, which for an alias
        is not the object its block owns. */
    function Get(): (p: Ptr)
      reads this
      ensures p == ptr
    {
      ptr
    }

    /** `operator bool`: true exactly when `get()` is not null, whether or not
        the handle owns a block. */
    predicate IsSet(): (b: bool)
      reads this
      ensures b <==> Get() != Null
    {
      ptr != Null
    }

    /** `use_count()`: the number of strong handles sharing this one's block,
        zero when there is no block. */
    function UseCount(): (n: nat)
      requires Valid()
      reads this, block
      reads if block == null then {} else block.owners
      reads if block == null then {} else block.observers
      ensures n == 0 <==> block == null
      ensures block != null ==> n == |block.owners| && this in block.owners
    {
      if block == null then 0 else block.UseCount()
    }
  }

  /** `operator==` between a shared pointer and a raw pointer, in either order. */
  predicate EqualsRaw(t: SharedPtr, y: Ptr): (b: bool)
    reads t
    ensures b ==> (t.IsSet() <==> y != Null)
  {
    t.Get() == y
  }

  /** `operator==` between two shared pointers: compares access pointers only. */
  predicate Equals(t: SharedPtr, u: SharedPtr): (b: bool)
    reads t, u
    ensures b ==> (t.IsSet() <==> u.IsSet())
    ensures b <==> EqualsRaw(t, u.Get())
  {
    t.Get() == u.Get()
  }

  /** `operator==` against `nullptr`, in either order. */
  predicate EqualsNull(t: SharedPtr): (b: bool)
    reads t
    ensures b <==> !t.IsSet()
    ensures b <==> EqualsRaw(t, Null)
  {
    t.Get() == Null
  }

  /** A block named by a valid strong handle is live: its payload has not been
      destroyed and the block has not been freed. */
  lemma OwnedBlockIsLive(p: SharedPtr)
    requires p.Valid() && p.block != null
    ensures p.block.UseCount() >= 1
    ensures p.block.log == [] && !p.block.Deleted()
  {
    assert p in p.block.owners;
    assert |p.block.owners| >= 1;
  }

  /** A block named by a valid weak handle has not been freed, although its
      payload may already be destroyed. */
  lemma ObservedBlockNotFreed(w: WeakPtr)
    requires w.Valid() && w.block != null
    ensures !w.block.Deleted()
    ensures w.block.UseCount() == 0 <==> Destroys(w.block.log) == 1
  {
    assert w in w.block.observers;
    assert |w.block.observers| >= 1;
    ExpectedLogCounts(w.block.kind, w.block.ref, w.block.wref);
  }

  /** `make_shared`: one allocation holds the block and the object, which is
      built at `storage` inside it. When allocation or the object's constructor
      throws, nothing is destroyed and the failure propagates. */
  method MakeShared(storage: nat, fails: bool) returns (sp: SharedPtr?, outcome: Outcome)
    ensures outcome == if fails then Threw([]) else Completed
    ensures sp == null <==> fails
    ensures sp != null ==>
      && fresh(sp) && fresh(sp.block) && sp.Valid()
      && sp.block.kind == InPlace(Addr(storage)) && sp.block.State() == Fresh
      && sp.block.owners == {sp} && sp.block.observers == {}
      && sp.ptr == Addr(storage)
  {
    if fails {
      return null, Threw([]);
    }
    var cb := new ControlBlock(InPlace(Addr(storage)));
    sp := new SharedPtr.FromBlock(cb, Addr(storage));
    outcome := Completed;
  }

  class WeakPtr {
    var block: ControlBlock?
    var ptr: Ptr

    ghost predicate Valid()
      reads this, block
      reads if block == null then {} else block.owners
      reads if block == null then {} else block.observers
    {
      block != null ==> this in block.observers && block.Valid()
    }

    /** `weak_ptr()` and `weak_ptr(nullptr)`. */
    constructor Empty()
      ensures block == null && ptr == Null
      ensures Valid()
    {
      block := null;
      ptr := Null;
    }

    /** `weak_ptr(const shared_ptr<Y> &)`: observes `t`'s block. */
    constructor FromShared(t: SharedPtr)
      requires t.Valid()
      modifies t.block
      ensures block == t.block && ptr == t.ptr
      ensures Valid() && t.Valid()
      ensures block != null ==>
        && block.State() == AfterWinc(old(t.block.State()))
        && block.observers == old(t.block.observers) + {this}
        && block.owners == old(t.block.owners)
    {
      block := t.block;
      ptr := t.ptr;
      new;
      if block != null {
        block.Winc();
        block.AdoptObserver(this);
      }
    }

    /** The copy constructors. */
    constructor Copy(r: WeakPtr)
      requires r.Valid()
      modifies r.block
      ensures block == r.block && ptr == r.ptr
      ensures Valid() && r.Valid()
      ensures block != null ==>
        && block.State() == AfterWinc(old(r.block.State()))
        && block.observers == old(r.block.observers) + {this}
        && block.owners == old(r.block.owners)
    {
      block := r.block;
      ptr := r.ptr;
      new;
      if block != null {
        block.Winc();
        block.AdoptObserver(this);
      }
    }

    /** The move constructors: take over `r`'s observation, leave `r` empty. */
    constructor Move(r: WeakPtr)
      requires r.Valid()
      modifies r, r.block
      ensures block == old(r.block) && ptr == old(r.ptr)
      ensures r.block == null && r.ptr == Null
      ensures Valid() && r.Valid()
      ensures block != null ==>
        && block.State() == old(r.block.State())
        && block.observers == old(r.block.observers) - {r} + {this}
        && block.owners == old(r.block.owners)
    {
      block := r.block;
      ptr := r.ptr;
      new;
      r.block := null;
      r.ptr := Null;
      if block != null {
        block.HandOverObserver(r, this);
      }
    }

    /** The private `wdec()`: gives up this handle's weak share. */
    method Release()
      requires Valid()
      modifies block
      ensures block != null ==>
        && block.State() == AfterWdec(old(block.State()))
        && block.observers == old(block.observers) - {this}
        && block.owners == old(block.owners)
        && block.Valid()
    {
      if block != null {
        block.Wdec();
        block.DisownObserver(this);
      }
    }

    /** Copy assignment: take the new weak share before giving up the old one. */
    method CopyAssign(r: WeakPtr)
      requires Valid() && r.Valid()
      modifies this, block, r.block
      ensures block == old(r.block) && ptr == old(r.ptr)
      ensures r.block == old(r.block) && r.ptr == old(r.ptr)
      ensures Valid() && r.Valid()
      ensures old(block) == old(r.block) && block != null ==>
        && block.State() == old(block.State())
        && block.observers == old(block.observers)
        && block.owners == old(block.owners)
      ensures old(block) != old(r.block) && old(block) != null ==>
        && old(block).State() == AfterWdec(old(block.State()))
        && old(block).observers == old(block.observers) - {this}
        && old(block).owners == old(block.owners)
        && old(block).Valid()
      ensures old(block) != old(r.block) && block != null ==>
        && block.State() == AfterWinc(old(r.block.State()))
        && block.observers == old(r.block.observers) + {this}
        && block.owners == old(r.block.owners)
    {
      var prev := block;
      assert r.block != null && r.block != prev ==> this !in r.block.observers;
      block := r.block;
      if block != null {
        block.Winc();
        if block != prev {
          block.AdoptObserver(this);
        }
      }
      ptr := r.ptr;
      if prev != null {
        prev.Wdec();
        if prev != block {
          prev.DisownObserver(this);
        }
      }
    }

    /** Move assignment, with the same same-block shortcut as the strong one. */
    method MoveAssign(r: WeakPtr)
      requires Valid() && r.Valid()
      modifies this, block, r, r.block
      ensures Valid() && r.Valid()
      ensures old(block) == old(r.block) ==>
        && block == old(block) && ptr == old(r.ptr)
        && r.block == old(r.block) && r.ptr == old(r.ptr)
        && (block != null ==>
              && block.State() == old(block.State())
              && block.observers == old(block.observers)
              && block.owners == old(block.owners))
      ensures old(block) != old(r.block) ==>
        && block == old(r.block) && ptr == old(r.ptr)
        && r.block == null && r.ptr == Null
        && (block != null ==>
              && block.State() == old(r.block.State())
              && block.observers == old(r.block.observers) - {r} + {this}
              && block.owners == old(r.block.owners))
      ensures old(block) != old(r.block) && old(block) != null ==>
        && old(block).State() == AfterWdec(old(block.State()))
        && old(block).observers == old(block.observers) - {this}
        && old(block).owners == old(block.owners)
        && old(block).Valid()
    {
      if block == r.block {
        ptr := r.ptr;
        return;
      }
      assert r.block != null ==> this !in r.block.observers && r in r.block.observers;
      Release();
      block := r.block;
      ptr := r.ptr;
      r.block := null;
      r.ptr := Null;
      if block != null {
        block.HandOverObserver(r, this);
      }
    }

    /** `~weak_ptr()`: gives up the weak share; the model then detaches the
        handle, which no longer exists in the source. */
    method Destroy()
      requires Valid()
      modifies this, block
      ensures block == null && ptr == Null
      ensures Valid()
      ensures old(block) != null ==>
        && old(block).State() == AfterWdec(old(block.State()))
        && old(block).observers == old(block.observers) - {this}
        && old(block).owners == old(block.owners)
        && old(block).Valid()
    {
      Release();
      block := null;
      ptr := Null;
    }

    /** `lock()`: an empty shared pointer when there is no block or its strong
        count is zero; otherwise one more strong share of the same block,
        exposing the same access pointer. */
    method Lock() returns (s: SharedPtr)
      requires Valid()
      modifies block
      ensures fresh(s) && s.Valid() && Valid()
      ensures old(block) == null || old(block.ref) == 0 ==>
        && s.block == null && s.ptr == Null
        && (block != null ==>
              && block.State() == old(block.State())
              && block.owners == old(block.owners)
              && block.observers == old(block.observers))
      ensures block != null && old(block.ref) > 0 ==>
        && s.block == block && s.ptr == ptr
        && block.State() == AfterInc(old(block.State()))
        && block.owners == old(block.owners) + {s}
        && block.observers == old(block.observers)
    {
      if block == null || block.UseCount() == 0 {
        s := new SharedPtr.Empty();
        return;
      }
      block.Inc();
      s := new SharedPtr.FromBlock(block, ptr);
    }
  }
}
