/** `DxPtr<T>`: an intrusive reference-counting handle over a COM-style object.
    The object's count is a real field; which handles hold it, and how many
    references are held outside any handle (the one a factory returns, an
    explicit `AddRef`), are ghost bookkeeping that `Valid()` ties to the count. */
module Ownership {

  /** An object with `AddRef`/`Release`, as `DXCFileBlob` implements them:
      created with a count of one, deleted when `Release` brings it to zero. */
  class RefCounted {
    var refCount: nat
    ghost var deleted: bool
    ghost var holders: set<DxPtr>
    ghost var unowned: nat

    /** The count is the number of live non-null handles on the object plus the
        references held outside handles; it reaches zero exactly on deletion. */
    ghost predicate Valid()
      reads this, holders
    {
      && refCount == |holders| + unowned
      && (deleted <==> refCount == 0)
      && forall h :: h in holders ==> h.ptr == this
    }

    /** A factory's result: one reference, owned by the caller, in no handle yet. */
    constructor ()
      ensures Valid() && refCount == 1 && holders == {} && unowned == 1 && !deleted
    {
      refCount := 1;
      deleted := false;
      holders := {};
      unowned := 1;
    }

    method AddRef()
      requires !deleted
      modifies this
      ensures refCount == old(refCount) + 1 && !deleted
      ensures holders == old(holders) && unowned == old(unowned)
    {
      refCount := refCount + 1;
    }

    /** An explicit `AddRef()` by code that keeps the new reference itself,
        outside any handle (`device->AddRef()` before wrapping the pointer). */
    method AddUnownedRef()
      requires Valid() && !deleted
      modifies this
      ensures Valid() && !deleted
      ensures refCount == old(refCount) + 1 && unowned == old(unowned) + 1 && holders == old(holders)
    {
      AddRef();
      unowned := unowned + 1;
    }

    /** A handle gives up its reference without releasing it: the reference is
        now held outside any handle, by whoever took it from the handle. */
    ghost method Disown(h: DxPtr)
      requires Valid() && h in holders
      modifies this
      ensures Valid() && refCount == old(refCount) && deleted == old(deleted)
      ensures holders == old(holders) - {h} && unowned == old(unowned) + 1
    {
      holders := holders - {h};
      unowned := unowned + 1;
    }

    /** A handle that now points here takes over a reference held outside any handle. */
    ghost method TakeOver(h: DxPtr)
      requires Valid() && unowned > 0 && h !in holders && h.ptr == this
      modifies this
      ensures Valid() && refCount == old(refCount) && deleted == old(deleted)
      ensures holders == old(holders) + {h} && unowned == old(unowned) - 1
    {
      holders := holders + {h};
      unowned := unowned - 1;
    }

    /** `Release()` of a reference held outside any handle. */
    method ReleaseUnowned()
      requires Valid() && unowned > 0
      modifies this
      ensures Valid()
      ensures refCount == old(refCount) - 1 && holders == old(holders) && unowned == old(unowned) - 1
      ensures deleted <==> refCount == 0
    {
      Release();
      unowned := unowned - 1;
    }

    /** Only a live reference can be released, so the count never goes below zero. */
    method Release()
      requires refCount > 0 && !deleted
      modifies this
      ensures refCount == old(refCount) - 1
      ensures deleted == (refCount == 0)
      ensures holders == old(holders) && unowned == old(unowned)
    {
      refCount := refCount - 1;
      if refCount == 0 {
        deleted := true;
      }
    }
  }

  class DxPtr {
    var ptr: RefCounted?

    /** A non-null handle is one of its target's holders, and the target is consistent. */
    ghost predicate Valid()
      reads this, ptr, if ptr != null then ptr.holders else {}
    {
      ptr != null ==> this in ptr.holders && ptr.Valid()
    }

    /** `DxPtr()`: the null handle. */
    constructor Empty()
      ensures Valid() && ptr == null
    {
      ptr := null;
    }

    /** `DxPtr(T* ptr)`: takes over a reference the caller already holds and
        does not add one. */
    constructor Adopt(p: RefCounted?)
      requires p != null ==> p.Valid() && p.unowned > 0
      modifies p
      ensures Valid() && ptr == p
      ensures p != null ==>
                p.refCount == old(p.refCount) && p.holders == old(p.holders) + {this} &&
                p.unowned == old(p.unowned) - 1 && !p.deleted
    {
      ptr := p;
      new;
      if p != null {
        p.holders := p.holders + {this};
        p.unowned := p.unowned - 1;
      }
    }

    /** `DxPtr(const DxPtr& rhs)`: shares the target and adds a reference to it. */
    constructor Copy(rhs: DxPtr)
      requires rhs.Valid()
      modifies rhs.ptr
      ensures Valid() && rhs.Valid() && ptr == rhs.ptr
      ensures ptr != null ==>
                ptr.refCount == old(rhs.ptr.refCount) + 1 && ptr.holders == old(rhs.ptr.holders) + {this} &&
                ptr.unowned == old(rhs.ptr.unowned)
    {
      ptr := rhs.ptr;
      new;
      if ptr != null {
        ptr.AddRef();
        ptr.holders := ptr.holders + {this};
      }
    }

    /** `operator=(const DxPtr& rhs)`: the new target gains a reference before
        the old one loses its, so assigning a handle to one with the same target
        (itself included) changes no count and never deletes the object. */
    method Assign(rhs: DxPtr)
      requires Valid() && rhs.Valid()
      modifies this, ptr, rhs.ptr
      ensures Valid() && rhs.Valid() && ptr == old(rhs.ptr)
      ensures old(ptr) == old(rhs.ptr) && ptr != null ==>
                ptr.refCount == old(ptr.refCount) && ptr.holders == old(ptr.holders) &&
                ptr.unowned == old(ptr.unowned) && !ptr.deleted
      ensures old(ptr) != old(rhs.ptr) && ptr != null ==>
                ptr.refCount == old(rhs.ptr.refCount) + 1 && ptr.holders == old(rhs.ptr.holders) + {this} &&
                ptr.unowned == old(rhs.ptr.unowned)
      ensures old(ptr) != old(rhs.ptr) && old(ptr) != null ==>
                old(ptr).refCount == old(ptr.refCount) - 1 &&
                old(ptr).holders == old(ptr.holders) - {this} &&
                old(ptr).unowned == old(ptr.unowned) &&
                (old(ptr).deleted <==> old(ptr.holders) == {this} && old(ptr.unowned) == 0) &&
                old(ptr).Valid()
    {
      if ptr == rhs.ptr {
        AssignSameTarget(rhs);
      } else {
        AssignNewTarget(rhs);
      }
    }

    /** `operator=` when both handles have the same target: the extra
        reference is taken and given back, and the holders stay as they were. */
    method AssignSameTarget(rhs: DxPtr)
      requires Valid() && rhs.Valid() && ptr == rhs.ptr
      modifies this, ptr
      ensures Valid() && rhs.Valid() && ptr == old(ptr)
      ensures ptr != null ==>
                ptr.refCount == old(ptr.refCount) && ptr.holders == old(ptr.holders) &&
                ptr.unowned == old(ptr.unowned) && !ptr.deleted
    {
      var p := ptr;
      var q := rhs.ptr;
      if q != null {
        q.AddUnownedRef();
      }
      ptr := q;
      if p != null {
        p.ReleaseUnowned();
      }
    }

    /** `operator=` onto a different target: this handle becomes a holder of
        the new target, and the reference it held on the old one is released. */
    method AssignNewTarget(rhs: DxPtr)
      requires Valid() && rhs.Valid() && ptr != rhs.ptr
      modifies this, ptr, rhs.ptr
      ensures Valid() && rhs.Valid() && ptr == old(rhs.ptr)
      ensures ptr != null ==>
                ptr.refCount == old(rhs.ptr.refCount) + 1 && ptr.holders == old(rhs.ptr.holders) + {this} &&
                ptr.unowned == old(rhs.ptr.unowned)
      ensures old(ptr) != null ==>
                old(ptr).refCount == old(ptr.refCount) - 1 &&
                old(ptr).holders == old(ptr.holders) - {this} &&
                old(ptr).unowned == old(ptr.unowned) &&
                (old(ptr).deleted <==> old(ptr.holders) == {this} && old(ptr.unowned) == 0) &&
                old(ptr).Valid()
    {
      var p := ptr;
      var q := rhs.ptr;
      if q != null {
        q.AddUnownedRef();
      }
      if p != null {
        p.Disown(this);
      }
      ptr := q;
      if q != null {
        q.TakeOver(this);
      }
      if p != null {
        p.ReleaseUnowned();
      }
    }

    /** `~DxPtr()`: releases exactly one reference if non-null; the handle then
        holds nothing. The target is deleted exactly when this was its last owner. */
    method Destroy()
      requires Valid()
      modifies this, ptr
      ensures ptr == null
      ensures old(ptr) != null ==>
                old(ptr).refCount == old(ptr.refCount) - 1 &&
                old(ptr).holders == old(ptr.holders) - {this} &&
                old(ptr).unowned == old(ptr.unowned) &&
                (old(ptr).deleted <==> old(ptr.holders) == {this} && old(ptr.unowned) == 0) &&
                old(ptr).Valid()
    {
      var p := ptr;
      ptr := null;
      if p != null {
        p.Release();
        p.holders := p.holders - {this};
      }
    }
  }
}
