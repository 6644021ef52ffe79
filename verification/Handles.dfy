/** The reference-counted pointer as a class; each method takes the heap from one pool of handles
    to the pool that its operation in RefCounting gives. */
module Handles {
  import opened RefCounting

  /** A managed object; `destroyed` counts the calls of the destroyer on it. */
  class Resource {
    var destroyed: int

    constructor ()
      ensures destroyed == 0
    {
      destroyed := 0;
    }
  }

  class RefCount {
    var count: int

    constructor (count: int)
      ensures this.count == count
    {
      this.count := count;
    }
  }

  type HeapPool = Pool<RefCountedPointer, Resource, RefCount>

  ghost predicate Linked(h: RefCountedPointer, link: Link<Resource, RefCount>)
    reads h
  {
    match link
    case Null => h.counted == null && h.refs == null
    case Managed(o, refs) => h.counted == o && h.refs == refs
  }

  /** The fields of all live handles, live counts and managed objects are what the pool says. */
  ghost predicate Holds(pool: HeapPool)
    reads pool.links.Keys, pool.counts.Keys, pool.fates.Keys
  {
    && (forall h | h in pool.links :: Linked(h, pool.links[h]))
    && (forall r | r in pool.counts :: r.count == pool.counts[r])
    && (forall o | o in pool.fates :: o.destroyed == pool.fates[o])
  }

  class RefCountedPointer {
    var counted: Resource?
    var refs: RefCount?

    /** What the destructor may write. */
    ghost function Reach(): set<object>
      reads this
    {
      (if counted == null then {} else {counted}) + (if refs == null then {} else {refs})
    }

    /** The default constructor; the one from a raw pointer does the same with a null pointer. */
    constructor Default(ghost pool: HeapPool)
      requires Accounted(pool) && Holds(pool)
      ensures this !in pool.links
      ensures Holds(Blank(pool, this))
    {
      counted, refs := null, null;
    }

    /** Take over a raw pointer that no handle manages or ever managed. */
    constructor Of(c: Resource, ghost pool: HeapPool)
      requires Accounted(pool) && Holds(pool)
      requires c !in pool.fates && c.destroyed == 0
      ensures this !in pool.links
      ensures counted == c && refs != null && refs !in pool.counts && fresh(refs)
      ensures Holds(Adopt(pool, this, c, refs))
    {
      hide Accounted;
      counted := c;
      refs := new RefCount(1);
    }

    constructor Copy(other: RefCountedPointer, ghost pool: HeapPool)
      requires Accounted(pool) && Holds(pool) && other in pool.links
      modifies other.refs
      ensures this !in pool.links && Usable(pool, other)
      ensures counted == other.counted && refs == other.refs
      ensures Holds(CopyOf(pool, this, other))
    {
      hide Accounted;
      AccountedUsable(pool, other);
      counted := other.counted;
      refs := if other.counted != null then other.refs else null;
      new;
      if counted != null {
        refs.count := refs.count + 1;
      }
    }

    /** The destructor. */
    method Destroy(ghost pool: HeapPool)
      requires Accounted(pool) && Holds(pool) && this in pool.links
      modifies Reach()
      ensures Usable(pool, this)
      ensures Holds(Drop(pool, this))
    {
      hide Accounted;
      AccountedUsable(pool, this);
      if refs != null {
        refs.count := refs.count - 1;
        if refs.count == 0 {
          counted.destroyed := counted.destroyed + 1;
        }
      }
    }

    method Swap(other: RefCountedPointer, ghost pool: HeapPool)
      requires Holds(pool) && this in pool.links && other in pool.links
      modifies this, other
      ensures counted == old(other.counted) && refs == old(other.refs)
      ensures other.counted == old(counted) && other.refs == old(refs)
      ensures Holds(Exchange(pool, this, other))
    {
      counted, other.counted := other.counted, counted;
      refs, other.refs := other.refs, refs;
    }

    /** Copy, swap with the copy, and destroy it. */
    method Assign(other: RefCountedPointer, ghost pool: HeapPool) returns (ghost t: RefCountedPointer)
      requires Accounted(pool) && Holds(pool) && this in pool.links && other in pool.links
      modifies this, Reach(), other.refs
      ensures counted == old(other.counted) && refs == old(other.refs)
      ensures fresh(t) && Enabled(pool, Op.Assign(this, other, t))
      ensures Holds(Step(pool, Op.Assign(this, other, t)))
    {
      hide Accounted, CopyOf, Exchange, Drop, Holds;
      var temporary := new RefCountedPointer.Copy(other, pool);
      t := temporary;
      ghost var copied := CopyOf(pool, t, other);
      CopyAccounted(pool, t, other);
      CopyOfParts(pool, t, other);
      ExchangeAccounted(copied, t, this);
      ExchangeKeys(copied, t, this);
      temporary.Swap(this, copied);
      temporary.Destroy(Exchange(copied, t, this));
    }

    method AssignRaw(c: Resource, ghost pool: HeapPool) returns (ghost t: RefCountedPointer)
      requires Accounted(pool) && Holds(pool) && this in pool.links
      requires c !in pool.fates && c.destroyed == 0
      modifies this, Reach()
      ensures counted == c && refs != null && fresh(refs) && fresh(t)
      ensures Enabled(pool, Op.AssignRaw(this, c, refs, t))
      ensures Holds(Step(pool, Op.AssignRaw(this, c, refs, t)))
    {
      hide Accounted, Exchange, Drop, Holds;
      var temporary := new RefCountedPointer.Of(c, pool);
      t := temporary;
      ghost var adopted := Adopt(pool, t, c, temporary.refs);
      AdoptAccounted(pool, t, c, temporary.refs);
      ExchangeAccounted(adopted, t, this);
      ExchangeKeys(adopted, t, this);
      temporary.Swap(this, adopted);
      temporary.Destroy(Exchange(adopted, t, this));
    }
  }
}
