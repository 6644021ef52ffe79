/** MySQL++'s reference-counted pointer: what any run of its operations does to the handles, the
    shared counts and the managed objects. */
module RefCounting {
  /** What one handle refers to. */
  datatype Link<O, R> = Null | Managed(object': O, refs: R)

  /** All live handles, the live counts, and how often each object ever managed was destroyed. */
  datatype Pool<!H, !O, !R> = Pool(links: map<H, Link<O, R>>, counts: map<R, int>, fates: map<O, int>)

  ghost function Sharers<H, O, R>(links: map<H, Link<O, R>>, refs: R): set<H> {
    set h | h in links && links[h].Managed? && links[h].refs == refs
  }

  ghost predicate Held<H, O, R>(links: map<H, Link<O, R>>, o: O) {
    exists h :: h in links && links[h].Managed? && links[h].object' == o
  }

  // ---------- the operations ----------

  /** The constructor from a raw pointer. */
  function Adopt<H, O, R>(pool: Pool<H, O, R>, h: H, o: O, refs: R): Pool<H, O, R> {
    Pool(pool.links[h := Managed(o, refs)], pool.counts[refs := 1], pool.fates[o := 0])
  }

  function Blank<H, O, R>(pool: Pool<H, O, R>, h: H): Pool<H, O, R> {
    pool.(links := pool.links[h := Null])
  }

  ghost predicate Usable<H, O, R>(pool: Pool<H, O, R>, h: H) {
    && h in pool.links
    && (pool.links[h].Managed? ==> pool.links[h].refs in pool.counts && pool.links[h].object' in pool.fates)
  }

  ghost function CopyOf<H, O, R>(pool: Pool<H, O, R>, h: H, other: H): Pool<H, O, R>
    requires Usable(pool, other)
  {
    match pool.links[other]
    case Null => Blank(pool, h)
    case Managed(o, refs) =>
      pool.(links := pool.links[h := Managed(o, refs)], counts := pool.counts[refs := pool.counts[refs] + 1])
  }

  /** The destructor: the last handle destroys the object and deletes the count. */
  ghost function Drop<H, O, R>(pool: Pool<H, O, R>, h: H): Pool<H, O, R>
    requires Usable(pool, h)
  {
    var links := pool.links - {h};
    match pool.links[h]
    case Null => pool.(links := links)
    case Managed(o, refs) =>
      if pool.counts[refs] - 1 == 0 then Pool(links, pool.counts - {refs}, pool.fates[o := pool.fates[o] + 1])
      else Pool(links, pool.counts[refs := pool.counts[refs] - 1], pool.fates)
  }

  function Exchange<H, O, R>(pool: Pool<H, O, R>, g: H, h: H): Pool<H, O, R>
    requires g in pool.links && h in pool.links
  {
    pool.(links := pool.links[g := pool.links[h]][h := pool.links[g]])
  }

  // ---------- the invariant ----------

  /** Every live count is the number of handles that share it and is not zero; handles share a
      count exactly when they share an object; an object ever managed is intact while it is held,
      and was destroyed once when it is not. */
  ghost predicate Accounted<H, O, R>(pool: Pool<H, O, R>) {
    && (forall h | h in pool.links :: Usable(pool, h))
    && (forall g, h | g in pool.links && h in pool.links && pool.links[g].Managed? && pool.links[h].Managed? ::
          pool.links[g].refs == pool.links[h].refs <==> pool.links[g].object' == pool.links[h].object')
    && (forall r | r in pool.counts :: pool.counts[r] == |Sharers(pool.links, r)| > 0)
    && (forall o | o in pool.fates :: pool.fates[o] == if Held(pool.links, o) then 0 else 1)
  }

  lemma AccountedUsable<H, O, R>(pool: Pool<H, O, R>, h: H)
    requires Accounted(pool) && h in pool.links
    ensures Usable(pool, h)
    ensures pool.links[h].Managed? ==> pool.counts[pool.links[h].refs] > 0 && pool.fates[pool.links[h].object'] == 0
  {
  }

  /** A new handle joins the sharers of its count only. */
  lemma OtherSharers<H, O, R>(links: map<H, Link<O, R>>, h: H, link: Link<O, R>, r: R)
    requires h !in links && !(link.Managed? && link.refs == r)
    ensures Sharers(links[h := link], r) == Sharers(links, r)
  {
  }

  lemma OneMoreSharer<H, O, R>(links: map<H, Link<O, R>>, h: H, link: Link<O, R>)
    requires h !in links && link.Managed?
    ensures |Sharers(links[h := link], link.refs)| == |Sharers(links, link.refs)| + 1
  {
    assert Sharers(links[h := link], link.refs) == Sharers(links, link.refs) + {h};
  }

  lemma SharersDropped<H, O, R>(links: map<H, Link<O, R>>, h: H, r: R)
    ensures Sharers(links - {h}, r) == Sharers(links, r) - {h}
    ensures h in Sharers(links, r) <==> h in links && links[h].Managed? && links[h].refs == r
  {
  }

  lemma HeldBy<H, O, R>(links: map<H, Link<O, R>>, h: H)
    requires h in links && links[h].Managed?
    ensures Held(links, links[h].object')
  {
  }

  lemma AdoptAccounted<H, O, R>(pool: Pool<H, O, R>, h: H, o: O, refs: R)
    requires Accounted(pool) && h !in pool.links && o !in pool.fates && refs !in pool.counts
    ensures Accounted(Adopt(pool, h, o, refs))
  {
    hide Sharers, Held;
    var after := Adopt(pool, h, o, refs);
    forall r | r != refs
      ensures Sharers(after.links, r) == Sharers(pool.links, r)
    {
      OtherSharers(pool.links, h, Managed(o, refs), r);
    }
    NotSharing(pool, refs);
    OneMoreSharer(pool.links, h, Managed(o, refs));
    HeldBy(after.links, h);
    forall p | p in pool.fates
      ensures Held(after.links, p) == Held(pool.links, p)
    {
      SameHolders(pool.links, after.links, h, p);
    }
  }

  lemma NotSharing<H, O, R>(pool: Pool<H, O, R>, fresh': R)
    requires Accounted(pool) && fresh' !in pool.counts
    ensures Sharers(pool.links, fresh') == {}
  {
    forall g | g in pool.links && pool.links[g].Managed?
      ensures pool.links[g].refs != fresh'
    {
      assert Usable(pool, g);
    }
  }

  /** A handle that does not hold p does not change whether p is held. */
  lemma SameHolders<H, O, R>(links: map<H, Link<O, R>>, links': map<H, Link<O, R>>, h: H, p: O)
    requires links'.Keys == links.Keys + {h} && (forall g | g in links && g != h :: links'[g] == links[g])
    requires h in links ==> !(links[h].Managed? && links[h].object' == p)
    requires !(links'[h].Managed? && links'[h].object' == p)
    ensures Held(links', p) == Held(links, p)
  {
    if g :| g in links && links[g].Managed? && links[g].object' == p {
      assert g in links' && links'[g] == links[g];
    }
    if g :| g in links' && links'[g].Managed? && links'[g].object' == p {
      assert g in links && links[g] == links'[g];
    }
  }

  lemma BlankAccounted<H, O, R>(pool: Pool<H, O, R>, h: H)
    requires Accounted(pool) && h !in pool.links
    ensures Accounted(Blank(pool, h))
  {
    hide Sharers, Held;
    var after := Blank(pool, h);
    forall r
      ensures Sharers(after.links, r) == Sharers(pool.links, r)
    {
      OtherSharers(pool.links, h, Null, r);
    }
    forall p | p in pool.fates
      ensures Held(after.links, p) == Held(pool.links, p)
    {
      SameHolders(pool.links, after.links, h, p);
    }
  }

  lemma CopyOfParts<H, O, R>(pool: Pool<H, O, R>, h: H, other: H)
    requires Usable(pool, other)
    ensures CopyOf(pool, h, other).links == pool.links[h := pool.links[other]]
    ensures CopyOf(pool, h, other).fates == pool.fates
    ensures CopyOf(pool, h, other).counts ==
      match pool.links[other]
      case Null => pool.counts
      case Managed(_, refs) => pool.counts[refs := pool.counts[refs] + 1]
  {
  }

  lemma CopyAccounted<H, O, R>(pool: Pool<H, O, R>, h: H, other: H)
    requires Accounted(pool) && h !in pool.links && other in pool.links
    ensures Accounted(CopyOf(pool, h, other))
  {
    hide Sharers, Held;
    if pool.links[other].Null? {
      BlankAccounted(pool, h);
    } else {
      var after := CopyOf(pool, h, other);
      var o, refs := pool.links[other].object', pool.links[other].refs;
      forall r | r != refs
        ensures Sharers(after.links, r) == Sharers(pool.links, r)
      {
        OtherSharers(pool.links, h, pool.links[other], r);
      }
      OneMoreSharer(pool.links, h, pool.links[other]);
      HeldBy(pool.links, other);
      HeldBy(after.links, other);
      forall p | p in pool.fates && p != o
        ensures Held(after.links, p) == Held(pool.links, p)
      {
        SameHolders(pool.links, after.links, h, p);
      }
    }
  }

  lemma DropAccounted<H, O, R>(pool: Pool<H, O, R>, h: H)
    requires Accounted(pool) && h in pool.links
    ensures Accounted(Drop(pool, h))
  {
    hide Sharers, Held;
    var after := Drop(pool, h);
    AccountedUsable(pool, h);
    forall p | p in pool.fates && !(pool.links[h].Managed? && pool.links[h].object' == p)
      ensures Held(after.links, p) == Held(pool.links, p)
    {
      SameHoldersDropped(pool.links, h, p);
    }
    forall r
      ensures Sharers(after.links, r) == Sharers(pool.links, r) - {h}
      ensures h in Sharers(pool.links, r) <==> pool.links[h].Managed? && pool.links[h].refs == r
    {
      SharersDropped(pool.links, h, r);
    }
    if pool.links[h].Managed? {
      LastOrNot(pool, h);
    }
  }

  /** The object of a handle stays held exactly when the handle was not the last to share its count. */
  lemma LastOrNot<H, O, R>(pool: Pool<H, O, R>, h: H)
    requires Accounted(pool) && h in pool.links && pool.links[h].Managed?
    ensures var rest, refs := pool.links - {h}, pool.links[h].refs;
      && (Held(rest, pool.links[h].object') <==> pool.counts[refs] - 1 != 0)
      && (pool.counts[refs] - 1 == 0 ==> forall g | g in rest && rest[g].Managed? :: rest[g].refs != refs)
  {
    var rest, refs := pool.links - {h}, pool.links[h].refs;
    SharersDropped(pool.links, h, refs);
    var sharers := Sharers(rest, refs);
    assert |sharers| == pool.counts[refs] - 1;
    if sharers == {} {
      NoSharersNotHeld(pool, rest, h);
    } else {
      var g :| g in sharers;
      assert rest[g].object' == pool.links[h].object';
    }
  }

  lemma SameHoldersDropped<H, O, R>(links: map<H, Link<O, R>>, h: H, p: O)
    requires h in links && !(links[h].Managed? && links[h].object' == p)
    ensures Held(links - {h}, p) == Held(links, p)
  {
    var rest := links - {h};
    if g :| g in links && links[g].Managed? && links[g].object' == p {
      assert g in rest && rest[g] == links[g];
    }
  }

  lemma NoSharersNotHeld<H, O, R>(pool: Pool<H, O, R>, rest: map<H, Link<O, R>>, h: H)
    requires Accounted(pool) && h in pool.links && pool.links[h].Managed? && rest == pool.links - {h}
    requires Sharers(rest, pool.links[h].refs) == {}
    ensures !Held(rest, pool.links[h].object')
    ensures forall g | g in rest && rest[g].Managed? :: rest[g].refs != pool.links[h].refs
  {
    forall g | g in rest && rest[g].Managed?
      ensures rest[g].refs != pool.links[h].refs
    {
      assert g !in Sharers(rest, pool.links[h].refs);
    }
  }

  function Partner<H(==)>(g: H, h: H, x: H): H {
    if x == g then h else if x == h then g else x
  }

  lemma ExchangeLinks<H, O, R>(pool: Pool<H, O, R>, g: H, h: H)
    requires g in pool.links && h in pool.links
    ensures var links := Exchange(pool, g, h).links;
      && links.Keys == pool.links.Keys
      && (forall x | x in pool.links :: Partner(g, h, x) in pool.links && links[x] == pool.links[Partner(g, h, x)])
      && (forall x | x in pool.links :: links[Partner(g, h, x)] == pool.links[x])
  {
  }

  lemma ExchangeKeys<H, O, R>(pool: Pool<H, O, R>, g: H, h: H)
    requires g in pool.links && h in pool.links
    ensures Exchange(pool, g, h).links.Keys == pool.links.Keys
  {
  }

  lemma ExchangeHolders<H, O, R>(pool: Pool<H, O, R>, g: H, h: H, p: O)
    requires g in pool.links && h in pool.links
    ensures Held(Exchange(pool, g, h).links, p) == Held(pool.links, p)
  {
    hide Exchange, Partner;
    ExchangeLinks(pool, g, h);
    var links := Exchange(pool, g, h).links;
    if x :| x in pool.links && pool.links[x].Managed? && pool.links[x].object' == p {
      assert Partner(g, h, x) in links && links[Partner(g, h, x)] == pool.links[x];
    }
    if x :| x in links && links[x].Managed? && links[x].object' == p {
      assert pool.links[Partner(g, h, x)] == links[x];
    }
  }

  lemma ExchangeSharers<H, O, R>(pool: Pool<H, O, R>, g: H, h: H, r: R)
    requires g in pool.links && h in pool.links
    ensures |Sharers(Exchange(pool, g, h).links, r)| == |Sharers(pool.links, r)|
  {
    var before, after := Sharers(pool.links, r), Sharers(Exchange(pool, g, h).links, r);
    ExchangeMembers(pool, g, h, r);
    hide Sharers, Exchange;
    if (g in before) == (h in before) {
      assert after == before;
    } else if g in before {
      assert after == before - {g} + {h};
    } else {
      assert after == before - {h} + {g};
    }
  }

  lemma ExchangeMembers<H, O, R>(pool: Pool<H, O, R>, g: H, h: H, r: R)
    requires g in pool.links && h in pool.links
    ensures var before, after := Sharers(pool.links, r), Sharers(Exchange(pool, g, h).links, r);
      && (g in after <==> h in before) && (h in after <==> g in before)
      && (forall x | x != g && x != h :: x in after <==> x in before)
  {
  }

  lemma ExchangeAccounted<H, O, R>(pool: Pool<H, O, R>, g: H, h: H)
    requires Accounted(pool) && g in pool.links && h in pool.links
    ensures Accounted(Exchange(pool, g, h))
  {
    hide Sharers, Held, Partner;
    var after := Exchange(pool, g, h);
    forall r | r in pool.counts
      ensures |Sharers(after.links, r)| == |Sharers(pool.links, r)|
    {
      ExchangeSharers(pool, g, h, r);
    }
    forall p | p in pool.fates
      ensures Held(after.links, p) == Held(pool.links, p)
    {
      ExchangeHolders(pool, g, h, p);
    }
    ExchangeUsable(pool, g, h);
  }

  lemma ExchangeUsable<H, O, R>(pool: Pool<H, O, R>, g: H, h: H)
    requires Accounted(pool) && g in pool.links && h in pool.links
    ensures var after := Exchange(pool, g, h);
      && (forall x | x in after.links :: Usable(after, x))
      && (forall x, y | x in after.links && y in after.links && after.links[x].Managed? && after.links[y].Managed? ::
            after.links[x].refs == after.links[y].refs <==> after.links[x].object' == after.links[y].object')
  {
    hide Sharers, Held;
    var after := Exchange(pool, g, h);
    forall x | x in after.links
      ensures Usable(after, x)
    {
      assert Usable(pool, Partner(g, h, x));
    }
    forall x, y | x in after.links && y in after.links && after.links[x].Managed? && after.links[y].Managed?
      ensures after.links[x].refs == after.links[y].refs <==> after.links[x].object' == after.links[y].object'
    {
      var x', y' := Partner(g, h, x), Partner(g, h, y);
      assert after.links[x] == pool.links[x'] && after.links[y] == pool.links[y'];
    }
  }

  // ---------- runs ----------

  datatype Op<H, O, R> =
    | NewNull(h: H)
    | New(h: H, object': O, refs: R)
    | NewCopy(h: H, other: H)
    | Destroy(h: H)
    | Swap(h: H, other: H)
    | Assign(h: H, other: H, temporary: H)
    | AssignRaw(h: H, object': O, refs: R, temporary: H)

  /** New handles are new, raw pointers and counts are fresh, everything else is live. */
  ghost predicate Enabled<H, O, R>(pool: Pool<H, O, R>, op: Op<H, O, R>) {
    match op
    case NewNull(h) => h !in pool.links
    case New(h, o, refs) => h !in pool.links && o !in pool.fates && refs !in pool.counts
    case NewCopy(h, other) => h !in pool.links && other in pool.links
    case Destroy(h) => h in pool.links
    case Swap(h, other) => h in pool.links && other in pool.links
    case Assign(h, other, t) => h in pool.links && other in pool.links && t !in pool.links
    case AssignRaw(h, o, refs, t) => h in pool.links && o !in pool.fates && refs !in pool.counts && t !in pool.links
  }

  /** Assignment copies into a temporary, swaps with it and destroys it. */
  ghost function Step<H, O, R>(pool: Pool<H, O, R>, op: Op<H, O, R>): (after: Pool<H, O, R>)
    requires Accounted(pool) && Enabled(pool, op)
    ensures Accounted(after)
  {
    match op
    case NewNull(h) => BlankAccounted(pool, h); Blank(pool, h)
    case New(h, o, refs) => AdoptAccounted(pool, h, o, refs); Adopt(pool, h, o, refs)
    case NewCopy(h, other) => CopyAccounted(pool, h, other); CopyOf(pool, h, other)
    case Destroy(h) => DropAccounted(pool, h); Drop(pool, h)
    case Swap(h, other) => ExchangeAccounted(pool, h, other); Exchange(pool, h, other)
    case Assign(h, other, t) => CopyAccounted(pool, t, other); Replace(CopyOf(pool, t, other), h, t)
    case AssignRaw(h, o, refs, t) => AdoptAccounted(pool, t, o, refs); Replace(Adopt(pool, t, o, refs), h, t)
  }

  /** Give h what the temporary t holds, and destroy t. */
  ghost function Replace<H, O, R>(pool: Pool<H, O, R>, h: H, t: H): (after: Pool<H, O, R>)
    requires Accounted(pool) && h in pool.links && t in pool.links
    ensures Accounted(after)
  {
    ExchangeAccounted(pool, t, h);
    DropAccounted(Exchange(pool, t, h), t);
    Drop(Exchange(pool, t, h), t)
  }

  ghost predicate IsRun<H, O, R>(pools: seq<Pool<H, O, R>>, ops: seq<Op<H, O, R>>) {
    && |pools| == |ops| + 1
    && pools[0] == Pool(map[], map[], map[])
    && forall i | 0 <= i < |ops| ::
         Accounted(pools[i]) ==> Enabled(pools[i], ops[i]) && pools[i + 1] == Step(pools[i], ops[i])
  }

  /** Over any run every count is exact and no live handle refers to a destroyed object; once no
      handle is left every object managed on the way has been destroyed exactly once. */
  lemma {:induction false} RunsAccount<H, O, R>(pools: seq<Pool<H, O, R>>, ops: seq<Op<H, O, R>>, i: nat)
    requires IsRun(pools, ops) && i <= |ops|
    ensures Accounted(pools[i])
    ensures pools[i].links == map[] ==>
      pools[i].counts == map[] && forall o | o in pools[i].fates :: pools[i].fates[o] == 1
  {
    if i > 0 {
      RunsAccount(pools, ops, i - 1);
      assert pools[i] == Step(pools[i - 1], ops[i - 1]);
    }
    if pools[i].links == map[] {
      NoHandleNoCount(pools[i]);
    }
  }

  lemma NoHandleNoCount<H, O, R>(pool: Pool<H, O, R>)
    requires Accounted(pool) && pool.links == map[]
    ensures pool.counts == map[]
  {
    assert forall r :: Sharers(pool.links, r) == {};
    assert forall r :: r !in pool.counts;
  }

  /** Assigning a handle to itself changes nothing. */
  lemma SelfAssignment<H, O, R>(pool: Pool<H, O, R>, h: H, t: H)
    requires Accounted(pool) && h in pool.links && t !in pool.links
    ensures Step(pool, Assign(h, h, t)) == pool
  {
    hide Accounted, Sharers, Held;
    AccountedUsable(pool, h);
    var after := Step(pool, Assign(h, h, t));
    assert after.links == pool.links;
    assert after.counts == pool.counts;
  }

  /** Assigning from another handle: h now shares its object, no other handle changes, and the
      object h held before is destroyed exactly when h was its last handle. */
  lemma AssignmentMeans<H, O, R>(pool: Pool<H, O, R>, h: H, other: H, t: H)
    requires Accounted(pool) && h in pool.links && other in pool.links && t !in pool.links
    ensures var after := Step(pool, Assign(h, other, t));
      && after.links == pool.links[h := pool.links[other]]
      && after.fates.Keys == pool.fates.Keys
      && (pool.links[h].Managed? ==>
            var o := pool.links[h].object';
            after.fates[o] == 1 <==> pool.links[other] != pool.links[h] && pool.counts[pool.links[h].refs] == 1)
  {
    hide Sharers;
    AccountedUsable(pool, h);
    AccountedUsable(pool, other);
    var after := Step(pool, Assign(h, other, t));
    assert after.links == pool.links[h := pool.links[other]];
    if pool.links[h].Managed? {
      assert Held(pool.links, pool.links[h].object');
    }
  }
}
