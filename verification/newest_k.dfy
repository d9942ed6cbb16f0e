/** Keeping the newest k of a set of stamped ids.

    The server outbox caps its table at the newest 500 rows and the daemon caps its replay
    ledger at the newest 500 ids. Neither fixes the order of equal stamps, so the selection
    is a relation: every lemma below holds however ties are broken. */
module NewestK {
  /** A client-minted message id: only ever compared. */
  type MsgId(==, !new)

  type Stamps = map<MsgId, int>

  function Min(a: nat, b: nat): nat {
    if a <= b then a else b
  }

  /** `kept` is a selection of the newest `k` ids of `all`. */
  ghost predicate IsNewest(kept: set<MsgId>, all: set<MsgId>, stamp: Stamps, k: nat) {
    && kept <= all <= stamp.Keys
    && |kept| == Min(k, |all|)
    && NoneNewer(all - kept, kept, stamp)
  }

  /** No id of `dropped` is newer than an id of `kept`. */
  ghost predicate NoneNewer(dropped: set<MsgId>, kept: set<MsgId>, stamp: Stamps)
    requires dropped <= stamp.Keys && kept <= stamp.Keys
  {
    forall d, x {:trigger stamp[d], stamp[x]} :: d in dropped && x in kept ==> stamp[d] <= stamp[x]
  }

  /** The ids of `all` stamped at or after `cutoff`. */
  function Since(all: set<MsgId>, stamp: Stamps, cutoff: int): set<MsgId>
    requires all <= stamp.Keys
  {
    set id | id in all && stamp[id] >= cutoff
  }

  ghost predicate DistinctStamps(stamp: Stamps) {
    forall a, b {:trigger stamp[a], stamp[b]} :: a in stamp && b in stamp && stamp[a] == stamp[b] ==> a == b
  }

  lemma SubsetCard<T>(a: set<T>, b: set<T>)
    requires a <= b
    ensures |a| <= |b|
    ensures |a| == |b| ==> a == b
  {
    assert b == a + (b - a);
    assert |b| == |a| + |b - a|;
  }

  /** Two stamp maps that agree on `all` select alike. */
  lemma SameStamps(kept: set<MsgId>, all: set<MsgId>, stamp: Stamps, stamp': Stamps, k: nat)
    requires IsNewest(kept, all, stamp, k)
    requires all <= stamp'.Keys && forall id :: id in all ==> stamp'[id] == stamp[id]
    ensures IsNewest(kept, all, stamp', k)
  {
  }

  lemma SameSince(all: set<MsgId>, stamp: Stamps, stamp': Stamps, cutoff: int)
    requires all <= stamp.Keys && all <= stamp'.Keys && forall id :: id in all ==> stamp'[id] == stamp[id]
    ensures Since(all, stamp, cutoff) == Since(all, stamp', cutoff)
  {
  }

  /** The cap step of NewestOfNewest for one dropped id: an id dropped by the earlier cap is no
      newer than anything the later cap keeps. */
  lemma DroppedStaysOlder(kept: set<MsgId>, more: set<MsgId>, kept': set<MsgId>, stamp: Stamps, k: nat,
                          dropped: MsgId, id: MsgId)
    requires |kept| == k
    requires IsNewest(kept', kept + more, stamp, k)
    requires dropped in stamp && NoneNewer({dropped}, kept, stamp)
    requires id in kept'
    ensures stamp[dropped] <= stamp[id]
  {
    if id !in kept && stamp[id] < stamp[dropped] {
      // Everything the earlier cap kept is newer than id, so it must all still be there beside id.
      forall t | t in kept ensures t in kept' {
        assert stamp[dropped] <= stamp[t];
        if t !in kept' {
          assert false;
        }
      }
      SubsetCard(kept + {id}, kept');
      assert false;
    }
  }

  /** Capping lazily is harmless: capping what an earlier cap left, after more ids came in,
      selects the newest k of everything that ever came in. */
  lemma NewestOfNewest(kept: set<MsgId>, all: set<MsgId>, more: set<MsgId>, kept': set<MsgId>, stamp: Stamps, k: nat)
    requires IsNewest(kept, all, stamp, k)
    requires all !! more && more <= stamp.Keys
    requires IsNewest(kept', kept + more, stamp, k)
    ensures IsNewest(kept', all + more, stamp, k)
  {
    SubsetCard(kept, all);
    assert |kept + more| == |kept| + |more| && |all + more| == |all| + |more|;
    forall dropped, id | dropped in all + more - kept' && id in kept'
      ensures stamp[dropped] <= stamp[id]
    {
      if dropped in kept + more {
        assert dropped in kept + more - kept';
      } else {
        assert dropped in all - kept;
        DroppedStaysOlder(kept, more, kept', stamp, k, dropped, id);
      }
    }
  }

  /** Ageing out old ids commutes with the cap. */
  lemma NewestOfAged(kept: set<MsgId>, all: set<MsgId>, stamp: Stamps, cutoff: int, k: nat)
    requires IsNewest(kept, all, stamp, k)
    ensures IsNewest(Since(kept, stamp, cutoff), Since(all, stamp, cutoff), stamp, k)
  {
    var keptA, allA := Since(kept, stamp, cutoff), Since(all, stamp, cutoff);
    SubsetCard(keptA, allA);
    SubsetCard(keptA, kept);
    SubsetCard(allA, all);
    SubsetCard(kept, all);
    if d :| d in allA && d !in keptA {
      assert d in all - kept;
      assert keptA == kept;
    } else {
      assert keptA == allA;
    }
  }

  lemma SinceOfUnion(a: set<MsgId>, b: set<MsgId>, stamp: Stamps, cutoff: int)
    requires a + b <= stamp.Keys
    ensures Since(a + b, stamp, cutoff) == Since(a, stamp, cutoff) + Since(b, stamp, cutoff)
  {
  }

  lemma SinceTwice(all: set<MsgId>, stamp: Stamps, earlier: int, later: int)
    requires all <= stamp.Keys && earlier <= later
    ensures Since(Since(all, stamp, earlier), stamp, later) == Since(all, stamp, later)
  {
  }

  /** One prune: some new ids have come in since the last one, everything before `cutoff` is aged
      out and the cap is applied. What is left is the newest k of the whole history since
      `cutoff`, whatever the earlier cutoff was. */
  lemma PrunedIsNewest(before: set<MsgId>, history: set<MsgId>, earlier: int, more: set<MsgId>,
                       after: set<MsgId>, cutoff: int, stamp: Stamps, k: nat)
    requires history + more <= stamp.Keys && history !! more && earlier <= cutoff
    requires IsNewest(before, Since(history, stamp, earlier), stamp, k)
    requires IsNewest(after, Since(before + more, stamp, cutoff), stamp, k)
    ensures IsNewest(after, Since(history + more, stamp, cutoff), stamp, k)
  {
    NewestOfAged(before, Since(history, stamp, earlier), stamp, cutoff, k);
    SinceTwice(history, stamp, earlier, cutoff);
    SinceOfUnion(before, more, stamp, cutoff);
    SinceOfUnion(history, more, stamp, cutoff);
    NewestOfNewest(Since(before, stamp, cutoff), Since(history, stamp, cutoff), Since(more, stamp, cutoff), after,
        stamp, k);
  }

  /** `small` says what `big` says about `ids`. */
  ghost predicate Agree(ids: set<MsgId>, small: Stamps, big: Stamps) {
    ids <= small.Keys && ids <= big.Keys && forall id :: id in ids ==> big[id] == small[id]
  }

  lemma Rebase(kept: set<MsgId>, all: set<MsgId>, small: Stamps, big: Stamps, cutoff: int, k: nat)
    requires Agree(all, small, big)
    requires IsNewest(kept, Since(all, small, cutoff), small, k)
    ensures IsNewest(kept, Since(all, big, cutoff), big, k)
  {
    SameSince(all, small, big, cutoff);
    SameStamps(kept, Since(all, small, cutoff), small, big, k);
  }

  /** PrunedIsNewest with each collection carrying its own stamps. */
  lemma PrunedIsNewestRebased(before: set<MsgId>, history: Stamps, earlier: int, before': Stamps, history': Stamps,
                              more: set<MsgId>, after: set<MsgId>, cutoff: int, k: nat)
    requires Agree(history.Keys, history, history') && Agree(before'.Keys, before', history') && earlier <= cutoff
    requires before'.Keys == before + more && history'.Keys == history.Keys + more && history.Keys !! more
    requires IsNewest(before, Since(history.Keys, history, earlier), history, k)
    requires IsNewest(after, Since(before'.Keys, before', cutoff), before', k)
    ensures IsNewest(after, Since(history'.Keys, history', cutoff), history', k)
  {
    Rebase(before, history.Keys, history, history', earlier, k);
    Rebase(after, before'.Keys, before', history', cutoff, k);
    PrunedIsNewest(before, history.Keys, earlier, more, after, cutoff, history', k);
  }

  /** There always is a selection. */
  lemma {:induction false} NewestExists(all: set<MsgId>, stamp: Stamps, k: nat) returns (kept: set<MsgId>)
    requires all <= stamp.Keys
    ensures kept <= all && IsNewest(kept, all, stamp, k)
    decreases k
  {
    if k == 0 || all == {} {
      kept := {};
    } else {
      var top := Latest(all, stamp);
      var rest := NewestExists(all - {top}, stamp, k - 1);
      kept := rest + {top};
      assert all - kept == (all - {top}) - rest;
    }
  }

  lemma {:induction false} Latest(all: set<MsgId>, stamp: Stamps) returns (top: MsgId)
    requires all != {} && all <= stamp.Keys
    ensures top in all && forall id :: id in all ==> stamp[id] <= stamp[top]
    decreases |all|
  {
    top :| top in all;
    if all != {top} {
      var other := Latest(all - {top}, stamp);
      if stamp[other] > stamp[top] { top := other; }
    }
  }

  /** With distinct stamps there is only one selection, so the survivors are a function of `all`. */
  lemma NewestUnique(a: set<MsgId>, b: set<MsgId>, all: set<MsgId>, stamp: Stamps, k: nat)
    requires DistinctStamps(stamp)
    requires IsNewest(a, all, stamp, k) && IsNewest(b, all, stamp, k)
    ensures a == b
  {
    if a <= b {
      SubsetCard(a, b);
    } else if b <= a {
      SubsetCard(b, a);
    } else {
      // Each of the two would hold an id the other dropped, so the two ids would be tied.
      assert false;
    }
  }

  /** An id is certain to be kept as soon as at most k ids, itself included, are as new. */
  lemma FewNewerIsKept(kept: set<MsgId>, all: set<MsgId>, stamp: Stamps, id: MsgId, k: nat)
    requires IsNewest(kept, all, stamp, k)
    requires id in all && |Since(all, stamp, stamp[id])| <= k
    ensures id in kept
  {
    if id !in kept {
      assert id in all - kept;
      SubsetCard(kept + {id}, Since(all, stamp, stamp[id]));
      SubsetCard(kept + {id}, all);
      assert false;
    }
  }

  /** A kept id has fewer than k strictly newer ones. */
  lemma KeptHasFewNewer(kept: set<MsgId>, all: set<MsgId>, stamp: Stamps, id: MsgId, k: nat)
    requires IsNewest(kept, all, stamp, k)
    requires id in kept
    ensures |Since(all, stamp, stamp[id] + 1)| < k
  {
    forall d | d in Since(all, stamp, stamp[id] + 1) ensures d in kept - {id} {
      assert d !in kept ==> d in all - kept;
    }
    SubsetCard(Since(all, stamp, stamp[id] + 1), kept - {id});
  }

  /** Membership in the selection, when stamps are distinct: fewer than k strictly newer ids. */
  lemma KeptIffFewNewer(kept: set<MsgId>, all: set<MsgId>, stamp: Stamps, id: MsgId, k: nat)
    requires DistinctStamps(stamp) && IsNewest(kept, all, stamp, k) && id in all
    ensures id in kept <==> |Since(all, stamp, stamp[id] + 1)| < k
  {
    assert Since(all, stamp, stamp[id]) == Since(all, stamp, stamp[id] + 1) + {id};
    if id in kept {
      KeptHasFewNewer(kept, all, stamp, id, k);
    } else if |Since(all, stamp, stamp[id] + 1)| < k {
      FewNewerIsKept(kept, all, stamp, id, k);
    }
  }

  /** Select the newest k ids; equal stamps may be taken in any order. */
  method NewestIds(stamp: Stamps, k: nat) returns (kept: set<MsgId>)
    ensures IsNewest(kept, stamp.Keys, stamp, k)
  {
    kept := {};
    var rest := stamp.Keys;
    while rest != {} && |kept| < k
      invariant kept !! rest && kept + rest == stamp.Keys
      invariant |kept| <= k
      invariant NoneNewer(rest, kept, stamp)
      decreases rest
    {
      var newest := PickExtreme(rest, stamp, -1);
      assert stamp.Keys - kept == rest;
      kept, rest := kept + {newest}, rest - {newest};
    }
    assert stamp.Keys - kept == rest;
    SubsetCard(kept, stamp.Keys);
  }

  /** An id of `pool` whose stamp is smallest (sign 1) or largest (sign -1). */
  method PickExtreme(pool: set<MsgId>, stamp: Stamps, sign: int) returns (best: MsgId)
    requires pool != {} && pool <= stamp.Keys
    ensures best in pool && forall id :: id in pool ==> sign * stamp[best] <= sign * stamp[id]
  {
    best :| best in pool;
    var rest := pool - {best};
    while rest != {}
      invariant rest <= pool && best in pool
      invariant forall id :: id in pool - rest ==> sign * stamp[best] <= sign * stamp[id]
      decreases rest
    {
      var id :| id in rest;
      if sign * stamp[id] < sign * stamp[best] {
        best := id;
      }
      rest := rest - {id};
    }
  }
}
