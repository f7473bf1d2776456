/** Tables read back from a file are consistent, and writing them again gives the same file. */
module AddrRewrite {
  import opened AddrCheck
  import opened AddrFile
  import opened AddrReload
  import opened AddrTables
  import SetOrder

  /** Each identifier of the reloaded tables stands for one entry of the old ones. */
  lemma StandsFor(t: Tables, s: Tables, i: Id)
    requires Reloaded(t, s) && i in s.mapInfo
    ensures 0 <= i < |Order(t.mapInfo)|
    ensures var id := Order(t.mapInfo)[i];
      id in t.mapInfo && Rank(t.mapInfo, id) == i && s.mapInfo[i] == t.mapInfo[id].(nLastTry := 0, nRandomPos := i)
    ensures s.mapInfo[i].fInTried <==> i >= |NewIds(t.mapInfo)|
  {
    RankOf(t.mapInfo, i);
    OrderApart(t.mapInfo);
    hide Order, Rank;
  }

  lemma RanksKnown(t: Tables, s: Tables, id: Id)
    requires Reloaded(t, s) && id in t.mapInfo
    ensures var i := Rank(t.mapInfo, id);
      i in s.mapInfo && s.mapInfo[i] == t.mapInfo[id].(nLastTry := 0, nRandomPos := i) && Order(t.mapInfo)[i] == id
  {
    hide Order, Rank;
  }

  lemma {:induction false} RankSetSmall(m: map<Id, AddrInfo>, s: set<Id>)
    ensures |RankSet(m, s)| <= |s| && (s <= m.Keys ==> |RankSet(m, s)| == |s|)
    decreases |s|
  {
    hide Rank, Order;
    if s == {} {
      assert RankSet(m, s) == {};
    } else {
      SetOrder.HasElement(s);
      var x :| x in s;
      RankSetSmall(m, s - {x});
      assert RankSet(m, s) == RankSet(m, s - {x}) + {Rank(m, x)};
      if s <= m.Keys {
        forall y | y in s - {x} ensures Rank(m, y) != Rank(m, x) {
          assert Order(m)[Rank(m, y)] == y && Order(m)[Rank(m, x)] == x;
        }
      }
    }
  }

  lemma SizesAgain(keys: Keys, t: Tables, s: Tables)
    requires Consistent(keys, t, {}) && Reloaded(t, s)
    ensures SizesOk(s)
  {
    forall b | 0 <= b < |s.vvTried| ensures |s.vvTried[b]| <= TRIED_BUCKET_SIZE {
      ElementsCount(s.vvTried[b]);
      ElementsCount(t.vvTried[b]);
      RankSetSmall(t.mapInfo, Elements(t.vvTried[b]));
    }
    forall b | 0 <= b < |s.vvNew| ensures |s.vvNew[b]| <= NEW_BUCKET_SIZE { RankSetSmall(t.mapInfo, t.vvNew[b]); }
    hide AddrOk, RandomOk, NewOk, TriedOk, CountsOk, Order, Rank, RankSet;
  }

  lemma IndexesAgain(keys: Keys, t: Tables, s: Tables)
    requires Consistent(keys, t, {}) && Reloaded(t, s)
    ensures AddrOk(s) && RandomOk(s)
  {
    hide Order, Rank, RankSet, Elements, From, Reloaded, AddrOk, RandomOk, NewOk, TriedOk, CountsOk, SizesOk;
    PlacesAgain(t, s);
    forall i | i in s.mapInfo ensures AddressOf(s, i) && s.mapInfo[i].nRandomPos == i {
      EntryAgain(keys, t, s, i);
    }
    forall ip | ip in s.mapAddr ensures s.mapAddr[ip] in s.mapInfo && s.mapInfo[s.mapAddr[ip]].addr.svc.ip == ip {
      AddressAgain(t, s, ip);
    }
    ReallyAgain(s);
  }

  lemma PlacesAgain(t: Tables, s: Tables)
    requires Reloaded(t, s)
    ensures forall i :: i in s.mapInfo <==> 0 <= i < |s.vRandom|
    ensures forall i :: 0 <= i < |s.vRandom| ==> s.vRandom[i] == i
  {
    hide Order, Rank, RankSet, Elements, NoDuplicates;
  }

  lemma ReallyAgain(s: Tables)
    requires forall i :: i in s.mapInfo <==> 0 <= i < |s.vRandom|
    requires forall i :: 0 <= i < |s.vRandom| ==> s.vRandom[i] == i
    requires forall i :: i in s.mapInfo ==> AddressOf(s, i) && s.mapInfo[i].nRandomPos == i
    requires forall ip :: ip in s.mapAddr ==> s.mapAddr[ip] in s.mapInfo && s.mapInfo[s.mapAddr[ip]].addr.svc.ip == ip
    ensures AddrOk(s) && RandomOk(s)
  {
  }

  /** The address map leads back to the entry. */
  predicate AddressOf(s: Tables, i: Id)
    requires i in s.mapInfo
  {
    s.mapInfo[i].addr.svc.ip in s.mapAddr && s.mapAddr[s.mapInfo[i].addr.svc.ip] == i
  }

  lemma EntryAgain(keys: Keys, t: Tables, s: Tables, i: Id)
    requires Consistent(keys, t, {}) && Reloaded(t, s) && i in s.mapInfo
    ensures AddressOf(s, i) && s.mapInfo[i].nRandomPos == i
  {
    StandsFor(t, s, i);
    hide Order, Rank, RandomOk, NewOk, TriedOk, CountsOk, SizesOk, RankSet, Elements;
  }

  lemma AddressAgain(t: Tables, s: Tables, ip: NetAddr)
    requires AddrOk(t) && Reloaded(t, s) && ip in s.mapAddr
    ensures s.mapAddr[ip] in s.mapInfo && s.mapInfo[s.mapAddr[ip]].addr.svc.ip == ip
  {
    hide Order, Rank, RankSet, Elements;
    assert ip in t.mapAddr && t.mapAddr[ip] in t.mapInfo;
    RanksKnown(t, s, t.mapAddr[ip]);
  }

  lemma Totals(keys: Keys, t: Tables, s: Tables)
    requires Consistent(keys, t, {}) && Reloaded(t, s)
    ensures s.nNew == |NewIds(t.mapInfo)| && s.nTried == |TriedIds(t.mapInfo)|
  {
    hide SizesOk, AddrOk, RandomOk, NewOk, TriedOk, Order, Rank, RankSet, Elements;
  }

  lemma CountsAgain(keys: Keys, t: Tables, s: Tables)
    requires Consistent(keys, t, {}) && Reloaded(t, s)
    ensures NewIds(s.mapInfo) == Range(|NewIds(t.mapInfo)|) && |Order(s.mapInfo)| == |Order(t.mapInfo)|
    ensures forall i :: i in TriedIds(s.mapInfo) <==> |NewIds(t.mapInfo)| <= i < |Order(t.mapInfo)|
    ensures CountsOk(s)
  {
    hide Consistent, Reloaded, Order, Rank, NewIds, TriedIds, Range;
    var n, all := |NewIds(t.mapInfo)|, |Order(t.mapInfo)|;
    forall i ensures i in NewIds(s.mapInfo) <==> 0 <= i < n ensures i in TriedIds(s.mapInfo) <==> n <= i < all {
      SideAgain(t, s, i);
    }
    Totals(keys, t, s);
    var a, b := NewIds(s.mapInfo), TriedIds(s.mapInfo);
    assert a == Range(n) && a + b == Range(all) && a !! b;
  }

  lemma SideAgain(t: Tables, s: Tables, i: Id)
    requires Reloaded(t, s)
    ensures i in NewIds(s.mapInfo) <==> 0 <= i < |NewIds(t.mapInfo)|
    ensures i in TriedIds(s.mapInfo) <==> |NewIds(t.mapInfo)| <= i < |Order(t.mapInfo)|
  {
    hide Reloaded, Order, Rank;
    Everyone(t, s);
    if i in s.mapInfo { StandsFor(t, s, i); }
  }

  lemma NewAgain(keys: Keys, t: Tables, s: Tables)
    requires Consistent(keys, t, {}) && Reloaded(t, s)
    ensures NewOk(s, {})
  {
    hide Consistent, Reloaded, Order, Rank, NewBucketsOf;
    KeepsNew(keys, t);
    forall b, i | 0 <= b < |s.vvNew| && i in s.vvNew[b] ensures i in s.mapInfo && !s.mapInfo[i].fInTried {
      MemberAgain(t, s, b, i);
    }
    forall i | i in s.mapInfo && !s.mapInfo[i].fInTried
      ensures 1 <= s.mapInfo[i].nRefCount <= NEW_BUCKETS_PER_ADDRESS
      ensures s.mapInfo[i].nRefCount == |NewBucketsOf(s.vvNew, i)|
    {
      RefsAgain(keys, t, s, i);
    }
  }

  lemma KeepsNew(keys: Keys, t: Tables)
    requires Consistent(keys, t, {})
    ensures NewOk(t, {})
  {
  }

  lemma MemberAgain(t: Tables, s: Tables, b: nat, i: Id)
    requires NewOk(t, {}) && Reloaded(t, s) && b < |s.vvNew| && i in s.vvNew[b]
    ensures i in s.mapInfo && !s.mapInfo[i].fInTried
  {
    hide Order, Rank, Elements;
    var id :| id in t.vvNew[b] && Rank(t.mapInfo, id) == i;
    RanksKnown(t, s, id);
  }

  lemma RefsAgain(keys: Keys, t: Tables, s: Tables, i: Id)
    requires Consistent(keys, t, {}) && Reloaded(t, s) && i in s.mapInfo && !s.mapInfo[i].fInTried
    ensures 1 <= s.mapInfo[i].nRefCount <= NEW_BUCKETS_PER_ADDRESS
    ensures s.mapInfo[i].nRefCount == |NewBucketsOf(s.vvNew, i)|
  {
    StandsFor(t, s, i);
    SameBuckets(keys, t, s, Order(t.mapInfo)[i]);
    hide Order, Rank, RandomOk, AddrOk, TriedOk, CountsOk, SizesOk, Reloaded;
  }

  lemma SameBuckets(keys: Keys, t: Tables, s: Tables, id: Id)
    requires Consistent(keys, t, {}) && Reloaded(t, s) && id in t.mapInfo
    ensures NewBucketsOf(s.vvNew, Rank(t.mapInfo, id)) == NewBucketsOf(t.vvNew, id)
  {
    hide Order, Rank, RandomOk, AddrOk, TriedOk, CountsOk, SizesOk;
    forall b | 0 <= b < |t.vvNew| ensures Rank(t.mapInfo, id) in s.vvNew[b] <==> id in t.vvNew[b] {
      if x :| x in t.vvNew[b] && Rank(t.mapInfo, x) == Rank(t.mapInfo, id) {
        assert x in t.mapInfo;
        RanksKnown(t, s, x);
        RanksKnown(t, s, id);
      }
    }
  }

  lemma TriedAgain(keys: Keys, t: Tables, s: Tables)
    requires Consistent(keys, t, {}) && Reloaded(t, s)
    ensures TriedOk(keys, s)
  {
    hide Order, Rank, RandomOk, AddrOk, NewOk, CountsOk;
    forall b, k | 0 <= b < |s.vvTried| && 0 <= k < |s.vvTried[b]| ensures TriedAt(keys, s, b, s.vvTried[b][k]) {
      assert s.vvTried[b][k] in Elements(s.vvTried[b]);
      var id :| id in Elements(t.vvTried[b]) && Rank(t.mapInfo, id) == s.vvTried[b][k];
      var j :| 0 <= j < |t.vvTried[b]| && t.vvTried[b][j] == id;
      assert TriedAt(keys, t, b, t.vvTried[b][j]);
      RanksKnown(t, s, id);
    }
    forall i | i in s.mapInfo && s.mapInfo[i].fInTried
      ensures s.mapInfo[i].nRefCount == 0
      ensures i in s.vvTried[keys.TriedBucket(s.mapInfo[i].addr.svc)]
    {
      StandsFor(t, s, i);
      var id := Order(t.mapInfo)[i];
      var b := keys.TriedBucket(t.mapInfo[id].addr.svc);
      assert id in t.vvTried[b];
      assert id in Elements(t.vvTried[b]);
      assert i in RankSet(t.mapInfo, Elements(t.vvTried[b]));
      assert i in Elements(s.vvTried[b]);
    }
  }

  /** The times recorded are right again; the last try is reset. */
  lemma TimesAgain(t: Tables, s: Tables)
    requires Reloaded(t, s) && TimesOk(t)
    ensures TimesOk(s)
  {
    forall i | i in s.mapInfo ensures TimeOk(s.mapInfo[i]) {
      StandsFor(t, s, i);
      assert TimeOk(t.mapInfo[Order(t.mapInfo)[i]]);
    }
  }

  /** What is read back is consistent, and passes the check if what was written did. */
  lemma ConsistentAgain(keys: Keys, t: Tables, s: Tables)
    requires Consistent(keys, t, {}) && Reloaded(t, s)
    ensures Consistent(keys, s, {}) && (Passes(t) ==> Passes(s))
  {
    SizesAgain(keys, t, s);
    IndexesAgain(keys, t, s);
    CountsAgain(keys, t, s);
    NewAgain(keys, t, s);
    TriedAgain(keys, t, s);
    hide SizesOk, AddrOk, RandomOk, NewOk, TriedOk, CountsOk, Reloaded, Passes, TimesOk;
    PassesIff(keys, t);
    PassesIff(keys, s);
    if Passes(t) { TimesAgain(t, s); }
  }

  /* ---- the same file again ---- */

  /** The entries of the reloaded tables are in the order of their identifiers. */
  lemma OrderAgain(keys: Keys, t: Tables, s: Tables)
    requires Consistent(keys, t, {}) && Reloaded(t, s)
    ensures Order(s.mapInfo) == From(0, |Order(t.mapInfo)|)
  {
    hide Consistent, Reloaded, SetOrder.Ascending, Range, NewIds, TriedIds, Rank, From;
    CountsAgain(keys, t, s);
    var n, all := |NewIds(t.mapInfo)|, |Order(t.mapInfo)|;
    Consecutive(NewIds(s.mapInfo), 0, n);
    Consecutive(TriedIds(s.mapInfo), n, all);
    assert From(0, n) + From(n, all - n) == From(0, all);
  }

  lemma Consecutive(s: set<int>, lo: int, hi: int)
    requires lo <= hi && forall x :: x in s <==> lo <= x < hi
    ensures SetOrder.Ascending(s) == From(lo, hi - lo)
  {
    hide SetOrder.Ascending;
    var c := From(lo, hi - lo);
    forall x ensures x in c <==> x in s { if lo <= x < hi { assert c[x - lo] == x; } }
    SetOrder.IncreasingUnique(SetOrder.Ascending(s), c);
  }

  lemma RankAgain(keys: Keys, t: Tables, s: Tables, i: Id)
    requires Consistent(keys, t, {}) && Reloaded(t, s) && i in s.mapInfo
    ensures Rank(s.mapInfo, i) == i
  {
    hide Consistent, Order, Rank, Reloaded;
    OrderAgain(keys, t, s);
    StandsFor(t, s, i);
    RankOf(s.mapInfo, i);
  }

  lemma Everyone(t: Tables, s: Tables)
    requires Reloaded(t, s)
    ensures forall i :: i in s.mapInfo <==> 0 <= i < |Order(t.mapInfo)|
    ensures |s.vvNew| == |t.vvNew| && forall b :: 0 <= b < |t.vvNew| ==> s.vvNew[b] == RankSet(t.mapInfo, t.vvNew[b])
  {
    hide Order, Rank, RankSet, Elements;
  }

  lemma RecordsAgain(keys: Keys, t: Tables, s: Tables)
    requires Consistent(keys, t, {}) && Reloaded(t, s)
    ensures Records(s.mapInfo, Order(s.mapInfo)) == Records(t.mapInfo, Order(t.mapInfo))
  {
    hide Consistent, Order, Rank, Reloaded;
    OrderAgain(keys, t, s);
    Everyone(t, s);
    forall i | 0 <= i < |Order(t.mapInfo)| ensures RecordAt(s.mapInfo, i) == RecordAt(t.mapInfo, Order(t.mapInfo)[i]) {
      StandsFor(t, s, i);
    }
  }

  /** Ranks grow with identifiers among the untried. */
  lemma RankGrows(m: map<Id, AddrInfo>, x: Id, y: Id)
    requires x in NewIds(m) && y in NewIds(m) && x < y
    ensures Rank(m, x) < Rank(m, y)
  {
    hide Rank, Order, SetOrder.Ascending, NewIds;
    NewRank(m, x);
    NewRank(m, y);
  }

  /** The renamed list. */
  ghost function Renamed(m: map<Id, AddrInfo>, ids: seq<Id>): (r: seq<Id>)
    ensures |r| == |ids| && forall i :: 0 <= i < |ids| ==> r[i] == Rank(m, ids[i])
  {
    seq(|ids|, i requires 0 <= i < |ids| => Rank(m, ids[i]))
  }

  /** The bucket's members, in ascending order, are renamed to its new members in ascending order. */
  lemma MembersAgain(t: Tables, vNew: set<Id>)
    requires vNew <= NewIds(t.mapInfo)
    ensures SetOrder.Ascending(RankSet(t.mapInfo, vNew)) == Renamed(t.mapInfo, SetOrder.Ascending(vNew))
  {
    var m, order, again := t.mapInfo, SetOrder.Ascending(vNew), SetOrder.Ascending(RankSet(t.mapInfo, vNew));
    var ranks := Renamed(m, order);
    hide Order, Rank, SetOrder.Ascending, NewIds, Renamed;
    forall i | 0 <= i < |order| ensures order[i] in vNew && ranks[i] in RankSet(m, vNew) { assert order[i] in order; }
    forall i, j | 0 <= i < j < |order| ensures ranks[i] < ranks[j] { RankGrows(m, order[i], order[j]); }
    forall x | x in RankSet(m, vNew) ensures x in ranks {
      var id :| id in vNew && Rank(m, id) == x;
      assert id in order;
      var i :| 0 <= i < |order| && order[i] == id;
      assert ranks[i] == x;
    }
    hide RankSet;
    SetOrder.IncreasingUnique(ranks, again);
  }

  lemma OnlyNew(keys: Keys, t: Tables, b: nat)
    requires Consistent(keys, t, {}) && b < |t.vvNew|
    ensures t.vvNew[b] <= NewIds(t.mapInfo) && t.vvNew[b] <= t.mapInfo.Keys
  {
    hide SizesOk, AddrOk, RandomOk, NewOk, TriedOk, CountsOk;
    InNew(t, b);
  }

  lemma BucketAgain(keys: Keys, t: Tables, s: Tables, b: nat)
    requires Consistent(keys, t, {}) && Reloaded(t, s) && b < |t.vvNew|
    ensures Bucket(s.mapInfo, s.vvNew[b]) == Bucket(t.mapInfo, t.vvNew[b])
  {
    hide Consistent, Order, Rank, SetOrder.Ascending, RankSet, Reloaded, Renamed, Elements, NewIds;
    var vNew, m := t.vvNew[b], s.mapInfo;
    OnlyNew(keys, t, b);
    Everyone(t, s);
    MembersAgain(t, vNew);
    RankSetSmall(t.mapInfo, vNew);
    var order, again := SetOrder.Ascending(vNew), SetOrder.Ascending(s.vvNew[b]);
    forall i | 0 <= i < |again| ensures Rank(m, again[i]) == Rank(t.mapInfo, order[i]) {
      assert order[i] in order && order[i] in vNew;
      RanksKnown(t, s, order[i]);
      RankAgain(keys, t, s, again[i]);
    }
  }

  lemma BucketCount(t: Tables, s: Tables)
    requires Reloaded(t, s)
    ensures |s.vvNew| == |t.vvNew|
  {
  }

  lemma {:induction false} BucketsAgain(keys: Keys, t: Tables, s: Tables, n: nat)
    requires Consistent(keys, t, {}) && Reloaded(t, s) && n <= |t.vvNew|
    ensures Buckets(s.mapInfo, s.vvNew, n) == Buckets(t.mapInfo, t.vvNew, n)
  {
    hide Consistent, Bucket, RankSet, Elements, Order, Rank, From, NoDuplicates;
    BucketCount(t, s);
    hide Reloaded;
    if n > 0 {
      BucketsAgain(keys, t, s, n - 1);
      BucketAgain(keys, t, s, n - 1);
    }
  }

  /** Writing what was read gives the file that was read. */
  lemma SameFileAgain(keys: Keys, t: Tables, s: Tables)
    requires Consistent(keys, t, {}) && Reloaded(t, s)
    ensures Written(Encode(keys, t), keys, s)
  {
    ConsistentAgain(keys, t, s);
    RecordsAgain(keys, t, s);
    BucketsAgain(keys, t, s, |t.vvNew|);
    hide Consistent, Order, Records, Buckets;
  }
}
