/** The address manager's consistency check: what it establishes, and why consistent tables pass it. */
module AddrCheck {
  import opened AddrLaws
  import opened AddrTables
  import SetOrder

  /** An address missing from the map reads as identifier 0. */
  function Lookup(m: map<NetAddr, Id>, ip: NetAddr): Id { if ip in m then m[ip] else 0 }

  /** What the check looks at in one entry. */
  predicate EntryOk(mapAddr: map<NetAddr, Id>, vRandom: seq<Id>, id: Id, info: AddrInfo) {
    && (if info.fInTried then info.nRefCount == 0 else 1 <= info.nRefCount <= NEW_BUCKETS_PER_ADDRESS)
    && Lookup(mapAddr, info.addr.svc.ip) == id
    && 0 <= info.nRandomPos < |vRandom| && vRandom[info.nRandomPos] == id
    && TimeOk(info)
  }

  ghost predicate EntriesOk(mapAddr: map<NetAddr, Id>, vRandom: seq<Id>, m: map<Id, AddrInfo>, ids: seq<Id>) {
    forall id :: id in ids ==> id in m && EntryOk(mapAddr, vRandom, id, m[id])
  }

  lemma NoEntries(mapAddr: map<NetAddr, Id>, vRandom: seq<Id>, m: map<Id, AddrInfo>)
    ensures EntriesOk(mapAddr, vRandom, m, [])
  {
  }

  lemma NextEntry(mapAddr: map<NetAddr, Id>, vRandom: seq<Id>, m: map<Id, AddrInfo>, ids: seq<Id>, id: Id)
    requires EntriesOk(mapAddr, vRandom, m, ids) && id in m && EntryOk(mapAddr, vRandom, id, m[id])
    ensures EntriesOk(mapAddr, vRandom, m, ids + [id])
  {
  }

  lemma AllEntries(mapAddr: map<NetAddr, Id>, vRandom: seq<Id>, m: map<Id, AddrInfo>, ids: seq<Id>)
    requires EntriesOk(mapAddr, vRandom, m, ids) && forall id :: id in m ==> id in ids
    ensures forall id :: id in m ==> EntryOk(mapAddr, vRandom, id, m[id])
  {
  }

  lemma NotAllEntries(mapAddr: map<NetAddr, Id>, vRandom: seq<Id>, m: map<Id, AddrInfo>, id: Id)
    requires id in m && !EntryOk(mapAddr, vRandom, id, m[id])
    ensures !forall id :: id in m ==> EntryOk(mapAddr, vRandom, id, m[id])
  {
  }

  ghost predicate Entered(m: map<Id, AddrInfo>, mapAddr: map<NetAddr, Id>) {
    forall id :: id in m ==> m[id].addr.svc.ip in mapAddr
  }

  lemma AllEntered(t: Tables)
    requires AddrOk(t)
    ensures Entered(t.mapInfo, t.mapAddr)
  {
  }

  lemma EnteredOne(m: map<Id, AddrInfo>, mapAddr: map<NetAddr, Id>, id: Id)
    requires Entered(m, mapAddr) && id in m
    ensures m[id].addr.svc.ip in mapAddr
  {
  }

  ghost predicate SameLookups(m: map<NetAddr, Id>, n: map<NetAddr, Id>) { forall ip :: Lookup(n, ip) == Lookup(m, ip) }

  lemma LookupsSame(m: map<NetAddr, Id>)
    ensures SameLookups(m, m)
  {
  }

  lemma LookupsCompose(l: map<NetAddr, Id>, m: map<NetAddr, Id>, n: map<NetAddr, Id>)
    requires SameLookups(l, m) && SameLookups(m, n)
    ensures SameLookups(l, n)
  {
  }

  lemma SameLookup(m: map<NetAddr, Id>, n: map<NetAddr, Id>, vRandom: seq<Id>, id: Id, info: AddrInfo)
    requires SameLookups(m, n)
    ensures EntryOk(n, vRandom, id, info) == EntryOk(m, vRandom, id, info)
  {
  }

  predicate At(vv: seq<seq<Id>>, b: int, i: int) { 0 <= b < |vv| && 0 <= i < |vv[b]| }

  /** The buckets list members of the set only, none of them twice. */
  ghost predicate ListedApart(vv: seq<seq<Id>>, s: set<Id>) {
    && (forall b, i :: At(vv, b, i) ==> vv[b][i] in s)
    && (forall b, i, c, j :: At(vv, b, i) && At(vv, c, j) && vv[b][i] == vv[c][j] ==> b == c && i == j)
  }

  ghost predicate Listed(vv: seq<seq<Id>>, x: Id) { exists b, i :: At(vv, b, i) && vv[b][i] == x }

  function RefsOf(m: map<Id, AddrInfo>, id: Id): int { if id in m && !m[id].fInTried then m[id].nRefCount else 0 }

  /** Each tried entry is listed once among the tried buckets, and each other entry is in as many new
      buckets as it counts; nothing else is in any bucket. */
  ghost predicate BucketsPass(t: Tables) {
    && ListedApart(t.vvTried, TriedIds(t.mapInfo)) && (forall id :: id in TriedIds(t.mapInfo) ==> Listed(t.vvTried, id))
    && forall id :: |NewBucketsOf(t.vvNew, id)| == RefsOf(t.mapInfo, id)
  }

  /** What a successful check establishes. */
  ghost predicate Passes(t: Tables) {
    && |t.vRandom| == t.nTried + t.nNew
    && (forall id :: id in t.mapInfo ==> EntryOk(t.mapAddr, t.vRandom, id, t.mapInfo[id]))
    && CountsOk(t) && BucketsPass(t)
  }

  lemma EntriesCounted(t: Tables)
    requires forall id :: id in t.mapInfo ==> EntryOk(t.mapAddr, t.vRandom, id, t.mapInfo[id])
    ensures forall id :: id in t.mapInfo && !t.mapInfo[id].fInTried ==> t.mapInfo[id].nRefCount >= 1
  {
  }

  /** Consistent tables pass the check exactly if the times recorded are right. */
  lemma PassesIff(keys: Keys, t: Tables)
    requires Consistent(keys, t, {})
    ensures Passes(t) <==> TimesOk(t)
  {
    assert forall id :: id in t.mapInfo ==>
      (EntryOk(t.mapAddr, t.vRandom, id, t.mapInfo[id]) <==> TimeOk(t.mapInfo[id])) by {
      forall id | id in t.mapInfo ensures EntryOk(t.mapAddr, t.vRandom, id, t.mapInfo[id]) <==> TimeOk(t.mapInfo[id]) {
        EntryPasses(keys, t, id);
      }
    }
    BucketsAgree(keys, t);
    Population(t);
    hide EntryOk, TimeOk, Consistent, BucketsPass, CountsOk;
  }

  lemma EntryPasses(keys: Keys, t: Tables, id: Id)
    requires Consistent(keys, t, {}) && id in t.mapInfo
    ensures EntryOk(t.mapAddr, t.vRandom, id, t.mapInfo[id]) <==> TimeOk(t.mapInfo[id])
  {
    hide SizesOk, CountsOk, TimeOk;
  }

  lemma BucketsAgree(keys: Keys, t: Tables)
    requires Consistent(keys, t, {})
    ensures CountsOk(t) && BucketsPass(t)
  {
    hide SizesOk, AddrOk, RandomOk;
    TriedApart(keys, t);
    forall id | id in TriedIds(t.mapInfo) ensures Listed(t.vvTried, id) {
      var b := keys.TriedBucket(t.mapInfo[id].addr.svc);
      var i :| 0 <= i < |t.vvTried[b]| && t.vvTried[b][i] == id;
      assert At(t.vvTried, b, i);
    }
    forall id ensures |NewBucketsOf(t.vvNew, id)| == RefsOf(t.mapInfo, id) { BucketsNone(t.vvNew, id); }
  }

  lemma TriedApart(keys: Keys, t: Tables)
    requires TriedOk(keys, t)
    ensures ListedApart(t.vvTried, TriedIds(t.mapInfo))
  {
    forall b, i | At(t.vvTried, b, i) ensures t.vvTried[b][i] in TriedIds(t.mapInfo) {
      assert TriedAt(keys, t, b, t.vvTried[b][i]);
    }
    forall b, i, c, j | At(t.vvTried, b, i) && At(t.vvTried, c, j) && t.vvTried[b][i] == t.vvTried[c][j]
      ensures b == c && i == j
    {
      assert TriedAt(keys, t, b, t.vvTried[b][i]) && TriedAt(keys, t, c, t.vvTried[c][j]);
    }
  }

  /** The random order has one place per entry. */
  lemma Population(t: Tables)
    requires RandomOk(t) && CountsOk(t)
    ensures |t.vRandom| == t.nTried + t.nNew
  {
    assert |t.mapInfo.Keys| == t.nTried + t.nNew by {
      assert t.mapInfo.Keys == TriedIds(t.mapInfo) + NewIds(t.mapInfo);
    }
    Places(t, |t.vRandom|);
    assert forall id :: id in t.mapInfo ==> 0 <= t.mapInfo[id].nRandomPos < |t.vRandom|;
    assert t.mapInfo.Keys == set id | id in t.mapInfo && t.mapInfo[id].nRandomPos < |t.vRandom|;
  }

  lemma {:induction false} Places(t: Tables, n: nat)
    requires RandomOk(t) && n <= |t.vRandom|
    ensures |set id | id in t.mapInfo && t.mapInfo[id].nRandomPos < n| == n
  {
    var s := set id | id in t.mapInfo && t.mapInfo[id].nRandomPos < n;
    if n == 0 {
      assert forall id :: id in t.mapInfo ==> t.mapInfo[id].nRandomPos >= 0;
      assert s == {};
    } else {
      Places(t, n - 1);
      assert t.mapInfo[t.vRandom[n - 1]].nRandomPos == n - 1;
      forall id | id in t.mapInfo && t.mapInfo[id].nRandomPos == n - 1 ensures id == t.vRandom[n - 1] {
        assert t.vRandom[t.mapInfo[id].nRandomPos] == id;
      }
      var r := set id | id in t.mapInfo && t.mapInfo[id].nRandomPos < n - 1;
      assert s == r + {t.vRandom[n - 1]} && t.vRandom[n - 1] !in r;
    }
  }

  /** Tables that pass the check satisfy the invariants of the random order and of the new buckets. */
  lemma PassesMeans(t: Tables)
    requires Passes(t)
    ensures RandomOk(t) && NewOk(t, {}) && TimesOk(t)
  {
    assert TimesOk(t);
    PassesRandom(t);
    PassesNew(t);
    hide RandomOk, NewOk, TimesOk;
  }

  lemma PassesRandom(t: Tables)
    requires |t.vRandom| == t.nTried + t.nNew && CountsOk(t)
    requires forall id :: id in t.mapInfo ==> EntryOk(t.mapAddr, t.vRandom, id, t.mapInfo[id])
    ensures RandomOk(t)
  {
    var places := set id | id in t.mapInfo :: t.mapInfo[id].nRandomPos;
    assert t.mapInfo.Keys == TriedIds(t.mapInfo) + NewIds(t.mapInfo);
    Images(t.mapInfo, t.vRandom, t.mapInfo.Keys);
    Below(places, |t.vRandom|);
    forall p | 0 <= p < |t.vRandom| ensures t.vRandom[p] in t.mapInfo && t.mapInfo[t.vRandom[p]].nRandomPos == p {
      assert p in places;
    }
  }

  lemma PassesNew(t: Tables)
    requires BucketsPass(t) && forall id :: id in t.mapInfo ==> EntryOk(t.mapAddr, t.vRandom, id, t.mapInfo[id])
    ensures NewOk(t, {})
  {
    hide ListedApart, Listed, NewBucketsOf;
    forall b, id | 0 <= b < |t.vvNew| && id in t.vvNew[b] ensures id in t.mapInfo && !t.mapInfo[id].fInTried {
      BucketsNone(t.vvNew, id);
    }
  }

  lemma {:induction false} Images(m: map<Id, AddrInfo>, r: seq<Id>, s: set<Id>)
    requires s <= m.Keys && forall id :: id in m ==> 0 <= m[id].nRandomPos < |r| && r[m[id].nRandomPos] == id
    ensures |set id | id in s :: m[id].nRandomPos| == |s|
    decreases |s|
  {
    var image := set id | id in s :: m[id].nRandomPos;
    if s == {} {
      assert image == {};
    } else {
      SetOrder.HasElement(s);
      var x :| x in s;
      Images(m, r, s - {x});
      var rest := set id | id in s - {x} :: m[id].nRandomPos;
      assert m[x].nRandomPos !in rest;
      forall p ensures p in image <==> p in rest + {m[x].nRandomPos} {
        if p in image { var id :| id in s && m[id].nRandomPos == p; }
      }
      assert image == rest + {m[x].nRandomPos};
    }
  }

  /** A set of n numbers below n is all of them. */
  lemma {:induction false} Below(s: set<int>, n: nat)
    requires |s| == n && forall x :: x in s ==> 0 <= x < n
    ensures forall p :: 0 <= p < n ==> p in s
  {
    forall p | 0 <= p < n ensures p in s {
      if p !in s {
        assert s <= Range(n) - {p};
        Subset(s, Range(n) - {p});
      }
    }
  }

  function Range(n: nat): (s: set<int>)
    ensures |s| == n && forall x :: x in s <==> 0 <= x < n
  {
    if n == 0 then {} else Range(n - 1) + {n - 1}
  }

  lemma Subset(a: set<int>, b: set<int>)
    requires a <= b
    ensures |a| <= |b|
  {
    assert b == a + (b - a);
  }

  lemma BucketsTake(v: seq<set<Id>>, n: nat, id: Id)
    requires n < |v|
    ensures |NewBucketsOf(v[..n + 1], id)| == |NewBucketsOf(v[..n], id)| + if id in v[n] then 1 else 0
  {
    assert NewBucketsOf(v[..n + 1], id) == NewBucketsOf(v[..n], id) + if id in v[n] then {n} else {};
  }

  lemma BucketsGrow(v: seq<set<Id>>, n: nat, id: Id)
    requires n <= |v|
    ensures |NewBucketsOf(v[..n], id)| <= |NewBucketsOf(v, id)|
  {
    Subset(NewBucketsOf(v[..n], id), NewBucketsOf(v, id));
  }

  predicate Before(b: int, i: int, n: int, k: int) { b < n || (b == n && i < k) }

  /** Strikes every listed identifier off the set; fails on one that is not there. */
  method StrikeTried(vvTried: seq<seq<Id>>, s: set<Id>) returns (ok: bool, left: set<Id>)
    ensures ok == ListedApart(vvTried, s)
    ensures ok ==> left <= s && forall x :: x in s ==> (x in left <==> !Listed(vvTried, x))
  {
    hide Struck, ListedApart, Listed, At;
    left := s;
    var n := 0;
    StruckNothing(vvTried, s);
    while n < |vvTried|
      invariant 0 <= n <= |vvTried| && left <= s
      invariant Struck(vvTried, s, left, n, 0)
    {
      var k := 0;
      while k < |vvTried[n]|
        invariant 0 <= k <= |vvTried[n]| && left <= s
        invariant Struck(vvTried, s, left, n, k)
      {
        var x := vvTried[n][k];
        if x !in left {
          NotStruck(vvTried, s, left, n, k);
          return false, left;
        }
        StruckOne(vvTried, s, left, n, k);
        left := left - {x};
        k := k + 1;
      }
      StruckBucket(vvTried, s, left, n);
      n := n + 1;
    }
    StruckAll(vvTried, s, left);
    ok := true;
  }

  /** The identifiers listed before place k of bucket n have been struck off, each once. */
  ghost predicate Struck(vv: seq<seq<Id>>, s: set<Id>, left: set<Id>, n: int, k: int) {
    && (forall b, i :: At(vv, b, i) && Before(b, i, n, k) ==> vv[b][i] in s && vv[b][i] !in left)
    && (forall b, i, c, j ::
          At(vv, b, i) && At(vv, c, j) && Before(b, i, n, k) && Before(c, j, n, k) && vv[b][i] == vv[c][j] ==>
            b == c && i == j)
    && forall x :: x in s && x !in left ==> ListedBefore(vv, x, n, k)
  }

  ghost predicate ListedBefore(vv: seq<seq<Id>>, x: Id, n: int, k: int) {
    exists b, i :: At(vv, b, i) && Before(b, i, n, k) && vv[b][i] == x
  }

  lemma StruckNothing(vv: seq<seq<Id>>, s: set<Id>)
    ensures Struck(vv, s, s, 0, 0)
  {
  }

  lemma StruckOne(vv: seq<seq<Id>>, s: set<Id>, left: set<Id>, n: int, k: int)
    requires Struck(vv, s, left, n, k) && At(vv, n, k) && left <= s && vv[n][k] in left
    ensures Struck(vv, s, left - {vv[n][k]}, n, k + 1)
  {
    assert Before(n, k, n, k + 1);
    forall x | x in s && x !in left ensures ListedBefore(vv, x, n, k + 1) {
      assert ListedBefore(vv, x, n, k);
      var b, i :| At(vv, b, i) && Before(b, i, n, k) && vv[b][i] == x;
      assert Before(b, i, n, k + 1);
    }
  }

  lemma StruckBucket(vv: seq<seq<Id>>, s: set<Id>, left: set<Id>, n: int)
    requires 0 <= n < |vv| && Struck(vv, s, left, n, |vv[n]|)
    ensures Struck(vv, s, left, n + 1, 0)
  {
    assert forall b, i :: At(vv, b, i) ==> (Before(b, i, n, |vv[n]|) <==> Before(b, i, n + 1, 0));
    forall x | x in s && x !in left ensures ListedBefore(vv, x, n + 1, 0) {
      assert ListedBefore(vv, x, n, |vv[n]|);
      var b, i :| At(vv, b, i) && Before(b, i, n, |vv[n]|) && vv[b][i] == x;
      assert Before(b, i, n + 1, 0);
    }
  }

  lemma NotStruck(vv: seq<seq<Id>>, s: set<Id>, left: set<Id>, n: int, k: int)
    requires Struck(vv, s, left, n, k) && At(vv, n, k) && vv[n][k] !in left
    ensures !ListedApart(vv, s)
  {
    var x := vv[n][k];
    if x in s {
      assert ListedBefore(vv, x, n, k);
      var b, i :| At(vv, b, i) && Before(b, i, n, k) && vv[b][i] == x;
      assert (b, i) != (n, k);
    }
  }

  lemma StruckAll(vv: seq<seq<Id>>, s: set<Id>, left: set<Id>)
    requires Struck(vv, s, left, |vv|, 0) && left <= s
    ensures ListedApart(vv, s) && forall x :: x in s ==> (x in left <==> !Listed(vv, x))
  {
    assert forall b, i :: At(vv, b, i) ==> Before(b, i, |vv|, 0);
    forall x | x in s && x !in left ensures Listed(vv, x) {
      assert ListedBefore(vv, x, |vv|, 0);
    }
  }

  function Refs(m: map<Id, int>, id: Id): int { if id in m then m[id] else 0 }

  /** Counts the members of one bucket down; fails on an entry with none left. */
  method StrikeBucket(bucket: set<Id>, m: map<Id, int>) returns (ok: bool, left: map<Id, int>)
    requires forall id :: id in m ==> m[id] >= 1
    ensures ok <==> forall id :: id in bucket ==> id in m
    ensures ok ==> forall id :: Refs(left, id) == Refs(m, id) - if id in bucket then 1 else 0
    ensures ok ==> forall id :: id in left ==> left[id] >= 1
  {
    hide SetOrder.Ascending;
    left := m;
    var order := SetOrder.Ascending(bucket);
    var k := 0;
    while k < |order|
      invariant 0 <= k <= |order| && forall id :: id in left ==> left[id] >= 1
      invariant forall id :: Refs(left, id) == Refs(m, id) - if id in order[..k] then 1 else 0
    {
      var x := order[k];
      assert x in bucket && x !in order[..k] && order[..k + 1] == order[..k] + [x];
      assert Refs(left, x) == Refs(m, x);
      if x !in left {
        return false, left;
      }
      ghost var l := left;
      left := left[x := left[x] - 1];
      if left[x] == 0 { left := left - {x}; }
      assert forall id :: Refs(left, id) == Refs(l, id) - if id == x then 1 else 0;
      k := k + 1;
    }
    assert order[..k] == order;
    forall id | id in bucket ensures id in m {
      assert id in order && Refs(left, id) == Refs(m, id) - 1;
    }
    ok := true;
  }

  /** Counts every membership of a new bucket down; fails on an entry with none left. */
  method StrikeNew(vvNew: seq<set<Id>>, m: map<Id, int>) returns (ok: bool, left: map<Id, int>)
    requires forall id :: id in m ==> m[id] >= 1
    ensures ok <==> forall id :: |NewBucketsOf(vvNew, id)| <= Refs(m, id)
    ensures ok ==> forall id :: id in left <==> |NewBucketsOf(vvNew, id)| < Refs(m, id)
  {
    hide NewBucketsOf;
    left := m;
    var n := 0;
    assert forall id :: |NewBucketsOf(vvNew[..0], id)| == 0 by { NoBuckets(vvNew); }
    while n < |vvNew|
      invariant 0 <= n <= |vvNew| && forall id :: id in left ==> left[id] >= 1
      invariant forall id :: |NewBucketsOf(vvNew[..n], id)| + Refs(left, id) == Refs(m, id)
    {
      ghost var l := left;
      var ok';
      ok', left := StrikeBucket(vvNew[n], left);
      if !ok' {
        ghost var x :| x in vvNew[n] && x !in l;
        BucketsTake(vvNew, n, x);
        BucketsGrow(vvNew, n + 1, x);
        return false, left;
      }
      forall id
        ensures |NewBucketsOf(vvNew[..n + 1], id)| + Refs(left, id) == Refs(m, id)
      {
        BucketsTake(vvNew, n, id);
      }
      n := n + 1;
    }
    assert vvNew[..n] == vvNew;
    ok := true;
  }

  lemma NoBuckets(v: seq<set<Id>>)
    ensures forall id :: |NewBucketsOf(v[..0], id)| == 0
  {
    forall id ensures |NewBucketsOf(v[..0], id)| == 0 { BucketsNone(v[..0], id); }
  }
}
