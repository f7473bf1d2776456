/** Every operation of module AddrTables keeps the tables consistent. */
module AddrLaws {
  import opened AddrTables

  /* ---- one condition at a time ---- */

  /** The fields of an entry that tie it to the buckets and to its address. */
  predicate Alike(a: AddrInfo, b: AddrInfo) {
    a.addr.svc == b.addr.svc && a.nRefCount == b.nRefCount && a.fInTried == b.fInTried
  }

  ghost predicate SameKeys(m: map<Id, AddrInfo>, n: map<Id, AddrInfo>) {
    m.Keys == n.Keys
  }

  /** m and n have the same entries, alike, apart from id. */
  ghost predicate AlikeExcept(m: map<Id, AddrInfo>, n: map<Id, AddrInfo>, id: Id) {
    && (forall k :: k != id ==> (k in m <==> k in n))
    && (forall k :: k in m && k in n && k != id ==> Alike(m[k], n[k]))
  }

  lemma AddrFrame(t: Tables, s: Tables)
    requires AddrOk(t) && s.mapAddr == t.mapAddr && SameKeys(s.mapInfo, t.mapInfo)
    requires forall k :: k in t.mapInfo ==> s.mapInfo[k].addr.svc == t.mapInfo[k].addr.svc
    ensures AddrOk(s)
  {
    assert forall k :: k in s.mapInfo <==> k in t.mapInfo;
    forall ip | ip in s.mapAddr ensures s.mapAddr[ip] in s.mapInfo && s.mapInfo[s.mapAddr[ip]].addr.svc.ip == ip {
      var id := t.mapAddr[ip];
      assert id in t.mapInfo && s.mapInfo[id].addr.svc == t.mapInfo[id].addr.svc;
    }
  }

  lemma RandomFrame(t: Tables, s: Tables)
    requires RandomOk(t) && s.vRandom == t.vRandom && SameKeys(s.mapInfo, t.mapInfo)
    requires forall k :: k in t.mapInfo ==> s.mapInfo[k].nRandomPos == t.mapInfo[k].nRandomPos
    ensures RandomOk(s)
  {
    assert forall k :: k in s.mapInfo <==> k in t.mapInfo;
    forall p | 0 <= p < |s.vRandom| ensures s.vRandom[p] in s.mapInfo && s.mapInfo[s.vRandom[p]].nRandomPos == p {
      var id := t.vRandom[p];
      assert id in t.mapInfo && s.mapInfo[id].nRandomPos == t.mapInfo[id].nRandomPos;
    }
  }

  /** The tried buckets do not notice what happens to an entry that is untried before and after. */
  lemma TriedFrame(keys: Keys, t: Tables, s: Tables, id: Id)
    requires TriedOk(keys, t) && s.vvTried == t.vvTried && AlikeExcept(t.mapInfo, s.mapInfo, id)
    requires id in t.mapInfo && t.mapInfo[id].fInTried ==> id in s.mapInfo && Alike(t.mapInfo[id], s.mapInfo[id])
    requires id in s.mapInfo && s.mapInfo[id].fInTried ==> id in t.mapInfo && Alike(t.mapInfo[id], s.mapInfo[id])
    ensures TriedOk(keys, s)
  {
    forall b, i | 0 <= b < |s.vvTried| && 0 <= i < |s.vvTried[b]| ensures TriedAt(keys, s, b, s.vvTried[b][i]) {
      assert TriedAt(keys, t, b, t.vvTried[b][i]);
    }
  }

  lemma CountsFrame(m: map<Id, AddrInfo>, n: map<Id, AddrInfo>, id: Id)
    requires AlikeExcept(m, n, id)
    ensures TriedIds(n) == if id in n && n[id].fInTried then TriedIds(m) + {id} else TriedIds(m) - {id}
    ensures NewIds(n) == if id in n && !n[id].fInTried then NewIds(m) + {id} else NewIds(m) - {id}
  {
    forall k | k != id ensures k in TriedIds(n) <==> k in TriedIds(m) ensures k in NewIds(n) <==> k in NewIds(m) {
      assert k in m && k in n ==> Alike(m[k], n[k]);
    }
  }

  /** The new buckets change in at most the membership of id. */
  lemma NewFrame(t: Tables, s: Tables, id: Id, pending: set<Id>, pending': set<Id>)
    requires NewOk(t, pending) && AlikeExcept(t.mapInfo, s.mapInfo, id)
    requires |s.vvNew| == |t.vvNew| && forall b :: 0 <= b < |t.vvNew| ==> s.vvNew[b] - {id} == t.vvNew[b] - {id}
    requires pending' - {id} == pending - {id}
    requires id in s.mapInfo && !s.mapInfo[id].fInTried ==>
      && 1 <= s.mapInfo[id].nRefCount <= NEW_BUCKETS_PER_ADDRESS
      && s.mapInfo[id].nRefCount == |NewBucketsOf(s.vvNew, id)| + if id in pending' then 1 else 0
    requires !(id in s.mapInfo && !s.mapInfo[id].fInTried) ==> forall b :: 0 <= b < |s.vvNew| ==> id !in s.vvNew[b]
    ensures NewOk(s, pending')
  {
    forall b, k | 0 <= b < |s.vvNew| && k in s.vvNew[b] ensures k in s.mapInfo && !s.mapInfo[k].fInTried {
      if k != id {
        assert k in s.vvNew[b] - {id};
      }
    }
    forall k | k in s.mapInfo && k != id && !s.mapInfo[k].fInTried
      ensures 1 <= s.mapInfo[k].nRefCount <= NEW_BUCKETS_PER_ADDRESS
      ensures s.mapInfo[k].nRefCount == |NewBucketsOf(s.vvNew, k)| + if k in pending' then 1 else 0
    {
      OtherBuckets(t.vvNew, s.vvNew, id, k);
      assert k in t.mapInfo && Alike(t.mapInfo[k], s.mapInfo[k]);
      assert k in pending' - {id} <==> k in pending - {id};
    }
  }

  lemma OtherBuckets(v: seq<set<Id>>, w: seq<set<Id>>, id: Id, k: Id)
    requires |w| == |v| && (forall b :: 0 <= b < |v| ==> w[b] - {id} == v[b] - {id}) && k != id
    ensures NewBucketsOf(w, k) == NewBucketsOf(v, k)
  {
    forall b | 0 <= b < |v| ensures k in w[b] <==> k in v[b] {
      assert k in w[b] - {id} <==> k in v[b] - {id};
    }
  }

  /* ---- membership of the new buckets ---- */

  lemma BucketsInsert(vvNew: seq<set<Id>>, b: nat, id: Id)
    requires b < |vvNew| && id !in vvNew[b]
    ensures |NewBucketsOf(vvNew[b := vvNew[b] + {id}], id)| == |NewBucketsOf(vvNew, id)| + 1
  {
    assert NewBucketsOf(vvNew[b := vvNew[b] + {id}], id) == NewBucketsOf(vvNew, id) + {b};
  }

  lemma BucketsRemove(vvNew: seq<set<Id>>, b: nat, id: Id)
    requires b < |vvNew| && id in vvNew[b]
    ensures |NewBucketsOf(vvNew[b := vvNew[b] - {id}], id)| == |NewBucketsOf(vvNew, id)| - 1
  {
    assert NewBucketsOf(vvNew[b := vvNew[b] - {id}], id) == NewBucketsOf(vvNew, id) - {b};
  }

  lemma BucketsNone(vvNew: seq<set<Id>>, id: Id)
    ensures |NewBucketsOf(vvNew, id)| == 0 <==> forall b :: 0 <= b < |vvNew| ==> id !in vvNew[b]
  {
    if b :| 0 <= b < |vvNew| && id in vvNew[b] {
      assert b in NewBucketsOf(vvNew, id);
    } else {
      assert NewBucketsOf(vvNew, id) == {};
    }
  }

  /* ---- operations that touch one entry's statistics, or the random order ---- */

  lemma StatisticsKeep(keys: Keys, t: Tables, pending: set<Id>, id: Id, info: AddrInfo)
    requires Consistent(keys, t, pending) && id in t.mapInfo && SameBooks(t.mapInfo[id], info)
    ensures Consistent(keys, SetInfo(t, id, info), pending)
  {
    TriedUncounted(keys, t);
    hide NewOk, TriedOk, AddrOk, RandomOk;
    var s := SetInfo(t, id, info);
    EntriesFrame(keys, t, s, pending);
    RandomFrame(t, s);
  }

  /** Everything but the random order, when entries stay alike and nothing else moves. */
  lemma EntriesFrame(keys: Keys, t: Tables, s: Tables, pending: set<Id>)
    requires Consistent(keys, t, pending)
    requires s == t.(mapInfo := s.mapInfo, vRandom := s.vRandom)
    requires SameKeys(s.mapInfo, t.mapInfo) && forall k :: k in t.mapInfo ==> Alike(t.mapInfo[k], s.mapInfo[k])
    ensures RandomOk(s) ==> Consistent(keys, s, pending)
  {
    hide NewOk, TriedOk, AddrOk, RandomOk, SizesOk, CountsOk;
    EntriesBuckets(keys, t, s, pending);
    EntriesIndexes(keys, t, s, pending);
  }

  lemma EntriesBuckets(keys: Keys, t: Tables, s: Tables, pending: set<Id>)
    requires SizesOk(t) && NewOk(t, pending) && TriedOk(keys, t)
    requires s == t.(mapInfo := s.mapInfo, vRandom := s.vRandom)
    requires SameKeys(s.mapInfo, t.mapInfo) && forall k :: k in t.mapInfo ==> Alike(t.mapInfo[k], s.mapInfo[k])
    ensures NewOk(s, pending) && TriedOk(keys, s)
  {
    NoNegativeIds(t, pending);
    hide NewOk, TriedOk, SizesOk;
    AlikeAll(t.mapInfo, s.mapInfo, -1);
    TriedFrame(keys, t, s, -1);
    NewFrame(t, s, -1, pending, pending);
  }

  lemma EntriesIndexes(keys: Keys, t: Tables, s: Tables, pending: set<Id>)
    requires SizesOk(t) && AddrOk(t) && NewOk(t, pending) && CountsOk(t)
    requires s == t.(mapInfo := s.mapInfo, vRandom := s.vRandom)
    requires SameKeys(s.mapInfo, t.mapInfo) && forall k :: k in t.mapInfo ==> Alike(t.mapInfo[k], s.mapInfo[k])
    ensures SizesOk(s) && AddrOk(s) && CountsOk(s)
  {
    NoNegativeIds(t, pending);
    hide NewOk, AddrOk, CountsOk;
    AddrFrame(t, s);
    SamePopulation(t.mapInfo, s.mapInfo);
    assert CountsOk(s) by { SameCounts(t, s); }
  }

  lemma SamePopulation(m: map<Id, AddrInfo>, n: map<Id, AddrInfo>)
    requires SameKeys(n, m) && forall k :: k in m ==> Alike(m[k], n[k])
    ensures TriedIds(n) == TriedIds(m) && NewIds(n) == NewIds(m)
  {
    forall k ensures k in TriedIds(n) <==> k in TriedIds(m) ensures k in NewIds(n) <==> k in NewIds(m) {
      assert (k in m <==> k in n) && (k in m ==> Alike(m[k], n[k]));
    }
  }

  lemma SameCounts(t: Tables, s: Tables)
    requires CountsOk(t) && s.nTried == t.nTried && s.nNew == t.nNew
    requires TriedIds(s.mapInfo) == TriedIds(t.mapInfo) && NewIds(s.mapInfo) == NewIds(t.mapInfo)
    ensures CountsOk(s)
  {
  }

  lemma AlikeAll(m: map<Id, AddrInfo>, n: map<Id, AddrInfo>, id: Id)
    requires SameKeys(n, m) && forall k :: k in m ==> Alike(m[k], n[k])
    ensures AlikeExcept(m, n, id)
  {
    assert forall k :: k in n <==> k in m;
  }

  lemma NoNegativeIds(t: Tables, pending: set<Id>)
    requires SizesOk(t) && NewOk(t, pending)
    ensures -1 !in t.mapInfo && forall b :: 0 <= b < |t.vvNew| ==> -1 !in t.vvNew[b]
  {
  }

  lemma SwapKeeps(keys: Keys, t: Tables, pending: set<Id>, p: nat, q: nat)
    requires Consistent(keys, t, pending) && p < |t.vRandom| && q < |t.vRandom|
    ensures Consistent(keys, SwapRandom(t, p, q), pending)
  {
    SwapRandomOk(t, p, q);
    hide NewOk, AddrOk, RandomOk;
    var s := SwapRandom(t, p, q);
    EntriesFrame(keys, t, s, pending);
  }

  lemma SwapRandomOk(t: Tables, p: nat, q: nat)
    requires RandomOk(t) && p < |t.vRandom| && q < |t.vRandom|
    ensures RandomOk(SwapRandom(t, p, q))
    ensures SameKeys(SwapRandom(t, p, q).mapInfo, t.mapInfo)
    ensures forall k :: k in t.mapInfo ==>
      SwapRandom(t, p, q).mapInfo[k] == t.mapInfo[k].(nRandomPos := SwapRandom(t, p, q).mapInfo[k].nRandomPos)
  {
    SwapRandomPlaces(t, p, q);
    hide SwapRandom, RandomOk;
    PlacesOk(t, SwapRandom(t, p, q), p, q);
  }

  lemma PlacesOk(t: Tables, s: Tables, p: nat, q: nat)
    requires RandomOk(t) && p < |t.vRandom| && q < |t.vRandom| && SameKeys(s.mapInfo, t.mapInfo)
    requires forall k :: k in t.mapInfo ==> s.mapInfo[k].nRandomPos == Swapped(t.mapInfo[k].nRandomPos, p, q)
    requires |s.vRandom| == |t.vRandom|
    requires forall i :: 0 <= i < |t.vRandom| ==> s.vRandom[i] == t.vRandom[Swapped(i, p, q)]
    ensures RandomOk(s)
  {
    assert forall k :: k in s.mapInfo <==> k in t.mapInfo;
    forall i | 0 <= i < |s.vRandom| ensures s.vRandom[i] in s.mapInfo && s.mapInfo[s.vRandom[i]].nRandomPos == i {
      assert t.vRandom[Swapped(i, p, q)] in t.mapInfo;
    }
  }

  function Swapped(x: int, p: int, q: int): int { if x == p then q else if x == q then p else x }

  lemma SwapRandomPlaces(t: Tables, p: nat, q: nat)
    requires RandomOk(t) && p < |t.vRandom| && q < |t.vRandom|
    ensures var s := SwapRandom(t, p, q);
      && SameKeys(s.mapInfo, t.mapInfo)
      && (forall k :: k in t.mapInfo ==>
            s.mapInfo[k] == t.mapInfo[k].(nRandomPos := Swapped(t.mapInfo[k].nRandomPos, p, q)))
      && |s.vRandom| == |t.vRandom|
      && forall i :: 0 <= i < |t.vRandom| ==> s.vRandom[i] == t.vRandom[Swapped(i, p, q)]
  {
    var s := SwapRandom(t, p, q);
    assert forall k :: k in s.mapInfo <==> k in t.mapInfo;
  }

  /* ---- adding ---- */

  /** A new entry, counted once and waiting for its first bucket. */
  function CreateRef(t: Tables, addr: Address, source: NetAddr, nTime: nat): Tables {
    var c := Create(t, addr, source);
    var info := c.mapInfo[t.nIdCount].(addr := addr.(nTime := nTime), nRefCount := 1);
    SetInfo(c.(nNew := c.nNew + 1), t.nIdCount, info)
  }

  lemma CreateKeeps(keys: Keys, t: Tables, addr: Address, source: NetAddr, nTime: nat)
    requires Consistent(keys, t, {}) && addr.svc.ip !in t.mapAddr
    ensures Consistent(keys, CreateRef(t, addr, source, nTime), {t.nIdCount})
  {
    var id := t.nIdCount;
    var s := CreateRef(t, addr, source, nTime);
    CreateIndexes(t, addr, source, nTime);
    hide AddrOk, RandomOk, TriedOk, NewOk, CountsOk, CreateRef, SizesOk, AlikeExcept;
    CreatePopulation(t, s, id);
    CreateBuckets(keys, t, s, id);
  }

  lemma CreatePopulation(t: Tables, s: Tables, id: Id)
    requires CountsOk(t) && id !in t.mapInfo && id in s.mapInfo && !s.mapInfo[id].fInTried
    requires AlikeExcept(t.mapInfo, s.mapInfo, id) && s.nTried == t.nTried && s.nNew == t.nNew + 1
    ensures CountsOk(s)
  {
    CountsFrame(t.mapInfo, s.mapInfo, id);
    assert TriedIds(t.mapInfo) - {id} == TriedIds(t.mapInfo);
  }

  lemma CreateBuckets(keys: Keys, t: Tables, s: Tables, id: Id)
    requires NewOk(t, {}) && TriedOk(keys, t) && id !in t.mapInfo && id in s.mapInfo
    requires !s.mapInfo[id].fInTried && s.mapInfo[id].nRefCount == 1
    requires AlikeExcept(t.mapInfo, s.mapInfo, id) && s.vvTried == t.vvTried && s.vvNew == t.vvNew
    ensures NewOk(s, {id}) && TriedOk(keys, s)
  {
    NotInBuckets(t, id);
    hide NewOk, TriedOk;
    BucketsNone(t.vvNew, id);
    NewFrame(t, s, id, {}, {id});
    TriedFrame(keys, t, s, id);
  }

  lemma NotInBuckets(t: Tables, id: Id)
    requires NewOk(t, {}) && id !in t.mapInfo
    ensures forall b :: 0 <= b < |t.vvNew| ==> id !in t.vvNew[b]
  {
  }

  lemma CreateIndexes(t: Tables, addr: Address, source: NetAddr, nTime: nat)
    requires SizesOk(t) && AddrOk(t) && RandomOk(t) && addr.svc.ip !in t.mapAddr
    ensures var id, s := t.nIdCount, CreateRef(t, addr, source, nTime);
      && AddrOk(s) && RandomOk(s) && SizesOk(s)
      && s == t.(nIdCount := id + 1, mapInfo := s.mapInfo, mapAddr := s.mapAddr, vRandom := s.vRandom,
                 nNew := t.nNew + 1)
      && id !in t.mapInfo && id in s.mapInfo && s.mapInfo == t.mapInfo[id := s.mapInfo[id]]
      && s.mapInfo[id] == AddrInfo(addr.(nTime := nTime), source, 0, 0, 0, 1, false, |t.vRandom|)
      && AlikeExcept(t.mapInfo, s.mapInfo, id)
  {
    var id, s := t.nIdCount, CreateRef(t, addr, source, nTime);
    assert s.mapInfo == t.mapInfo[id := s.mapInfo[id]];
    assert AddrOk(s) by { hide RandomOk; }
    assert RandomOk(s) by { hide AddrOk; }
  }

  lemma RefKeeps(keys: Keys, t: Tables, id: Id)
    requires Consistent(keys, t, {}) && id in t.mapInfo && !t.mapInfo[id].fInTried
    requires t.mapInfo[id].nRefCount < NEW_BUCKETS_PER_ADDRESS
    ensures Consistent(keys, Ref(t, id), {id})
  {
    hide AddrOk, RandomOk, NewOk, TriedOk, CountsOk;
    var s := Ref(t, id);
    AddrFrame(t, s);
    RandomFrame(t, s);
    RefBuckets(keys, t, id);
    RefPopulation(t, id);
  }

  lemma RefBuckets(keys: Keys, t: Tables, id: Id)
    requires NewOk(t, {}) && TriedOk(keys, t) && id in t.mapInfo && !t.mapInfo[id].fInTried
    requires t.mapInfo[id].nRefCount < NEW_BUCKETS_PER_ADDRESS
    ensures NewOk(Ref(t, id), {id}) && TriedOk(keys, Ref(t, id))
  {
    assert t.mapInfo[id].nRefCount == |NewBucketsOf(t.vvNew, id)|;
    hide TriedOk;
    NewFrame(t, Ref(t, id), id, {}, {id});
    TriedFrame(keys, t, Ref(t, id), id);
  }

  lemma RefPopulation(t: Tables, id: Id)
    requires CountsOk(t) && id in t.mapInfo && !t.mapInfo[id].fInTried
    ensures CountsOk(Ref(t, id))
  {
    CountsFrame(t.mapInfo, Ref(t, id).mapInfo, id);
    UntriedCounted(t, id);
  }

  lemma UntriedCounted(t: Tables, id: Id)
    requires id in t.mapInfo && !t.mapInfo[id].fInTried
    ensures TriedIds(t.mapInfo) - {id} == TriedIds(t.mapInfo) && NewIds(t.mapInfo) + {id} == NewIds(t.mapInfo)
  {
  }

  lemma InsertKeeps(keys: Keys, t: Tables, b: nat, id: Id)
    requires Consistent(keys, t, {id}) && id in t.mapInfo && !t.mapInfo[id].fInTried
    requires b < |t.vvNew| && id !in t.vvNew[b] && |t.vvNew[b]| < NEW_BUCKET_SIZE
    ensures Consistent(keys, InsertNew(t, b, id), {})
  {
    hide AddrOk, RandomOk, TriedOk;
    var s := InsertNew(t, b, id);
    AddrFrame(t, s);
    RandomFrame(t, s);
    BucketsInsert(t.vvNew, b, id);
    NewFrame(t, s, id, {id}, {});
    TriedFrame(keys, t, s, id);
  }

  lemma TriedUncounted(keys: Keys, t: Tables)
    requires TriedOk(keys, t)
    ensures forall k :: k in t.mapInfo && t.mapInfo[k].fInTried ==> t.mapInfo[k].nRefCount == 0
  {
  }

  /* ---- removing ---- */

  lemma DeleteIndexes(t: Tables, id: Id)
    requires id in t.mapInfo && RandomOk(t) && AddrOk(t)
    ensures RandomOk(Delete(t, id)) && AddrOk(Delete(t, id))
    ensures forall k :: k in Delete(t, id).mapInfo <==> k in t.mapInfo && k != id
    ensures var d := Delete(t, id);
      d == t.(mapInfo := d.mapInfo, mapAddr := d.mapAddr, vRandom := d.vRandom, nNew := t.nNew - 1)
    ensures forall k :: k in t.mapInfo && k != id ==>
      Delete(t, id).mapInfo[k] == t.mapInfo[k].(nRandomPos := Delete(t, id).mapInfo[k].nRandomPos)
  {
    var s := Lasted(t, id);
    LastedIndexes(t, id);
    DeleteFields(t, id);
    hide RandomOk, AddrOk, Delete, Lasted, SameKeys;
    CutRandom(s, Delete(t, id), id);
    CutAddr(s, Delete(t, id), id);
  }

  /** The entry is exchanged to the end of the random order. */
  function Lasted(t: Tables, id: Id): Tables
    requires id in t.mapInfo && RandomOk(t)
  {
    SwapRandom(t, t.mapInfo[id].nRandomPos, |t.vRandom| - 1)
  }

  lemma LastedIndexes(t: Tables, id: Id)
    requires id in t.mapInfo && RandomOk(t) && AddrOk(t)
    ensures var s := Lasted(t, id);
      && RandomOk(s) && AddrOk(s) && s.mapInfo.Keys == t.mapInfo.Keys
      && |s.vRandom| > 0 && s.vRandom[|s.vRandom| - 1] == id
      && s == t.(mapInfo := s.mapInfo, vRandom := s.vRandom)
      && forall k :: k in t.mapInfo ==> s.mapInfo[k] == t.mapInfo[k].(nRandomPos := s.mapInfo[k].nRandomPos)
  {
    LastedFields(t, id);
    hide AddrOk, Lasted, RandomOk;
    AddrFrame(t, Lasted(t, id));
  }

  lemma LastedFields(t: Tables, id: Id)
    requires id in t.mapInfo && RandomOk(t)
    ensures var s := Lasted(t, id);
      && RandomOk(s) && SameKeys(s.mapInfo, t.mapInfo)
      && |s.vRandom| > 0 && s.vRandom[|s.vRandom| - 1] == id
      && s == t.(mapInfo := s.mapInfo, vRandom := s.vRandom)
      && forall k :: k in t.mapInfo ==> s.mapInfo[k] == t.mapInfo[k].(nRandomPos := s.mapInfo[k].nRandomPos)
  {
    var p, last := t.mapInfo[id].nRandomPos, |t.vRandom| - 1;
    SwapRandomOk(t, p, last);
    SwapRandomPlaces(t, p, last);
    hide RandomOk;
  }

  lemma DeleteFields(t: Tables, id: Id)
    requires id in t.mapInfo && RandomOk(t)
    ensures var s, d := Lasted(t, id), Delete(t, id);
      && |s.vRandom| > 0 && d.vRandom == s.vRandom[..|s.vRandom| - 1]
      && d.mapAddr == s.mapAddr - {t.mapInfo[id].addr.svc.ip} && d.mapInfo == s.mapInfo - {id}
      && d == s.(mapInfo := d.mapInfo, mapAddr := d.mapAddr, vRandom := d.vRandom, nNew := s.nNew - 1)
  {
  }

  lemma CutRandom(s: Tables, d: Tables, id: Id)
    requires RandomOk(s) && |s.vRandom| > 0 && s.vRandom[|s.vRandom| - 1] == id
    requires d.vRandom == s.vRandom[..|s.vRandom| - 1] && d.mapInfo == s.mapInfo - {id}
    ensures RandomOk(d)
  {
    forall k | k in d.mapInfo
      ensures 0 <= d.mapInfo[k].nRandomPos < |d.vRandom| && d.vRandom[d.mapInfo[k].nRandomPos] == k
    {
      assert k in s.mapInfo && d.mapInfo[k] == s.mapInfo[k] && k != id;
    }
  }

  lemma CutAddr(s: Tables, d: Tables, id: Id)
    requires AddrOk(s) && id in s.mapInfo
    requires d.mapAddr == s.mapAddr - {s.mapInfo[id].addr.svc.ip} && d.mapInfo == s.mapInfo - {id}
    ensures AddrOk(d)
  {
    forall k | k in d.mapInfo
      ensures d.mapInfo[k].addr.svc.ip in d.mapAddr && d.mapAddr[d.mapInfo[k].addr.svc.ip] == k
    {
      assert k in s.mapInfo;
    }
    forall a | a in d.mapAddr ensures d.mapAddr[a] in d.mapInfo && d.mapInfo[d.mapAddr[a]].addr.svc.ip == a {
      assert a in s.mapAddr;
    }
  }

  lemma UnrefKeeps(keys: Keys, t: Tables, pending: set<Id>, b: nat, id: Id)
    requires Consistent(keys, t, pending) && b < |t.vvNew| && id in t.vvNew[b] && id !in pending
    ensures Consistent(keys, Unref(t, b, id), pending)
  {
    var u := Unref(t, b, id);
    UnrefMember(t, pending, b, id);
    UnrefIndexes(t, b, id);
    hide AddrOk, RandomOk, TriedOk, NewOk, Unref, SizesOk;
    assert TriedOk(keys, u) by {
      TriedUncounted(keys, t);
      TriedFrame(keys, t, u, id);
    }
    hide AlikeExcept;
    assert CountsOk(u) by {
      UntriedCounted(t, id);
      CountsFrame(t.mapInfo, u.mapInfo, id);
    }
    hide CountsOk;
    assert NewOk(u, pending) by {
      BucketsRemove(t.vvNew, b, id);
      BucketsNone(u.vvNew, id);
      NewFrame(t, u, id, pending, pending);
    }
  }

  lemma UnrefMember(t: Tables, pending: set<Id>, b: nat, id: Id)
    requires NewOk(t, pending) && b < |t.vvNew| && id in t.vvNew[b] && id !in pending
    ensures id in t.mapInfo && !t.mapInfo[id].fInTried && 1 <= t.mapInfo[id].nRefCount <= NEW_BUCKETS_PER_ADDRESS
    ensures t.mapInfo[id].nRefCount == |NewBucketsOf(t.vvNew, id)|
  {
  }

  /** The entry stays, counted once less, or is gone from every index. */
  lemma UnrefIndexes(t: Tables, b: nat, id: Id)
    requires RandomOk(t) && AddrOk(t) && SizesOk(t) && b < |t.vvNew| && id in t.mapInfo
    ensures var u := Unref(t, b, id); var n := t.mapInfo[id].nRefCount - 1;
      && RandomOk(u) && AddrOk(u) && SizesOk(u) && AlikeExcept(t.mapInfo, u.mapInfo, id)
      && u.vvTried == t.vvTried && u.nTried == t.nTried && u.nIdCount == t.nIdCount
      && u.vvNew == t.vvNew[b := t.vvNew[b] - {id}] && u.nNew == (if n == 0 then t.nNew - 1 else t.nNew)
      && (n == 0 ==> id !in u.mapInfo)
      && (n != 0 ==> id in u.mapInfo && u.mapInfo[id] == t.mapInfo[id].(nRefCount := n))
      && (forall k :: k in u.mapInfo && k != id ==>
            u.mapInfo[k] == t.mapInfo[k].(nRandomPos := u.mapInfo[k].nRandomPos))
  {
    var u := Unref(t, b, id);
    UncountedIndexes(t, id);
    if t.mapInfo[id].nRefCount == 1 {
      UnrefGoes(t, b, id);
    } else {
      UnrefStays(t, b, id);
    }
    hide AddrOk, RandomOk, SizesOk, Unref;
    UnrefSizes(t, u, b, id);
  }

  /** The tables with the entry counted once less. */
  function Uncounted(t: Tables, id: Id): Tables
    requires id in t.mapInfo
  {
    SetInfo(t, id, t.mapInfo[id].(nRefCount := t.mapInfo[id].nRefCount - 1))
  }

  lemma UncountedIndexes(t: Tables, id: Id)
    requires id in t.mapInfo && AddrOk(t) && RandomOk(t)
    ensures AddrOk(Uncounted(t, id)) && RandomOk(Uncounted(t, id))
  {
    hide AddrOk, RandomOk;
    AddrFrame(t, Uncounted(t, id));
    RandomFrame(t, Uncounted(t, id));
  }

  lemma UnrefGoes(t: Tables, b: nat, id: Id)
    requires b < |t.vvNew| && id in t.mapInfo && t.mapInfo[id].nRefCount == 1
    requires RandomOk(t) && RandomOk(Uncounted(t, id)) && AddrOk(Uncounted(t, id))
    ensures var u := Unref(t, b, id);
      && RandomOk(u) && AddrOk(u) && id !in u.mapInfo && AlikeExcept(t.mapInfo, u.mapInfo, id)
      && u == t.(mapInfo := u.mapInfo, mapAddr := u.mapAddr, vRandom := u.vRandom,
                 vvNew := t.vvNew[b := t.vvNew[b] - {id}], nNew := t.nNew - 1)
      && forall k :: k in u.mapInfo && k != id ==> u.mapInfo[k] == t.mapInfo[k].(nRandomPos := u.mapInfo[k].nRandomPos)
  {
    var s, u := Uncounted(t, id), Unref(t, b, id);
    DeleteIndexes(s, id);
    assert u == Delete(s, id).(vvNew := t.vvNew[b := t.vvNew[b] - {id}]) by { hide AddrOk; UnrefDeletes(t, b, id); }
    hide Delete, Unref, AddrOk, RandomOk;
    SameIndexes(Delete(s, id), u);
  }

  lemma UnrefDeletes(t: Tables, b: nat, id: Id)
    requires b < |t.vvNew| && id in t.mapInfo && t.mapInfo[id].nRefCount == 1
    requires RandomOk(t) && RandomOk(Uncounted(t, id))
    ensures Delete(Uncounted(t, id), id).vvNew == t.vvNew
    ensures Unref(t, b, id) == Delete(Uncounted(t, id), id).(vvNew := t.vvNew[b := t.vvNew[b] - {id}])
  {
    hide RandomOk;
  }

  lemma UnrefStays(t: Tables, b: nat, id: Id)
    requires b < |t.vvNew| && id in t.mapInfo && t.mapInfo[id].nRefCount != 1
    requires RandomOk(t) && RandomOk(Uncounted(t, id)) && AddrOk(Uncounted(t, id))
    ensures var u := Unref(t, b, id);
      && RandomOk(u) && AddrOk(u) && AlikeExcept(t.mapInfo, u.mapInfo, id)
      && u == t.(mapInfo := t.mapInfo[id := t.mapInfo[id].(nRefCount := t.mapInfo[id].nRefCount - 1)],
                 vvNew := t.vvNew[b := t.vvNew[b] - {id}])
  {
    hide RandomOk, AddrOk;
    SameIndexes(Uncounted(t, id), Unref(t, b, id));
  }

  lemma UnrefSizes(t: Tables, u: Tables, b: nat, id: Id)
    requires SizesOk(t) && b < |t.vvNew| && u.vvNew == t.vvNew[b := t.vvNew[b] - {id}]
    requires u.vvTried == t.vvTried && u.nIdCount == t.nIdCount && forall k :: k in u.mapInfo ==> k in t.mapInfo
    ensures SizesOk(u)
  {
    assert |u.vvNew[b]| <= |t.vvNew[b]|;
  }

  lemma SameIndexes(t: Tables, s: Tables)
    requires AddrOk(t) && RandomOk(t) && s.mapInfo == t.mapInfo && s.mapAddr == t.mapAddr && s.vRandom == t.vRandom
    ensures AddrOk(s) && RandomOk(s)
  {
  }

  /* ---- moving to the tried buckets ---- */

  /** The entry as it is once it has left the new buckets for the tried ones. */
  function Moved(t: Tables, id: Id): Tables
    requires id in t.mapInfo
  {
    LeaveNew(t, id).(mapInfo := t.mapInfo[id := t.mapInfo[id].(nRefCount := 0, fInTried := true)])
  }

  lemma MovedNew(t: Tables, id: Id)
    requires NewOk(t, {}) && id in t.mapInfo
    ensures NewOk(Moved(t, id), {})
  {
    NewFrame(t, Moved(t, id), id, {}, {});
  }

  lemma MovedIndexes(t: Tables, id: Id)
    requires AddrOk(t) && RandomOk(t) && id in t.mapInfo
    ensures AddrOk(Moved(t, id)) && RandomOk(Moved(t, id))
  {
    assert Moved(t, id).mapInfo.Keys == t.mapInfo.Keys;
    AddrFrame(t, Moved(t, id));
    RandomFrame(t, Moved(t, id));
  }

  lemma MovedSizes(t: Tables, id: Id)
    requires SizesOk(t) && id in t.mapInfo
    ensures SizesOk(Moved(t, id))
  {
    assert forall b :: 0 <= b < |t.vvNew| ==> |t.vvNew[b] - {id}| <= |t.vvNew[b]|;
  }

  lemma EnterKeeps(keys: Keys, t: Tables, id: Id)
    requires Consistent(keys, t, {}) && id in t.mapInfo && !t.mapInfo[id].fInTried
    requires |t.vvTried[keys.TriedBucket(t.mapInfo[id].addr.svc)]| < TRIED_BUCKET_SIZE
    ensures Consistent(keys, EnterTried(keys, LeaveNew(t, id), id), {})
  {
    var s := EnterTried(keys, LeaveNew(t, id), id);
    var k := keys.TriedBucket(t.mapInfo[id].addr.svc);
    var m := Moved(t, id);
    assert s == m.(vvTried := t.vvTried[k := t.vvTried[k] + [id]], nTried := t.nTried + 1);
    MovedIndexes(t, id);
    MovedSizes(t, id);
    MovedNew(t, id);
    EnterSizes(m, s, k, id);
    hide AddrOk, RandomOk, NewOk, TriedOk, CountsOk, SizesOk;
    SameBut(m, s, {});
    EnterTriedOk(keys, t, id);
    EnterPopulation(keys, t, id);
  }

  lemma EnterSizes(m: Tables, s: Tables, k: nat, id: Id)
    requires SizesOk(m) && k < |m.vvTried| && |m.vvTried[k]| < TRIED_BUCKET_SIZE
    requires s == m.(vvTried := m.vvTried[k := m.vvTried[k] + [id]], nTried := s.nTried)
    ensures SizesOk(s)
  {
  }

  lemma EnterPopulation(keys: Keys, t: Tables, id: Id)
    requires CountsOk(t) && id in t.mapInfo && !t.mapInfo[id].fInTried && |t.vvTried| == TRIED_BUCKET_COUNT
    ensures CountsOk(EnterTried(keys, LeaveNew(t, id), id))
  {
    CountsFrame(t.mapInfo, EnterTried(keys, LeaveNew(t, id), id).mapInfo, id);
    assert id !in TriedIds(t.mapInfo) && id in NewIds(t.mapInfo);
  }

  lemma SameBut(t: Tables, s: Tables, pending: set<Id>)
    requires AddrOk(t) && RandomOk(t) && NewOk(t, pending)
    requires s == t.(vvTried := s.vvTried, nTried := s.nTried, nNew := s.nNew)
    ensures AddrOk(s) && RandomOk(s) && NewOk(s, pending)
  {
  }

  lemma EnterTriedOk(keys: Keys, t: Tables, id: Id)
    requires TriedOk(keys, t) && id in t.mapInfo && !t.mapInfo[id].fInTried
    requires |t.vvTried| == TRIED_BUCKET_COUNT
    ensures TriedOk(keys, EnterTried(keys, LeaveNew(t, id), id))
  {
    var s := EnterTried(keys, LeaveNew(t, id), id);
    var k := keys.TriedBucket(t.mapInfo[id].addr.svc);
    forall b, i | 0 <= b < |s.vvTried| && 0 <= i < |s.vvTried[b]| ensures TriedAt(keys, s, b, s.vvTried[b][i]) {
      if b != k || i < |t.vvTried[k]| {
        assert TriedAt(keys, t, b, t.vvTried[b][i]);
      }
    }
    forall i | 0 <= i < |t.vvTried[k]| ensures t.vvTried[k][i] != id {
      assert TriedAt(keys, t, k, t.vvTried[k][i]);
    }
    assert s.vvTried[k][|t.vvTried[k]|] == id;
    forall x | x in s.mapInfo && s.mapInfo[x].fInTried && x != id
      ensures x in s.vvTried[keys.TriedBucket(s.mapInfo[x].addr.svc)]
    {
      assert x in t.vvTried[keys.TriedBucket(t.mapInfo[x].addr.svc)];
    }
  }

  lemma ReplaceKeeps(keys: Keys, t: Tables, id: Id, pos: nat, b: nat)
    requires Consistent(keys, t, {}) && id in t.mapInfo && !t.mapInfo[id].fInTried
    requires pos < |t.vvTried[keys.TriedBucket(t.mapInfo[id].addr.svc)]|
    requires b < |t.vvNew| && |t.vvNew[b] - {id}| < NEW_BUCKET_SIZE
    ensures t.vvTried[keys.TriedBucket(t.mapInfo[id].addr.svc)][pos] in t.mapInfo
    ensures Consistent(keys, ReplaceTried(keys, LeaveNew(t, id), id, pos, b), {})
  {
    hide AddrOk, RandomOk, NewOk, TriedOk;
    var k := keys.TriedBucket(t.mapInfo[id].addr.svc);
    var out := t.vvTried[k][pos];
    TriedOne(keys, t, k, pos);
    var m := Moved(t, id);
    var s := ReplaceTried(keys, LeaveNew(t, id), id, pos, b);
    ReplaceIndexes(keys, t, id, pos, b);
    assert SizesOk(s) by {
      MovedSizes(t, id);
      ReplacedSizes(m, s, k, pos, id, b, out);
    }
    hide SizesOk;
    assert TriedOk(keys, s) by { ReplaceTriedOk(keys, t, id, pos, b); }
    assert s.mapInfo == t.mapInfo[id := m.mapInfo[id]][out := t.mapInfo[out].(fInTried := false, nRefCount := 1)];
    ExchangeCounts(t.mapInfo, s.mapInfo, id, out);
  }

  lemma ReplaceIndexes(keys: Keys, t: Tables, id: Id, pos: nat, b: nat)
    requires AddrOk(t) && RandomOk(t) && NewOk(t, {}) && |t.vvTried| == TRIED_BUCKET_COUNT
    requires id in t.mapInfo && !t.mapInfo[id].fInTried && b < |t.vvNew|
    requires var k := keys.TriedBucket(t.mapInfo[id].addr.svc);
      pos < |t.vvTried[k]| && TriedAt(keys, t, k, t.vvTried[k][pos])
    ensures var s := ReplaceTried(keys, LeaveNew(t, id), id, pos, b);
      AddrOk(s) && RandomOk(s) && NewOk(s, {})
  {
    hide AddrOk, RandomOk, NewOk;
    var out := t.vvTried[keys.TriedBucket(t.mapInfo[id].addr.svc)][pos];
    var m := Moved(t, id);
    MovedIndexes(t, id);
    MovedNew(t, id);
    OutOfNew(t, id, out);
    ReturnedKeeps(m, out, b);
    SameBut(Returned(m, out, b), ReplaceTried(keys, LeaveNew(t, id), id, pos, b), {});
  }

  lemma ReplacedSizes(m: Tables, s: Tables, k: nat, pos: nat, id: Id, b: nat, out: Id)
    requires SizesOk(m) && k < |m.vvTried| && pos < |m.vvTried[k]| && b < |m.vvNew| && |m.vvNew[b]| < NEW_BUCKET_SIZE
    requires s.vvTried == m.vvTried[k := m.vvTried[k][pos := id]] && s.vvNew == m.vvNew[b := m.vvNew[b] + {out}]
    requires s.nIdCount == m.nIdCount && s.mapInfo.Keys == m.mapInfo.Keys
    ensures SizesOk(s)
  {
    assert forall x :: x in s.mapInfo ==> x in m.mapInfo.Keys;
  }

  /** One entry becomes tried and another untried: the two counts stay. */
  lemma ExchangeCounts(m: map<Id, AddrInfo>, n: map<Id, AddrInfo>, id: Id, out: Id)
    requires id in m && !m[id].fInTried && out in m && m[out].fInTried
    requires n.Keys == m.Keys && n[id].fInTried && !n[out].fInTried
    requires forall k :: k in m && k != id && k != out ==> n[k] == m[k]
    ensures |TriedIds(n)| == |TriedIds(m)| && |NewIds(n)| == |NewIds(m)|
  {
    var mid := m[id := n[id]];
    CountsFrame(m, mid, id);
    CountsFrame(mid, n, out);
    assert id !in TriedIds(m) && id in NewIds(m) && out in TriedIds(m) && out !in NewIds(m);
  }

  lemma TriedOne(keys: Keys, t: Tables, k: nat, pos: nat)
    requires TriedOk(keys, t) && k < |t.vvTried| && pos < |t.vvTried[k]|
    ensures TriedAt(keys, t, k, t.vvTried[k][pos])
  {
  }

  /** A tried entry put back into one new bucket. */
  function Returned(m: Tables, out: Id, b: nat): Tables
    requires out in m.mapInfo && b < |m.vvNew|
  {
    m.(mapInfo := m.mapInfo[out := m.mapInfo[out].(fInTried := false, nRefCount := 1)],
       vvNew := m.vvNew[b := m.vvNew[b] + {out}],
       nNew := m.nNew + 1)
  }

  lemma ReturnedKeeps(m: Tables, out: Id, b: nat)
    requires AddrOk(m) && RandomOk(m) && NewOk(m, {}) && out in m.mapInfo && m.mapInfo[out].fInTried
    requires b < |m.vvNew| && forall c :: 0 <= c < |m.vvNew| ==> out !in m.vvNew[c]
    ensures AddrOk(Returned(m, out, b)) && RandomOk(Returned(m, out, b)) && NewOk(Returned(m, out, b), {})
  {
    var s := Returned(m, out, b);
    hide AddrOk, RandomOk, NewOk;
    AddrFrame(m, s);
    RandomFrame(m, s);
    BucketsNone(m.vvNew, out);
    BucketsInsert(m.vvNew, b, out);
    NewFrame(m, s, out, {}, {});
  }

  lemma OutOfNew(t: Tables, id: Id, out: Id)
    requires NewOk(t, {}) && id in t.mapInfo && out in t.mapInfo && t.mapInfo[out].fInTried
    ensures forall c :: 0 <= c < |t.vvNew| ==> out !in Moved(t, id).vvNew[c]
  {
  }

  lemma ReplaceTriedOk(keys: Keys, t: Tables, id: Id, pos: nat, b: nat)
    requires TriedOk(keys, t) && id in t.mapInfo && !t.mapInfo[id].fInTried
    requires |t.vvTried| == TRIED_BUCKET_COUNT && b < |t.vvNew|
    requires pos < |t.vvTried[keys.TriedBucket(t.mapInfo[id].addr.svc)]|
    requires t.vvTried[keys.TriedBucket(t.mapInfo[id].addr.svc)][pos] in t.mapInfo
    ensures TriedOk(keys, ReplaceTried(keys, LeaveNew(t, id), id, pos, b))
  {
    var k := keys.TriedBucket(t.mapInfo[id].addr.svc);
    var out := t.vvTried[k][pos];
    var s := ReplaceTried(keys, LeaveNew(t, id), id, pos, b);
    assert TriedAt(keys, t, k, out);
    assert s.vvTried[k][pos] == id;
    forall c, i | 0 <= c < |s.vvTried| && 0 <= i < |s.vvTried[c]| ensures TriedAt(keys, s, c, s.vvTried[c][i]) {
      if c != k || i != pos {
        assert TriedAt(keys, t, c, t.vvTried[c][i]);
        assert t.vvTried[c][i] != out;
      }
    }
    forall i | 0 <= i < |t.vvTried[k]| ensures t.vvTried[k][i] != id {
      assert TriedAt(keys, t, k, t.vvTried[k][i]);
    }
    forall x | x in s.mapInfo && s.mapInfo[x].fInTried && x != id
      ensures s.mapInfo[x].nRefCount == 0
      ensures x in s.vvTried[keys.TriedBucket(s.mapInfo[x].addr.svc)]
    {
      var c := keys.TriedBucket(t.mapInfo[x].addr.svc);
      assert x in t.vvTried[c];
      var i :| 0 <= i < |t.vvTried[c]| && t.vvTried[c][i] == x;
      assert s.vvTried[c][i] == x;
    }
  }

  lemma SwapTriedOk(keys: Keys, t: Tables, k: nat, i: nat, j: nat)
    requires TriedOk(keys, t) && k < |t.vvTried| && i < |t.vvTried[k]| && j < |t.vvTried[k]|
    ensures TriedOk(keys, SwapTried(t, k, i, j))
    ensures multiset(SwapTried(t, k, i, j).vvTried[k]) == multiset(t.vvTried[k])
  {
    var s := SwapTried(t, k, i, j);
    SwapTriedPlaces(t, k, i, j);
    hide SwapTried;
    forall b, n | 0 <= b < |s.vvTried| && 0 <= n < |s.vvTried[b]| ensures TriedAt(keys, s, b, s.vvTried[b][n]) {
      assert TriedAt(keys, t, b, t.vvTried[b][if b == k then Swapped(n, i, j) else n]);
    }
    assert forall b :: 0 <= b < |s.vvTried| ==> NoDuplicates(s.vvTried[b]);
  }

  lemma SwapTriedPlaces(t: Tables, k: nat, i: nat, j: nat)
    requires k < |t.vvTried| && i < |t.vvTried[k]| && j < |t.vvTried[k]|
    ensures var s := SwapTried(t, k, i, j); var v, w := t.vvTried[k], s.vvTried[k];
      && s == t.(vvTried := t.vvTried[k := w]) && |w| == |v|
      && (forall n :: 0 <= n < |v| ==> w[n] == v[Swapped(n, i, j)])
      && multiset(w) == multiset(v) && forall x :: x in v <==> x in w
  {
    var v, w := t.vvTried[k], SwapTried(t, k, i, j).vvTried[k];
    assert forall x :: x in v <==> x in multiset(v);
    assert forall x :: x in w <==> x in multiset(w);
  }
}
