/** The address manager: the operations on its tables, step by step. */
module AddrMan {
  import opened AddrTables
  import opened AddrCheck
  import opened AddrLaws
  import opened Basics
  import SetOrder

  const TRIED_ENTRIES_INSPECT_ON_EVICT: nat := 4
  const HORIZON_DAYS: int := 30
  const RETRIES: int := 3
  const MAX_FAILURES: int := 10
  const MIN_FAIL_DAYS: int := 7
  const GETADDR_MAX_PCT: nat := 23
  const GETADDR_MAX: nat := 2500

  /** Conversion of a 64-bit time to the 32-bit field. */
  function U32(n: int): nat { n % 0x1_0000_0000 }

  /** The entry's statistics are bad enough for it to be deleted. */
  predicate IsTerrible(info: AddrInfo, nNow: int) {
    if info.nLastTry != 0 && info.nLastTry >= nNow - 60 then false
    else
      || info.addr.nTime > nNow + 10 * 60
      || info.addr.nTime == 0 || nNow - info.addr.nTime > HORIZON_DAYS * 86400
      || (info.nLastSuccess == 0 && info.nAttempts >= RETRIES)
      || (nNow - info.nLastSuccess > MIN_FAIL_DAYS * 86400 && info.nAttempts >= MAX_FAILURES)
  }

  /** The service is known, with exactly this port. */
  predicate Has(t: Tables, svc: Service)
  {
    svc.ip in t.mapAddr && t.mapAddr[svc.ip] in t.mapInfo && t.mapInfo[t.mapAddr[svc.ip]].addr.svc == svc
  }

  function Succeeded(info: AddrInfo, nTime: int): AddrInfo {
    info.(nLastSuccess := nTime, nLastTry := nTime, nAttempts := 0, addr := info.addr.(nTime := U32(nTime)))
  }

  /** The entry once it has been heard of again: its services grow, and its time advances if it is stale. */
  function Refreshed(info: AddrInfo, addr: Address, nTimePenalty: int, nNow: int): AddrInfo {
    var nUpdateInterval := if nNow - addr.nTime < 24 * 60 * 60 then 60 * 60 else 24 * 60 * 60;
    var late := info.addr.nTime == 0 || info.addr.nTime < addr.nTime - nUpdateInterval - nTimePenalty;
    var stale := addr.nTime != 0 && late;
    var nTime := if stale then U32(Max(0, addr.nTime - nTimePenalty)) else info.addr.nTime;
    info.(addr := info.addr.(nTime := nTime, nServices := info.addr.nServices + addr.nServices))
  }

  /** A success keeps an entry for thirty days, whatever its record was. */
  lemma SuccessShields(info: AddrInfo, nTime: int, nNow: int)
    requires 0 < nTime < 0x1_0000_0000 && nTime <= nNow
    ensures IsTerrible(Succeeded(info, nTime), nNow) <==> nNow - nTime > 30 * 24 * 60 * 60
  {
    if nNow - nTime <= 60 { assert nTime >= nNow - 60; }
  }

  /** The time of an entry never goes back; what it advances to is the time given less the penalty, and it advances by
      more than an hour. */
  lemma RefreshedForward(info: AddrInfo, addr: Address, nTimePenalty: int, nNow: int)
    requires nTimePenalty >= 0 && addr.nTime < 0x1_0000_0000
    ensures var nTime := Refreshed(info, addr, nTimePenalty, nNow).addr.nTime;
      && nTime >= info.addr.nTime
      && (nTime > info.addr.nTime ==> nTime == addr.nTime - nTimePenalty > info.addr.nTime)
      && (nTime > info.addr.nTime > 0 ==> nTime - info.addr.nTime > 60 * 60)
  {
  }

  /** The address was seen later than the entry says. */
  predicate News(info: AddrInfo, addr: Address) {
    addr.nTime != 0 && (info.addr.nTime == 0 || addr.nTime > info.addr.nTime)
  }

  /** The entry, already counted, has been put in bucket b, from which the victim was taken if it was full. */
  ghost predicate Placed(t: Tables, s: Tables, id: Id, b: nat, victim: Id)
    requires b < |t.vvNew|
  {
    if |t.vvNew[b]| == NEW_BUCKET_SIZE then
      victim in t.vvNew[b] && victim in t.mapInfo && RandomOk(t) && s == InsertNew(Unref(t, b, victim), b, id)
    else
      s == InsertNew(t, b, id)
  }

  /** How Add changes the tables: a known entry is refreshed, an unknown one created; a new one always,
      a known one perhaps, is counted and put in the bucket chosen by its address and the source. */
  ghost predicate AfterAdd(keys: Keys, t: Tables, s: Tables, addr: Address, source: NetAddr, nTimePenalty: int,
      nNow: int,
      inserted: bool, victim: Id)
  {
    var ip := addr.svc.ip;
    var b := keys.NewBucket(ip, source);
    |t.vvNew| == NEW_BUCKET_COUNT &&
    if ip in t.mapAddr then
      var id := t.mapAddr[ip];
      && id in t.mapInfo
      && var seen := SetInfo(t, id, Refreshed(t.mapInfo[id], addr, nTimePenalty, nNow));
         if inserted then
           && News(seen.mapInfo[id], addr) && !seen.mapInfo[id].fInTried
           && seen.mapInfo[id].nRefCount < NEW_BUCKETS_PER_ADDRESS && id !in seen.vvNew[b]
           && Placed(Ref(seen, id), s, id, b, victim)
         else
           s == seen
    else
      && inserted
      && Placed(CreateRef(t, addr, source, U32(Max(0, addr.nTime - nTimePenalty))), s, t.nIdCount, b, victim)
  }

  /** The same entries, up to their places in the random order. */
  ghost predicate SameButOrder(m: map<Id, AddrInfo>, n: map<Id, AddrInfo>) {
    m.Keys == n.Keys && forall id :: id in m ==> n[id] == m[id].(nRandomPos := n[id].nRandomPos)
  }

  lemma OrderSame(m: map<Id, AddrInfo>)
    ensures SameButOrder(m, m)
  {
  }

  lemma OrderStep(l: map<Id, AddrInfo>, m: map<Id, AddrInfo>, n: map<Id, AddrInfo>)
    requires SameButOrder(l, m) && SameButOrder(m, n)
    ensures SameButOrder(l, n) && forall id :: id in m ==> id in n && n[id].addr == m[id].addr
  {
  }

  lemma SwapSame<T>(s: seq<T>, p: nat, q: nat)
    requires p < |s| && q < |s|
    ensures multiset(s[p := s[q]][q := s[p]]) == multiset(s)
  {
  }

  /** The list holds the addresses of the first entries in the random order. */
  ghost predicate Drawn(m: map<Id, AddrInfo>, vRandom: seq<Id>, vAddr: seq<Address>) {
    |vAddr| <= |vRandom| && forall i :: 0 <= i < |vAddr| ==> vRandom[i] in m && vAddr[i] == m[vRandom[i]].addr
  }

  lemma DrawNext(t: Tables, p: nat, q: nat, vAddr: seq<Address>)
    requires RandomOk(t) && |vAddr| == p <= q < |t.vRandom| && Drawn(t.mapInfo, t.vRandom, vAddr)
    ensures var s := SwapRandom(t, p, q);
      && SameButOrder(t.mapInfo, s.mapInfo) && |s.vRandom| == |t.vRandom| && multiset(s.vRandom) == multiset(t.vRandom)
      && s.vRandom[p] in s.mapInfo && Drawn(s.mapInfo, s.vRandom, vAddr + [s.mapInfo[s.vRandom[p]].addr])
  {
    SwapSame(t.vRandom, p, q);
  }

  lemma DistinctAddresses(t: Tables, vAddr: seq<Address>)
    requires RandomOk(t) && AddrOk(t) && Drawn(t.mapInfo, t.vRandom, vAddr)
    ensures forall m, n :: 0 <= m < n < |vAddr| ==> vAddr[m].svc.ip != vAddr[n].svc.ip
  {
    forall m, n | 0 <= m < n < |vAddr| ensures vAddr[m].svc.ip != vAddr[n].svc.ip {
      var a, b := t.vRandom[m], t.vRandom[n];
      assert a in t.mapInfo && b in t.mapInfo && t.mapInfo[a].nRandomPos == m && t.mapInfo[b].nRandomPos == n;
      assert t.mapAddr[t.mapInfo[a].addr.svc.ip] == a && t.mapAddr[t.mapInfo[b].addr.svc.ip] == b;
    }
  }

  lemma Around(c: nat, r: nat, n: nat)
    requires c < NEW_BUCKET_COUNT && r < NEW_BUCKET_COUNT && (c - r) % NEW_BUCKET_COUNT == n
    ensures c == (n + r) % NEW_BUCKET_COUNT
  {
  }

  /** An untried entry is in some new bucket. */
  lemma NewSomewhere(t: Tables, id: Id)
    requires NewOk(t, {}) && id in t.mapInfo && !t.mapInfo[id].fInTried
    ensures exists b :: 0 <= b < |t.vvNew| && id in t.vvNew[b]
  {
    BucketsNone(t.vvNew, id);
  }

  lemma NewUnlisted(t: Tables)
    requires SizesOk(t) && NewOk(t, {})
    ensures |t.vvNew| == NEW_BUCKET_COUNT && forall b :: 0 <= b < |t.vvNew| ==> t.nIdCount !in t.vvNew[b]
  {
    NotInBuckets(t, t.nIdCount);
  }

  lemma RefCounts(t: Tables, id: Id)
    requires NewOk(t, {}) && id in t.mapInfo
    ensures !t.mapInfo[id].fInTried ==> 1 <= t.mapInfo[id].nRefCount <= NEW_BUCKETS_PER_ADDRESS
  {
  }

  lemma FullBucket(t: Tables, b: nat)
    requires SizesOk(t) && b < |t.vvNew|
    ensures |t.vvNew[b]| <= NEW_BUCKET_SIZE
  {
  }

  lemma UnrefMakesRoom(t: Tables, b: nat, victim: Id, id: Id)
    requires RandomOk(t) && AddrOk(t) && SizesOk(t) && b < |t.vvNew| && victim in t.vvNew[b] && victim in t.mapInfo
    requires id in t.mapInfo && id != victim && !t.mapInfo[id].fInTried && id !in t.vvNew[b]
    ensures var u := Unref(t, b, victim);
      && |u.vvNew| == |t.vvNew| && |u.vvNew[b]| == |t.vvNew[b]| - 1 && id !in u.vvNew[b]
      && id in u.mapInfo && !u.mapInfo[id].fInTried
  {
    UnrefIndexes(t, b, victim);
  }

  /** The same entries in another order. */
  predicate Shuffle(v: seq<Id>, w: seq<Id>) { |w| == |v| && multiset(w) == multiset(v) }

  lemma ShuffleNothing(v: seq<Id>)
    ensures Shuffle(v, v)
  {
  }

  lemma ShuffleMore(u: seq<Id>, v: seq<Id>, i: nat, j: nat)
    requires Shuffle(u, v) && i < |v| && j < |v|
    ensures Shuffle(u, v[j := v[i]][i := v[j]])
  {
  }

  /** Of the first n entries the one at this place has had no success for longest, and it is the first such. */
  ghost predicate OldestOf(m: map<Id, AddrInfo>, v: seq<Id>, n: int, place: int) {
    && 0 <= place < n <= |v| && (forall i :: 0 <= i < n ==> v[i] in m)
    && (forall i :: 0 <= i < n ==> m[v[place]].nLastSuccess <= m[v[i]].nLastSuccess)
    && (forall i :: 0 <= i < place ==> m[v[place]].nLastSuccess < m[v[i]].nLastSuccess)
  }

  lemma OldestMeans(m: map<Id, AddrInfo>, v: seq<Id>, n: int, place: int)
    requires OldestOf(m, v, n, place)
    ensures 0 <= place < n <= |v| && v[place] in m
  {
  }

  lemma NextOldest(m: map<Id, AddrInfo>, v: seq<Id>, i: nat, place: int, j: nat)
    requires i <= j < |v| && v[j] in m && (if i == 0 then place == -1 else OldestOf(m, v, i, place))
    ensures var w := v[j := v[i]][i := v[j]];
      if place == -1 || m[v[j]].nLastSuccess < m[v[place]].nLastSuccess then OldestOf(m, w, i + 1, i)
      else OldestOf(m, w, i + 1, place) && w[place] == v[place]
  {
  }

  /** Each draw is of a place not yet passed. */
  predicate DrawsOk(draws: seq<nat>, n: nat) {
    |draws| <= n && forall i :: 0 <= i < |draws| ==> i <= draws[i] < n
  }

  /** The places once each drawn one has been exchanged with that of its turn. */
  function AfterDraws(v: seq<Id>, draws: seq<nat>): (w: seq<Id>)
    requires DrawsOk(draws, |v|)
    ensures |w| == |v|
  {
    if draws == [] then v
    else
      var i := |draws| - 1;
      var u := AfterDraws(v, draws[..i]);
      u[draws[i] := u[i]][i := u[draws[i]]]
  }

  /** The selection ends with a place: that of the draw which brought up the entry without success for longest. */
  ghost predicate Selection(m: map<Id, AddrInfo>, v: seq<Id>, w: seq<Id>, draws: seq<nat>, winner: int, pos: int) {
    && |draws| == Min(TRIED_ENTRIES_INSPECT_ON_EVICT, |v|) && DrawsOk(draws, |v|) && w == AfterDraws(v, draws)
    && if v == [] then pos == -1 else OldestOf(m, w, |draws|, winner) && pos == draws[winner]
  }

  ghost predicate Selected(m: map<Id, AddrInfo>, v: seq<Id>, w: seq<Id>, pos: int) {
    exists draws, winner :: Selection(m, v, w, draws, winner, pos)
  }

  lemma NoDraw(v: seq<Id>)
    ensures DrawsOk([], |v|) && AfterDraws(v, []) == v
  {
  }

  lemma OneMoreDraw(v: seq<Id>, draws: seq<nat>, j: nat)
    requires DrawsOk(draws, |v|) && |draws| <= j < |v|
    ensures DrawsOk(draws + [j], |v|)
    ensures var w, i := AfterDraws(v, draws), |draws|; AfterDraws(v, draws + [j]) == w[j := w[i]][i := w[j]]
  {
    assert (draws + [j])[..|draws|] == draws;
  }

  /** One turn of the selection: the places i and j are exchanged, and the winner among the first is updated. */
  lemma SelectStep(keys: Keys, t: Tables, u: seq<Id>, k: nat, i: nat, j: nat, place: int)
    requires TriedOk(keys, t) && k < |t.vvTried| && i <= j < |t.vvTried[k]| && Shuffle(u, t.vvTried[k])
    requires if i == 0 then place == -1 else OldestOf(t.mapInfo, t.vvTried[k], i, place)
    ensures var v := t.vvTried[k]; var w := v[j := v[i]][i := v[j]]; var s := t.(vvTried := t.vvTried[k := w]);
      && TriedOk(keys, s) && Shuffle(u, w) && v[j] in t.mapInfo
      && (place != -1 ==> 0 <= place < i && v[place] in t.mapInfo)
      && if place == -1 || t.mapInfo[v[j]].nLastSuccess < t.mapInfo[v[place]].nLastSuccess
         then OldestOf(t.mapInfo, w, i + 1, i)
         else OldestOf(t.mapInfo, w, i + 1, place) && w[place] == v[place]
  {
    hide TriedOk, OldestOf, Shuffle;
    var v := t.vvTried[k];
    SwapTriedOk(keys, t, k, i, j);
    TriedOne(keys, t, k, j);
    if i > 0 { OldestMeans(t.mapInfo, v, i, place); }
    NextOldest(t.mapInfo, v, i, place, j);
    ShuffleMore(u, v, i, j);
  }

  lemma OnePlace(keys: Keys, t: Tables, k: nat, i: int, j: int)
    requires TriedOk(keys, t) && k < |t.vvTried| && 0 <= i < |t.vvTried[k]| && 0 <= j < |t.vvTried[k]|
    ensures t.vvTried[k][i] == t.vvTried[k][j] <==> i == j
  {
  }

  /** When the entry was last seen (0 for an unknown entry). */
  function SeenBy(m: map<Id, AddrInfo>, id: Id): nat { if id in m then m[id].addr.nTime else 0 }

  /** The entry is at one of the four places drawn, and none at these places was seen longer ago. */
  ghost predicate OldestDrawn(m: map<Id, AddrInfo>, bucket: set<Id>, draws: seq<nat>, id: Id) {
    var order := SetOrder.Ascending(bucket);
    && |draws| == 4 && (forall n :: n in draws ==> n < |order|)
    && (exists n :: n in draws && id == order[n])
    && forall n :: n in draws ==> SeenBy(m, id) <= SeenBy(m, order[n])
  }

  /** Any value a random draw below n may give. */
  method GetRandInt(n: nat) returns (r: nat)
    requires n > 0
    ensures r < n
  {
    r :| r < n;
  }

  /** Succeeds once in 2^n draws. */
  method Lucky(n: int) returns (ok: bool)
    ensures n <= 0 ==> ok
  {
    var nFactor, i := 1, 0;
    while i < n
      invariant nFactor >= 1 && (i == 0 ==> nFactor == 1) && (0 < i ==> i <= n)
    {
      nFactor := nFactor * 2;
      i := i + 1;
    }
    if nFactor > 1 {
      var r := GetRandInt(nFactor);
      return r == 0;
    }
    return true;
  }

  class AddrMan {
    const keys: Keys
    const routable: NetAddr -> bool
    var nIdCount: Id
    var mapInfo: map<Id, AddrInfo>
    var mapAddr: map<NetAddr, Id>
    var vRandom: seq<Id>
    var nTried: int
    var vvTried: seq<seq<Id>>
    var nNew: int
    var vvNew: seq<set<Id>>

    function Tables(): Tables
      reads this
    {
      AddrTables.Tables(nIdCount, mapInfo, mapAddr, vRandom, nTried, vvTried, nNew, vvNew)
    }

    /** All indexes describe one population. */
    predicate Valid()
      reads this
    {
      Consistent(keys, Tables(), {})
    }

    /** The times recorded are right. */
    predicate Timely()
      reads this
    {
      TimesOk(Tables())
    }

    constructor (keys: Keys, routable: NetAddr -> bool)
      ensures Valid() && Timely() && mapInfo == map[]
    {
      this.keys, this.routable := keys, routable;
      nIdCount, mapInfo, mapAddr, vRandom, nTried, nNew := 0, map[], map[], [], 0, 0;
      vvTried := seq(TRIED_BUCKET_COUNT, _ => []);
      vvNew := seq(NEW_BUCKET_COUNT, _ => {});
    }

    method Find(ip: NetAddr) returns (found: bool, id: Id)
      requires Valid()
      ensures found == (ip in mapAddr)
      ensures found ==> id == mapAddr[ip] && id in mapInfo && mapInfo[id].addr.svc.ip == ip
    {
      if ip !in mapAddr { return false, -1; }
      id := mapAddr[ip];
      found := id in mapInfo;
    }

    method Create(addr: Address, source: NetAddr) returns (id: Id)
      modifies this
      ensures id == old(nIdCount) && Tables() == AddrTables.Create(old(Tables()), addr, source)
    {
      id := nIdCount;
      nIdCount := nIdCount + 1;
      mapInfo := mapInfo[id := AddrInfo(addr, source, 0, 0, 0, 0, false, -1)];
      mapAddr := mapAddr[addr.svc.ip := id];
      mapInfo := mapInfo[id := mapInfo[id].(nRandomPos := |vRandom|)];
      vRandom := vRandom + [id];
    }

    method SwapRandom(nRndPos1: nat, nRndPos2: nat)
      requires nRndPos1 < |vRandom| && nRndPos2 < |vRandom|
      requires vRandom[nRndPos1] in mapInfo && vRandom[nRndPos2] in mapInfo
      modifies `mapInfo, `vRandom
      ensures Tables() == AddrTables.SwapRandom(old(Tables()), nRndPos1, nRndPos2)
    {
      if nRndPos1 == nRndPos2 { return; }
      var nId1, nId2 := vRandom[nRndPos1], vRandom[nRndPos2];
      mapInfo := mapInfo[nId1 := mapInfo[nId1].(nRandomPos := nRndPos2)];
      mapInfo := mapInfo[nId2 := mapInfo[nId2].(nRandomPos := nRndPos1)];
      vRandom := vRandom[nRndPos1 := nId2];
      vRandom := vRandom[nRndPos2 := nId1];
    }

    /** Shuffles the first few places of a tried bucket, and returns a place. The oldest of the entries inspected
        ends up at the place of the winning draw's turn; what is returned is the place it was drawn from, which
        holds it only if the two are the same. */
    method SelectTried(nKBucket: nat) returns (nOldestPos: int, ghost draws: seq<nat>, ghost winner: int)
      requires TriedOk(keys, Tables()) && nKBucket < |vvTried| && forall id :: id in mapInfo ==> id >= 0
      modifies `vvTried
      ensures TriedOk(keys, Tables()) && Tables() == old(Tables()).(vvTried := vvTried)
      ensures |vvTried| == old(|vvTried|)
      ensures forall b :: 0 <= b < |vvTried| && b != nKBucket ==> vvTried[b] == old(vvTried[b])
      ensures Shuffle(old(vvTried[nKBucket]), vvTried[nKBucket])
      ensures Selection(mapInfo, old(vvTried[nKBucket]), vvTried[nKBucket], draws, winner, nOldestPos)
      ensures var v := vvTried[nKBucket];
        v != [] ==> winner <= nOldestPos < |v| && (v[nOldestPos] == v[winner] <==> nOldestPos == winner)
    {
      hide SizesOk, AddrOk, RandomOk, NewOk, TriedOk, CountsOk, OldestOf, Shuffle, AfterDraws, DrawsOk;
      var nOldest := -1;
      nOldestPos, draws, winner := -1, [], -1;
      var i := 0;
      ShuffleNothing(vvTried[nKBucket]);
      NoDraw(vvTried[nKBucket]);
      while i < TRIED_ENTRIES_INSPECT_ON_EVICT && i < |vvTried[nKBucket]|
        invariant TriedOk(keys, Tables()) && Tables() == old(Tables()).(vvTried := vvTried)
        invariant |vvTried| == old(|vvTried|)
        invariant forall b :: 0 <= b < |vvTried| && b != nKBucket ==> vvTried[b] == old(vvTried[b])
        invariant Shuffle(old(vvTried[nKBucket]), vvTried[nKBucket])
        invariant 0 <= i <= Min(TRIED_ENTRIES_INSPECT_ON_EVICT, |vvTried[nKBucket]|)
        invariant |draws| == i && DrawsOk(draws, old(|vvTried[nKBucket]|))
        invariant vvTried[nKBucket] == AfterDraws(old(vvTried[nKBucket]), draws)
        invariant if i == 0 then nOldest == nOldestPos == winner == -1
          else OldestOf(mapInfo, vvTried[nKBucket], i, winner) && 0 <= winner < i && nOldestPos == draws[winner]
               && winner <= nOldestPos < |vvTried[nKBucket]| && nOldest == vvTried[nKBucket][winner]
      {
        var r := GetRandInt(|vvTried[nKBucket]| - i);
        var nPos := r + i;
        ghost var v := vvTried[nKBucket];
        OneMoreDraw(old(vvTried[nKBucket]), draws, nPos);
        SelectStep(keys, Tables(), old(vvTried[nKBucket]), nKBucket, i, nPos, winner);
        draws := draws + [nPos];
        var vTried := vvTried[nKBucket];
        var nTemp := vTried[nPos];
        vTried := vTried[nPos := vTried[i]];
        vTried := vTried[i := nTemp];
        vvTried := vvTried[nKBucket := vTried];
        if nOldest == -1 || mapInfo[nTemp].nLastSuccess < mapInfo[nOldest].nLastSuccess {
          nOldest := nTemp;
          nOldestPos := nPos;
          winner := i;
        }
        i := i + 1;
      }
      if nOldestPos >= 0 { OnePlace(keys, Tables(), nKBucket, nOldestPos, winner); }
    }

    /** Draws four places of the bucket and returns the entry seen longest ago among those drawn. */
    method PickOldest(bucket: set<Id>) returns (nOldest: Id, draws: seq<nat>)
      requires bucket != {} && forall id :: id in bucket ==> id in mapInfo && id >= 0
      ensures nOldest in bucket && OldestDrawn(mapInfo, bucket, draws, nOldest)
    {
      hide SetOrder.Ascending, SetOrder.Increasing;
      var order := SetOrder.Ascending(bucket);
      draws := [];
      while |draws| < 4
        invariant |draws| <= 4 && forall n :: n in draws ==> n < |order|
      {
        var n := GetRandInt(|order|);
        draws := draws + [n];
      }
      nOldest := -1;
      var nI := 0;
      while nI < |order|
        invariant 0 <= nI <= |order|
        invariant nOldest != -1 ==> exists n :: n in draws && nOldest == order[n]
        invariant forall n :: n in draws && n < nI ==>
          nOldest != -1 && SeenBy(mapInfo, nOldest) <= SeenBy(mapInfo, order[n])
      {
        assert order[nI] in bucket;
        if nI in draws && (nOldest == -1 || SeenBy(mapInfo, order[nI]) < SeenBy(mapInfo, nOldest)) {
          nOldest := order[nI];
        }
        nI := nI + 1;
      }
      assert draws[0] in draws;
    }

    /** Takes an entry out of the random order and out of both maps. */
    method Delete(id: Id)
      requires id in mapInfo && RandomOk(Tables())
      modifies this
      ensures RandomOk(old(Tables())) && Tables() == AddrTables.Delete(old(Tables()), id)
    {
      var ip := mapInfo[id].addr.svc.ip;
      SwapRandom(mapInfo[id].nRandomPos, |vRandom| - 1);
      vRandom := vRandom[..|vRandom| - 1];
      mapAddr := mapAddr - {ip};
      mapInfo := mapInfo - {id};
      nNew := nNew - 1;
    }

    /** Uncounts the entry, deletes it if that was its last reference, and takes it out of the bucket. */
    method RemoveRef(nUBucket: nat, ghost pending: set<Id>, id: Id)
      requires Consistent(keys, Tables(), pending)
      requires nUBucket < |vvNew| && id in vvNew[nUBucket] && id !in pending && id in mapInfo
      modifies this
      ensures RandomOk(old(Tables())) && Tables() == Unref(old(Tables()), nUBucket, id)
      ensures Consistent(keys, Tables(), pending)
    {
      hide SizesOk, AddrOk, RandomOk, NewOk, TriedOk, CountsOk, AddrTables.Delete;
      UnrefKeeps(keys, Tables(), pending, nUBucket, id);
      UncountedIndexes(Tables(), id);
      ghost var s := Uncounted(Tables(), id);
      if s.mapInfo[id].nRefCount == 0 { DeleteIndexes(s, id); }
      mapInfo := mapInfo[id := mapInfo[id].(nRefCount := mapInfo[id].nRefCount - 1)];
      assert Tables() == s;
      if mapInfo[id].nRefCount == 0 {
        Delete(id);
      }
      vvNew := vvNew[nUBucket := vvNew[nUBucket] - {id}];
    }

    /** The first entry of the bucket, in ascending order, that may be deleted. */
    method FirstTerrible(bucket: set<Id>, nNow: int) returns (found: bool, id: Id)
      requires forall k :: k in bucket ==> k in mapInfo
      ensures found <==> exists k :: k in bucket && IsTerrible(mapInfo[k], nNow)
      ensures found ==> id in bucket && IsTerrible(mapInfo[id], nNow)
      ensures found ==> forall k :: k in bucket && k < id ==> !IsTerrible(mapInfo[k], nNow)
    {
      hide IsTerrible, SetOrder.Ascending;
      var order := SetOrder.Ascending(bucket);
      var i := 0;
      while i < |order|
        invariant 0 <= i <= |order|
        invariant forall j :: 0 <= j < i ==> order[j] in bucket && !IsTerrible(mapInfo[order[j]], nNow)
      {
        assert order[i] in bucket;
        if IsTerrible(mapInfo[order[i]], nNow) {
          forall k | k in bucket && k < order[i] ensures !IsTerrible(mapInfo[k], nNow) {
            var j := SetOrder.IndexOf(bucket, k);
          }
          return true, order[i];
        }
        i := i + 1;
      }
      forall k | k in bucket ensures !IsTerrible(mapInfo[k], nNow) {
        var j := SetOrder.IndexOf(bucket, k);
      }
      return false, -1;
    }

    /** Takes one entry out of a new bucket: the first terrible one in order, if there is one;
        otherwise the one last seen longest ago among four random picks. */
    method ShrinkNew(nUBucket: nat, ghost pending: set<Id>, nNow: int)
      returns (code: int, ghost victim: Id, ghost draws: seq<nat>)
      requires Consistent(keys, Tables(), pending)
      requires nUBucket < |vvNew| && vvNew[nUBucket] != {} && vvNew[nUBucket] !! pending
      modifies this
      ensures victim in old(vvNew[nUBucket]) && old(vvNew[nUBucket]) <= old(mapInfo).Keys && RandomOk(old(Tables()))
      ensures Tables() == Unref(old(Tables()), nUBucket, victim)
      ensures Consistent(keys, Tables(), pending)
      ensures code == if exists id :: id in old(vvNew[nUBucket]) && IsTerrible(old(mapInfo)[id], nNow) then 0 else 1
      ensures code == 0 ==> IsTerrible(old(mapInfo)[victim], nNow)
      ensures code == 0 ==> forall id :: id in old(vvNew[nUBucket]) && id < victim ==>
        !IsTerrible(old(mapInfo)[id], nNow)
      ensures code == 1 ==> OldestDrawn(old(mapInfo), old(vvNew[nUBucket]), draws, victim)
    {
      InBucket(Tables(), pending, nUBucket);
      assert RandomOk(Tables());
      hide SizesOk, AddrOk, RandomOk, NewOk, TriedOk, CountsOk, IsTerrible, Unref, OldestDrawn;
      draws := [];
      var found, first := FirstTerrible(vvNew[nUBucket], nNow);
      if found {
        victim := first;
        RemoveRef(nUBucket, pending, first);
        return 0, victim, draws;
      }
      var nOldest, drawn := PickOldest(vvNew[nUBucket]);
      victim, draws := nOldest, drawn;
      RemoveRef(nUBucket, pending, nOldest);
      code := 1;
    }

    /** Takes the entry out of every new bucket. */
    method LeaveNewBuckets(id: Id)
      requires id in mapInfo && NewOk(Tables(), {}) && !mapInfo[id].fInTried
      modifies `mapInfo, `vvNew, `nNew
      ensures Tables() == LeaveNew(old(Tables()), id)
    {
      ghost var was := vvNew;
      ghost var info := mapInfo[id];
      var b := 0;
      while b < |vvNew|
        invariant 0 <= b <= |vvNew| == |was| && nNew == old(nNew)
        invariant forall c :: 0 <= c < |was| ==> vvNew[c] == if c < b then was[c] - {id} else was[c]
        invariant id in mapInfo && mapInfo == old(mapInfo)[id := info.(nRefCount := mapInfo[id].nRefCount)]
        invariant mapInfo[id].nRefCount == |NewBucketsOf(vvNew, id)|
      {
        if id in vvNew[b] {
          BucketsRemove(vvNew, b, id);
          vvNew := vvNew[b := vvNew[b] - {id}];
          mapInfo := mapInfo[id := mapInfo[id].(nRefCount := mapInfo[id].nRefCount - 1)];
        }
        b := b + 1;
      }
      BucketsNone(vvNew, id);
      assert mapInfo[id].nRefCount == 0;
      nNew := nNew - 1;
      assert vvNew == LeaveNew(old(Tables()), id).vvNew;
      assert mapInfo == LeaveNew(old(Tables()), id).mapInfo;
    }

    /** Moves an entry from the new buckets to its tried bucket. If that bucket is full, an entry of it
        goes back to its own new bucket, or to the bucket the first came from. */
    method MakeTried(id: Id, nOrigin: nat) returns (ghost v: seq<seq<Id>>, ghost pos: nat)
      requires Valid() && id in mapInfo && !mapInfo[id].fInTried
      requires nOrigin < |vvNew| && id in vvNew[nOrigin]
      modifies this
      ensures Valid() && AfterMakeTried(keys, old(Tables()), Tables(), id, nOrigin, v, pos)
    {
      hide AddrOk, RandomOk, NewOk, TriedOk;
      ghost var t := Tables();
      v, pos := vvTried, 0;
      LeaveNewBuckets(id);
      var nKBucket := keys.TriedBucket(mapInfo[id].addr.svc);
      if |vvTried[nKBucket]| < TRIED_BUCKET_SIZE {
        EnterKeeps(keys, t, id);
        vvTried := vvTried[nKBucket := vvTried[nKBucket] + [id]];
        nTried := nTried + 1;
        mapInfo := mapInfo[id := mapInfo[id].(fInTried := true)];
        return;
      }
      LimboTried(keys, t, id);
      v, pos := Evict(t, id, nOrigin, nKBucket);
    }

    /** The second half of MakeTried, for an entry whose tried bucket is full. */
    method Evict(ghost t: Tables, id: Id, nOrigin: nat, nKBucket: nat) returns (ghost v: seq<seq<Id>>, ghost pos: nat)
      requires Consistent(keys, t, {}) && id in t.mapInfo && !t.mapInfo[id].fInTried
      requires nOrigin < |t.vvNew| && id in t.vvNew[nOrigin] && nKBucket == keys.TriedBucket(t.mapInfo[id].addr.svc)
      requires Tables() == LeaveNew(t, id) && TriedOk(keys, Tables()) && |t.vvTried[nKBucket]| == TRIED_BUCKET_SIZE
      modifies this
      ensures Valid() && AfterMakeTried(keys, t, Tables(), id, nOrigin, v, pos)
    {
      hide SizesOk, AddrOk, RandomOk, NewOk, TriedOk, CountsOk, AfterMakeTried, LeaveNew, ReplaceTried;
      ghost var draws, winner;
      var nPos;
      LimboIds(t, id);
      nPos, draws, winner := SelectTried(nKBucket);
      v, pos := vvTried, nPos;
      assert Selected(LeaveNew(t, id).mapInfo, t.vvTried[nKBucket], v[nKBucket], pos);
      Evicted(keys, t, id, nOrigin, v, pos);
      var evicted := vvTried[nKBucket][nPos];
      var nUBucket := keys.NewBucket(mapInfo[evicted].addr.svc.ip, mapInfo[evicted].source);
      var b := if |vvNew[nUBucket]| < NEW_BUCKET_SIZE then nUBucket else nOrigin;
      hide Consistent;
      Replace(id, nKBucket, nPos, b);
    }

    /** Puts the entry in its place among the tried, and the entry found there in a new bucket. */
    method Replace(id: Id, nKBucket: nat, nPos: nat, b: nat)
      requires id in mapInfo && |vvTried| == TRIED_BUCKET_COUNT && b < |vvNew|
      requires nKBucket == keys.TriedBucket(mapInfo[id].addr.svc)
      requires nPos < |vvTried[nKBucket]| && vvTried[nKBucket][nPos] in mapInfo
      modifies this
      ensures Tables() == ReplaceTried(keys, old(Tables()), id, nPos, b)
    {
      var evicted := vvTried[nKBucket][nPos];
      mapInfo := mapInfo[evicted := mapInfo[evicted].(fInTried := false, nRefCount := 1)];
      vvNew := vvNew[b := vvNew[b] + {evicted}];
      nNew := nNew + 1;
      vvTried := vvTried[nKBucket := vvTried[nKBucket][nPos := id]];
      mapInfo := mapInfo[id := mapInfo[id].(fInTried := true)];
    }

    /** Searches the new buckets for one that holds the entry, from a random one on, and never in vain. */
    method BucketOf(id: Id) returns (nUBucket: nat)
      requires Valid() && id in mapInfo && !mapInfo[id].fInTried
      ensures nUBucket < |vvNew| && id in vvNew[nUBucket]
    {
      NewSomewhere(Tables(), id);
      assert |vvNew| == NEW_BUCKET_COUNT;
      hide Consistent;
      ghost var b :| 0 <= b < |vvNew| && id in vvNew[b];
      var nRnd := GetRandInt(|vvNew|);
      var n := 0;
      while n < |vvNew|
        invariant 0 <= n <= |vvNew|
        invariant forall c :: 0 <= c < |vvNew| && (c - nRnd) % |vvNew| < n ==> id !in vvNew[c]
      {
        var nB := (n + nRnd) % |vvNew|;
        if id in vvNew[nB] {
          return nB;
        }
        forall c | 0 <= c < |vvNew| && (c - nRnd) % |vvNew| < n + 1 ensures id !in vvNew[c] {
          if (c - nRnd) % |vvNew| == n { Around(c, nRnd, n); }
        }
        n := n + 1;
      }
      assert false;
    }

    /** Records a successful connection; an entry with exactly this service becomes tried. The times stay right
        exactly if the time given is positive, or the service is not known. */
    method Good(addr: Service, nTime: int) returns (ghost nOrigin: nat, ghost v: seq<seq<Id>>, ghost pos: nat)
      requires Valid()
      modifies this
      ensures Valid()
      ensures old(Timely()) ==> (Timely() <==> nTime > 0 || !Has(old(Tables()), addr))
      ensures !Has(old(Tables()), addr) ==> Tables() == old(Tables())
      ensures Has(old(Tables()), addr) ==>
        var id := old(mapAddr)[addr.ip]; var t := SetInfo(old(Tables()), id, Succeeded(old(mapInfo)[id], nTime));
        if old(mapInfo)[id].fInTried then Tables() == t
        else
          && SizesOk(t) && nOrigin < |t.vvNew| && id in t.vvNew[nOrigin]
          && AfterMakeTried(keys, t, Tables(), id, nOrigin, v, pos)
    {
      nOrigin, v, pos := 0, [], 0;
      var found, id := Find(addr.ip);
      if !found { return; }
      if mapInfo[id].addr.svc != addr { return; }
      hide Consistent, TimesOk, AfterMakeTried, SizesOk;
      nOrigin, v, pos := Succeed(id, nTime);
    }

    /** The part of Good for a known entry. */
    method Succeed(id: Id, nTime: int) returns (ghost nOrigin: nat, ghost v: seq<seq<Id>>, ghost pos: nat)
      requires Valid() && id in mapInfo
      modifies this
      ensures Valid()
      ensures old(Timely()) ==> (Timely() <==> nTime > 0)
      ensures var t := SetInfo(old(Tables()), id, Succeeded(old(mapInfo)[id], nTime));
        if old(mapInfo)[id].fInTried then Tables() == t
        else
          && SizesOk(t) && nOrigin < |t.vvNew| && id in t.vvNew[nOrigin]
          && AfterMakeTried(keys, t, Tables(), id, nOrigin, v, pos)
    {
      hide AddrOk, RandomOk, NewOk, TriedOk, CountsOk, AfterMakeTried, TimesOk;
      nOrigin, v, pos := 0, [], 0;
      ghost var t0 := Tables();
      SetSuccess(id, nTime);
      ghost var t := Tables();
      if mapInfo[id].fInTried {
        TimesSucceeded(t0, t, id, nTime);
        return;
      }
      var nUBucket := BucketOf(id);
      nOrigin := nUBucket;
      v, pos := MakeTried(id, nUBucket);
      TimesMadeTried(keys, t0, Tables(), id, nTime, nOrigin, v, pos);
    }

    method SetSuccess(id: Id, nTime: int)
      requires Valid() && id in mapInfo
      modifies `mapInfo
      ensures Valid() && Tables() == SetInfo(old(Tables()), id, Succeeded(old(mapInfo)[id], nTime))
    {
      ghost var info := Succeeded(mapInfo[id], nTime);
      StatisticsKeep(keys, Tables(), {}, id, info);
      hide Consistent;
      mapInfo := mapInfo[id := mapInfo[id].(nLastSuccess := nTime)];
      mapInfo := mapInfo[id := mapInfo[id].(nLastTry := nTime)];
      mapInfo := mapInfo[id := mapInfo[id].(addr := mapInfo[id].addr.(nTime := U32(nTime)))];
      mapInfo := mapInfo[id := mapInfo[id].(nAttempts := 0)];
      assert Tables() == SetInfo(old(Tables()), id, info);
    }

    /** Counts the entry for a new bucket it is not in, making room there first if need be. */
    method Place(id: Id, nUBucket: nat, nNow: int) returns (ghost victim: Id)
      requires id in mapInfo && nUBucket < |vvNew| && id !in vvNew[nUBucket] && !mapInfo[id].fInTried
      requires Consistent(keys, Ref(Tables(), id), {id})
      modifies this
      ensures Valid() && Placed(Ref(old(Tables()), id), Tables(), id, nUBucket, victim)
    {
      hide SizesOk, AddrOk, RandomOk, NewOk, TriedOk, CountsOk, Unref;
      ghost var t := Ref(Tables(), id);
      victim := -1;
      mapInfo := mapInfo[id := mapInfo[id].(nRefCount := mapInfo[id].nRefCount + 1)];
      assert Tables() == t;
      FullBucket(t, nUBucket);
      if |vvNew[nUBucket]| == NEW_BUCKET_SIZE {
        var code;
        ghost var draws;
        code, victim, draws := ShrinkNew(nUBucket, {id}, nNow);
        UnrefMakesRoom(t, nUBucket, victim, id);
      }
      InsertKeeps(keys, Tables(), nUBucket, id);
      vvNew := vvNew[nUBucket := vvNew[nUBucket] + {id}];
    }

    /** The part of Add for an unknown address. */
    method CreateNew(addr: Address, source: NetAddr, nTimePenalty: int) returns (id: Id)
      modifies this
      ensures id == old(nIdCount) && id in mapInfo && !mapInfo[id].fInTried && vvNew == old(vvNew)
      ensures Ref(Tables(), id) == CreateRef(old(Tables()), addr, source, U32(Max(0, addr.nTime - nTimePenalty)))
    {
      id := Create(addr, source);
      var nTime := U32(Max(0, mapInfo[id].addr.nTime - nTimePenalty));
      mapInfo := mapInfo[id := mapInfo[id].(addr := mapInfo[id].addr.(nTime := nTime))];
      nNew := nNew + 1;
    }

    /** Records an address heard of from a source; returns whether it was new. */
    method Add(addr: Address, source: NetAddr, nTimePenalty: int, nNow: int)
      returns (fNew: bool, ghost inserted: bool, ghost victim: Id)
      requires Valid()
      modifies this
      ensures Valid() && (old(Timely()) ==> Timely())
      ensures fNew == (routable(addr.svc.ip) && addr.svc.ip !in old(mapAddr))
      ensures !routable(addr.svc.ip) ==> Tables() == old(Tables())
      ensures routable(addr.svc.ip) ==>
        AfterAdd(keys, old(Tables()), Tables(), addr, source, nTimePenalty, nNow, inserted, victim)
    {
      fNew, inserted, victim := false, false, -1;
      if !routable(addr.svc.ip) { return; }
      var found, id := Find(addr.svc.ip);
      hide Consistent, AfterAdd, TimesOk;
      if found {
        inserted, victim := AddKnown(id, addr, source, nTimePenalty, nNow);
      } else {
        fNew, inserted := true, true;
        victim := AddNew(addr, source, nTimePenalty, nNow);
      }
      if old(Timely()) {
        TimesAdded(keys, old(Tables()), Tables(), addr, source, nTimePenalty, nNow, inserted, victim);
      }
    }

    method AddKnown(id: Id, addr: Address, source: NetAddr, nTimePenalty: int, nNow: int)
      returns (ghost inserted: bool, ghost victim: Id)
      requires Valid() && addr.svc.ip in mapAddr && id == mapAddr[addr.svc.ip] && id in mapInfo
      requires mapInfo[id].addr.svc.ip == addr.svc.ip
      modifies this
      ensures Valid() && AfterAdd(keys, old(Tables()), Tables(), addr, source, nTimePenalty, nNow, inserted, victim)
    {
      inserted, victim := false, -1;
      assert |vvNew| == NEW_BUCKET_COUNT;
      var fInsert := Refresh(id, addr, nTimePenalty, nNow);
      if !fInsert { return; }
      var nUBucket := keys.NewBucket(addr.svc.ip, source);
      if id !in vvNew[nUBucket] {
        inserted := true;
        RefKeeps(keys, Tables(), id);
        hide Consistent, Placed, Refreshed, News;
        victim := Place(id, nUBucket, nNow);
      }
    }

    method AddNew(addr: Address, source: NetAddr, nTimePenalty: int, nNow: int) returns (ghost victim: Id)
      requires Valid() && addr.svc.ip !in mapAddr
      modifies this
      ensures Valid() && AfterAdd(keys, old(Tables()), Tables(), addr, source, nTimePenalty, nNow, true, victim)
    {
      hide SizesOk, AddrOk, RandomOk, NewOk, TriedOk, CountsOk, CreateRef, Placed;
      CreateKeeps(keys, Tables(), addr, source, U32(Max(0, addr.nTime - nTimePenalty)));
      NewUnlisted(Tables());
      hide Consistent;
      var id := CreateNew(addr, source, nTimePenalty);
      victim := Place(id, keys.NewBucket(addr.svc.ip, source), nNow);
    }

    /** The part of Add for an address already known: updates the entry, and decides, partly by chance,
        whether it may be put in one more new bucket. */
    method Refresh(id: Id, addr: Address, nTimePenalty: int, nNow: int) returns (fInsert: bool)
      requires Valid() && id in mapInfo && mapInfo[id].addr.svc.ip == addr.svc.ip
      modifies `mapInfo
      ensures Valid() && Tables() == SetInfo(old(Tables()), id, Refreshed(old(mapInfo)[id], addr, nTimePenalty, nNow))
      ensures fInsert ==> News(mapInfo[id], addr)
      ensures fInsert ==> !mapInfo[id].fInTried && mapInfo[id].nRefCount < NEW_BUCKETS_PER_ADDRESS
    {
      StatisticsKeep(keys, Tables(), {}, id, Refreshed(mapInfo[id], addr, nTimePenalty, nNow));
      RefCounts(Tables(), id);
      hide SizesOk, AddrOk, RandomOk, NewOk, TriedOk, CountsOk;
      var fCurrentlyOnline := nNow - addr.nTime < 24 * 60 * 60;
      var nUpdateInterval := if fCurrentlyOnline then 60 * 60 else 24 * 60 * 60;
      var info := mapInfo[id];
      if addr.nTime != 0 && (info.addr.nTime == 0 || info.addr.nTime < addr.nTime - nUpdateInterval - nTimePenalty) {
        info := info.(addr := info.addr.(nTime := U32(Max(0, addr.nTime - nTimePenalty))));
      }
      info := info.(addr := info.addr.(nServices := info.addr.nServices + addr.nServices));
      assert info == Refreshed(mapInfo[id], addr, nTimePenalty, nNow);
      hide Refreshed, Consistent;
      mapInfo := mapInfo[id := info];
      if addr.nTime == 0 || (info.addr.nTime != 0 && addr.nTime <= info.addr.nTime) { return false; }
      if info.fInTried { return false; }
      if info.nRefCount == NEW_BUCKETS_PER_ADDRESS { return false; }
      fInsert := Lucky(info.nRefCount);
    }

    /** Records an attempt to connect. */
    method Attempt(addr: Service, nTime: int)
      requires Valid()
      modifies `mapInfo
      ensures Valid()
      ensures old(Timely()) ==> (Timely() <==> nTime >= 0 || !Has(old(Tables()), addr))
      ensures Tables() == if !Has(old(Tables()), addr) then old(Tables()) else
        var id := old(mapAddr)[addr.ip];
        SetInfo(old(Tables()), id, old(mapInfo)[id].(nLastTry := nTime, nAttempts := old(mapInfo)[id].nAttempts + 1))
    {
      hide SizesOk, AddrOk, RandomOk, NewOk, TriedOk, CountsOk, TimesOk;
      var found, id := Find(addr.ip);
      if !found { return; }
      if mapInfo[id].addr.svc != addr { return; }
      ghost var t, info := Tables(), mapInfo[id].(nLastTry := nTime, nAttempts := mapInfo[id].nAttempts + 1);
      StatisticsKeep(keys, t, {}, id, info);
      TimesTried(t, id, nTime, info);
      hide Consistent;
      mapInfo := mapInfo[id := mapInfo[id].(nLastTry := nTime)];
      mapInfo := mapInfo[id := mapInfo[id].(nAttempts := mapInfo[id].nAttempts + 1)];
      assert Tables() == SetInfo(t, id, info);
    }

    /** Records that a connection is up, at most once in twenty minutes. */
    method Connected(addr: Service, nTime: int)
      requires Valid()
      modifies `mapInfo
      ensures Valid() && (old(Timely()) ==> Timely())
      ensures Tables() == if !Has(old(Tables()), addr) then old(Tables()) else
        var id := old(mapAddr)[addr.ip]; var info := old(mapInfo)[id];
        if nTime - info.addr.nTime <= 20 * 60 then old(Tables())
        else SetInfo(old(Tables()), id, info.(addr := info.addr.(nTime := U32(nTime))))
    {
      var found, id := Find(addr.ip);
      if !found { return; }
      if mapInfo[id].addr.svc != addr { return; }
      TriedUncounted(keys, Tables());
      StatisticsKeep(keys, Tables(), {}, id, mapInfo[id].(addr := mapInfo[id].addr.(nTime := U32(nTime))));
      hide SizesOk, AddrOk, RandomOk, NewOk, TriedOk, CountsOk;
      var nUpdateInterval := 20 * 60;
      if nTime - mapInfo[id].addr.nTime > nUpdateInterval {
        mapInfo := mapInfo[id := mapInfo[id].(addr := mapInfo[id].addr.(nTime := U32(nTime)))];
      }
    }

    /** Up to 23 percent of the addresses, and 2500 at most, drawn without repetition. */
    method GetAddr() returns (vAddr: seq<Address>)
      requires Valid()
      modifies `mapInfo, `vRandom
      ensures Valid() && (old(Timely()) ==> Timely())
      ensures SameButOrder(old(mapInfo), mapInfo) && multiset(vRandom) == multiset(old(vRandom))
      ensures |vAddr| == Min(GETADDR_MAX_PCT * |vRandom| / 100, GETADDR_MAX)
      ensures Drawn(mapInfo, vRandom, vAddr)
      ensures forall m, n :: 0 <= m < n < |vAddr| ==> vAddr[m].svc.ip != vAddr[n].svc.ip
    {
      vAddr := [];
      var nNodes := GETADDR_MAX_PCT * |vRandom| / 100;
      if nNodes > GETADDR_MAX { nNodes := GETADDR_MAX; }
      var n := 0;
      hide SizesOk, AddrOk, RandomOk, NewOk, TriedOk, CountsOk, SameButOrder, Drawn;
      assert SameButOrder(mapInfo, mapInfo) by { OrderSame(mapInfo); }
      while n < nNodes
        invariant 0 <= n <= nNodes && |vAddr| == n && |vRandom| == old(|vRandom|)
        invariant Valid() && SameButOrder(old(mapInfo), mapInfo) && multiset(vRandom) == multiset(old(vRandom))
        invariant Drawn(mapInfo, vRandom, vAddr)
      {
        var r := GetRandInt(|vRandom| - n);
        var nRndPos := r + n;
        ghost var t := Tables();
        ghost var s := AddrTables.SwapRandom(t, n, nRndPos);
        assert Consistent(keys, s, {}) by { SwapKeeps(keys, t, {}, n, nRndPos); }
        DrawNext(t, n, nRndPos, vAddr);
        OrderStep(old(mapInfo), t.mapInfo, s.mapInfo);
        hide AddrTables.SwapRandom, Consistent;
        SwapRandom(n, nRndPos);
        assert Tables() == s;
        vAddr := vAddr + [mapInfo[vRandom[n]].addr];
        n := n + 1;
      }
      DistinctAddresses(Tables(), vAddr);
    }

    /** The consistency check: returns 0, or the number of the first fault. A missing address is entered
        into the map as a side effect of looking it up. */
    method Check() returns (code: int)
      modifies `mapAddr
      ensures code == 0 <==> Passes(old(Tables()))
      ensures old(AddrOk(Tables())) ==> mapAddr == old(mapAddr)
      ensures old(Valid()) ==> Tables() == old(Tables()) && (code == 0 <==> Timely())
    {
      ghost var t := Tables();
      if Consistent(keys, t, {}) { PassesIff(keys, t); }
      if AddrOk(t) { AllEntered(t); }
      code := CheckEntries();
      hide Consistent, EntryOk;
      if code != 0 { return; }
      assert mapInfo == t.mapInfo && vRandom == t.vRandom;
      EntriesCounted(t);
      code := CheckBuckets();
    }

    /** The part of the check that counts the entries and compares them with the buckets. */
    method CheckBuckets() returns (code: int)
      requires forall id :: id in mapInfo && !mapInfo[id].fInTried ==> mapInfo[id].nRefCount >= 1
      ensures code == 0 <==> CountsOk(Tables()) && BucketsPass(Tables())
    {
      hide NewBucketsOf, ListedApart, Listed;
      var setTried := set id | id in mapInfo && mapInfo[id].fInTried;
      var mapNew := map id | id in mapInfo && !mapInfo[id].fInTried :: mapInfo[id].nRefCount;
      assert setTried == TriedIds(mapInfo) && mapNew.Keys == NewIds(mapInfo);
      assert |mapNew| == |mapNew.Keys|;
      if |setTried| != nTried { return -9; }
      if |mapNew| != nNew { return -10; }
      var ok, left := StrikeTried(vvTried, setTried);
      if !ok { return -11; }
      assert forall id :: RefsOf(mapInfo, id) == Refs(mapNew, id);
      var ok', left' := StrikeNew(vvNew, mapNew);
      if !ok' { return -12; }
      SetOrder.HasElement(left'.Keys);
      SetOrder.HasElement(left);
      if |left| != 0 { return -13; }
      if |left'| != 0 { return -15; }
      return 0;
    }

    /** The part of the check that looks at the entries one by one, in ascending order. */
    method CheckEntries() returns (code: int)
      modifies `mapAddr
      ensures code == 0 <==> |vRandom| == nTried + nNew && forall id :: id in mapInfo ==>
        EntryOk(old(mapAddr), vRandom, id, mapInfo[id])
      ensures Entered(mapInfo, old(mapAddr)) ==> mapAddr == old(mapAddr)
    {
      ghost var complete := Entered(mapInfo, mapAddr);
      hide EntryOk, AddrOk, SameLookups, EntriesOk, Entered, SetOrder.Ascending, SetOrder.Increasing;
      LookupsSame(mapAddr);
      if |vRandom| != nTried + nNew { return -7; }
      var order := SetOrder.Ascending(mapInfo.Keys);
      var i := 0;
      NoEntries(mapAddr, vRandom, mapInfo);
      while i < |order|
        invariant 0 <= i <= |order|
        invariant EntriesOk(old(mapAddr), vRandom, mapInfo, order[..i]) && SameLookups(old(mapAddr), mapAddr)
        invariant complete ==> mapAddr == old(mapAddr)
      {
        var n := order[i];
        assert n in order && order[..i + 1] == order[..i] + [n];
        if complete { EnteredOne(mapInfo, mapAddr, n); }
        SameLookup(old(mapAddr), mapAddr, vRandom, n, mapInfo[n]);
        ghost var m := mapAddr;
        code := CheckEntry(n, mapInfo[n]);
        LookupsCompose(old(mapAddr), m, mapAddr);
        if code != 0 {
          NotAllEntries(old(mapAddr), vRandom, mapInfo, n);
          return;
        }
        NextEntry(old(mapAddr), vRandom, mapInfo, order[..i], n);
        i := i + 1;
      }
      assert order[..i] == order;
      AllEntries(old(mapAddr), vRandom, mapInfo, order);
      return 0;
    }

    method CheckEntry(n: Id, info: AddrInfo) returns (code: int)
      modifies `mapAddr
      ensures code == 0 <==> EntryOk(old(mapAddr), vRandom, n, info)
      ensures SameLookups(old(mapAddr), mapAddr)
      ensures info.addr.svc.ip in old(mapAddr) ==> mapAddr == old(mapAddr)
    {
      if info.fInTried {
        if info.nLastSuccess == 0 { return -1; }
        if info.nRefCount != 0 { return -2; }
      } else {
        if info.nRefCount < 0 || info.nRefCount > NEW_BUCKETS_PER_ADDRESS { return -3; }
        if info.nRefCount == 0 { return -4; }
      }
      var ip := info.addr.svc.ip;
      if ip !in mapAddr { mapAddr := mapAddr[ip := 0]; }
      if mapAddr[ip] != n { return -5; }
      if info.nRandomPos < 0 || info.nRandomPos >= |vRandom| || vRandom[info.nRandomPos] != n { return -14; }
      if info.nLastTry < 0 { return -6; }
      if info.nLastSuccess < 0 { return -8; }
      return 0;
    }
  }

  /** How MakeTried changes the tables: the entry leaves the new buckets; if there is place in its tried
      bucket it is appended there, otherwise, the bucket having been shuffled into v, it takes the place of
      the entry at the place selected, which goes to its own new bucket or, if that is full, to the one given. */
  ghost predicate AfterMakeTried(keys: Keys, t: Tables, s: Tables, id: Id, nOrigin: nat, v: seq<seq<Id>>, pos: nat)
    requires SizesOk(t) && id in t.mapInfo && nOrigin < |t.vvNew|
  {
    var k := keys.TriedBucket(t.mapInfo[id].addr.svc);
    var left := LeaveNew(t, id);
    if |t.vvTried[k]| < TRIED_BUCKET_SIZE then
      s == EnterTried(keys, left, id)
    else
      && |v| == |t.vvTried| && pos < |v[k]| && v[k][pos] in t.mapInfo
      && multiset(v[k]) == multiset(t.vvTried[k]) && Selected(left.mapInfo, t.vvTried[k], v[k], pos)
      && (forall b :: 0 <= b < |v| && b != k ==> v[b] == t.vvTried[b])
      && var evicted := t.mapInfo[v[k][pos]];
         var nUBucket := keys.NewBucket(evicted.addr.svc.ip, evicted.source);
         var b := if |left.vvNew[nUBucket]| < NEW_BUCKET_SIZE then nUBucket else nOrigin;
         s == ReplaceTried(keys, left.(vvTried := v), id, pos, b)
  }

  /** The tried buckets are in order while an entry is on its way to them. */
  lemma LimboTried(keys: Keys, t: Tables, id: Id)
    requires TriedOk(keys, t) && id in t.mapInfo && !t.mapInfo[id].fInTried
    ensures TriedOk(keys, LeaveNew(t, id))
  {
    TriedUncounted(keys, t);
    TriedFrame(keys, t, LeaveNew(t, id), id);
  }

  lemma LimboIds(t: Tables, id: Id)
    requires SizesOk(t) && id in t.mapInfo
    ensures |t.vvTried| == TRIED_BUCKET_COUNT && |t.vvNew| == NEW_BUCKET_COUNT
    ensures var s := LeaveNew(t, id);
      && s.vvTried == t.vvTried && |s.vvNew| == |t.vvNew| && (forall k :: k in s.mapInfo ==> k >= 0)
      && id in s.mapInfo && s.mapInfo[id].addr == t.mapInfo[id].addr
  {
  }

  /** The new bucket of an entry that goes back to the new buckets. */
  function ReturnBucket(keys: Keys, t: Tables, out: Id, nOrigin: nat): (b: nat)
    requires |t.vvNew| == NEW_BUCKET_COUNT && out in t.mapInfo && nOrigin < |t.vvNew|
    ensures b < |t.vvNew|
  {
    var own := keys.NewBucket(t.mapInfo[out].addr.svc.ip, t.mapInfo[out].source);
    if |t.vvNew[own]| < NEW_BUCKET_SIZE then own else nOrigin
  }

  /** Exchanging an entry with one of its full tried bucket, which has been shuffled. */
  lemma Evicted(keys: Keys, t: Tables, id: Id, nOrigin: nat, v: seq<seq<Id>>, pos: nat)
    requires Consistent(keys, t, {}) && id in t.mapInfo && !t.mapInfo[id].fInTried
    requires nOrigin < |t.vvNew| && id in t.vvNew[nOrigin]
    requires |v| == |t.vvTried| && TriedOk(keys, LeaveNew(t, id).(vvTried := v))
    requires var k := keys.TriedBucket(t.mapInfo[id].addr.svc);
      && k < |v| && |t.vvTried[k]| == TRIED_BUCKET_SIZE && Shuffle(t.vvTried[k], v[k]) && pos < |v[k]|
      && Selected(LeaveNew(t, id).mapInfo, t.vvTried[k], v[k], pos)
      && forall b :: 0 <= b < |v| && b != k ==> v[b] == t.vvTried[b]
    ensures var out := v[keys.TriedBucket(t.mapInfo[id].addr.svc)][pos]; var limbo := LeaveNew(t, id).(vvTried := v);
      && |v| == TRIED_BUCKET_COUNT && |t.vvNew| == NEW_BUCKET_COUNT && SizesOk(t) && out in t.mapInfo
      && out in limbo.mapInfo
      && var b := ReturnBucket(keys, limbo, out, nOrigin);
         var s := ReplaceTried(keys, limbo, id, pos, b);
         && Consistent(keys, s, {}) && AfterMakeTried(keys, t, s, id, nOrigin, v, pos)
         && limbo.mapInfo[out].addr == t.mapInfo[out].addr && limbo.mapInfo[out].source == t.mapInfo[out].source
  {
    Shuffled(keys, t, id, v);
    EvictedOne(keys, t, id, v, pos);
    assert SizesOk(t);
    EvictedRoom(keys, t, id, nOrigin, v, pos);
    hide SizesOk, AddrOk, RandomOk, NewOk, TriedOk, CountsOk;
    var t' := t.(vvTried := v);
    var limbo := LeaveNew(t, id).(vvTried := v);
    var k := keys.TriedBucket(t.mapInfo[id].addr.svc);
    var b := ReturnBucket(keys, limbo, v[k][pos], nOrigin);
    assert LeaveNew(t', id) == limbo;
    ReplaceKeeps(keys, t', id, pos, b);
  }

  lemma EvictedOne(keys: Keys, t: Tables, id: Id, v: seq<seq<Id>>, pos: nat)
    requires SizesOk(t) && id in t.mapInfo && !t.mapInfo[id].fInTried
    requires |v| == |t.vvTried| && TriedOk(keys, LeaveNew(t, id).(vvTried := v))
    requires pos < |v[keys.TriedBucket(t.mapInfo[id].addr.svc)]|
    ensures var out := v[keys.TriedBucket(t.mapInfo[id].addr.svc)][pos];
      out != id && out in t.mapInfo && LeaveNew(t, id).mapInfo[out] == t.mapInfo[out]
  {
    TriedOne(keys, LeaveNew(t, id).(vvTried := v), keys.TriedBucket(t.mapInfo[id].addr.svc), pos);
    hide TriedOk;
  }

  lemma EvictedRoom(keys: Keys, t: Tables, id: Id, nOrigin: nat, v: seq<seq<Id>>, pos: nat)
    requires SizesOk(t) && id in t.mapInfo && nOrigin < |t.vvNew| && id in t.vvNew[nOrigin] && |v| == |t.vvTried|
    requires var k := keys.TriedBucket(t.mapInfo[id].addr.svc); pos < |v[k]| && v[k][pos] in LeaveNew(t, id).mapInfo
    ensures var k := keys.TriedBucket(t.mapInfo[id].addr.svc); var limbo := LeaveNew(t, id).(vvTried := v);
      |t.vvNew[ReturnBucket(keys, limbo, v[k][pos], nOrigin)] - {id}| < NEW_BUCKET_SIZE
  {
    assert |t.vvNew[nOrigin] - {id}| < |t.vvNew[nOrigin]|;
  }

  /** Shuffling a tried bucket leaves consistent tables consistent. */
  lemma Shuffled(keys: Keys, t: Tables, id: Id, v: seq<seq<Id>>)
    requires Consistent(keys, t, {}) && id in t.mapInfo && !t.mapInfo[id].fInTried
    requires |v| == |t.vvTried| && TriedOk(keys, LeaveNew(t, id).(vvTried := v))
    requires forall b :: 0 <= b < |v| ==> |v[b]| == |t.vvTried[b]|
    ensures Consistent(keys, t.(vvTried := v), {})
  {
    TriedUncounted(keys, t);
    assert SizesOk(t.(vvTried := v));
    hide SizesOk, AddrOk, RandomOk, NewOk, CountsOk;
    SameBut(t, t.(vvTried := v), {});
    SameCounts(t, t.(vvTried := v));
    hide TriedOk;
    TriedFrame(keys, LeaveNew(t, id).(vvTried := v), t.(vvTried := v), id);
  }

  lemma InBucket(t: Tables, pending: set<Id>, b: nat)
    requires SizesOk(t) && NewOk(t, pending) && b < |t.vvNew|
    ensures forall id :: id in t.vvNew[b] ==> id in t.mapInfo && !t.mapInfo[id].fInTried && id >= 0
  {
  }

  /** After Good, the entries are the ones there were, and exactly the named one has become tried, in
      exchange, if its bucket was full, for the one that has left it. */
  lemma MadeTried(keys: Keys, t: Tables, s: Tables, id: Id, nOrigin: nat, v: seq<seq<Id>>, pos: nat)
    requires Consistent(keys, t, {}) && id in t.mapInfo && !t.mapInfo[id].fInTried && nOrigin < |t.vvNew|
    requires AfterMakeTried(keys, t, s, id, nOrigin, v, pos)
    ensures s.mapInfo.Keys == t.mapInfo.Keys && s.mapAddr == t.mapAddr && s.vRandom == t.vRandom
    ensures forall k :: k in t.mapInfo ==>
      s.mapInfo[k] == t.mapInfo[k].(fInTried := s.mapInfo[k].fInTried, nRefCount := s.mapInfo[k].nRefCount)
    ensures var k := keys.TriedBucket(t.mapInfo[id].addr.svc);
      if |t.vvTried[k]| < TRIED_BUCKET_SIZE then TriedIds(s.mapInfo) == TriedIds(t.mapInfo) + {id}
      else
        && pos < |v[k]| && v[k][pos] in TriedIds(t.mapInfo)
        && TriedIds(s.mapInfo) == TriedIds(t.mapInfo) + {id} - {v[k][pos]}
  {
    if |t.vvTried[keys.TriedBucket(t.mapInfo[id].addr.svc)]| >= TRIED_BUCKET_SIZE {
      MadeTriedFull(keys, t, s, id, nOrigin, v, pos);
    } else {
      hide AddrOk, RandomOk, NewOk, TriedOk, CountsOk;
    }
  }

  lemma MadeTriedFull(keys: Keys, t: Tables, s: Tables, id: Id, nOrigin: nat, v: seq<seq<Id>>, pos: nat)
    requires SizesOk(t) && TriedOk(keys, t) && id in t.mapInfo && !t.mapInfo[id].fInTried && nOrigin < |t.vvNew|
    requires |t.vvTried[keys.TriedBucket(t.mapInfo[id].addr.svc)]| >= TRIED_BUCKET_SIZE
    requires AfterMakeTried(keys, t, s, id, nOrigin, v, pos)
    ensures s.mapInfo.Keys == t.mapInfo.Keys && s.mapAddr == t.mapAddr && s.vRandom == t.vRandom
    ensures forall k :: k in t.mapInfo ==>
      s.mapInfo[k] == t.mapInfo[k].(fInTried := s.mapInfo[k].fInTried, nRefCount := s.mapInfo[k].nRefCount)
    ensures var k := keys.TriedBucket(t.mapInfo[id].addr.svc);
      && pos < |v[k]| && v[k][pos] in TriedIds(t.mapInfo)
      && TriedIds(s.mapInfo) == TriedIds(t.mapInfo) + {id} - {v[k][pos]}
  {
    hide TriedOk;
    var k := keys.TriedBucket(t.mapInfo[id].addr.svc);
    var out := v[k][pos];
    assert out in multiset(v[k]);
    assert out in t.vvTried[k];
    var i :| 0 <= i < |t.vvTried[k]| && t.vvTried[k][i] == out;
    TriedOne(keys, t, k, i);
    FullExchange(keys, t, s, id, nOrigin, v, pos);
    hide AfterMakeTried, SizesOk;
    Exchanged(t.mapInfo, s.mapInfo, id, out);
  }

  /** What the exchange does to the entries. */
  lemma FullExchange(keys: Keys, t: Tables, s: Tables, id: Id, nOrigin: nat, v: seq<seq<Id>>, pos: nat)
    requires SizesOk(t) && id in t.mapInfo && nOrigin < |t.vvNew|
    requires |t.vvTried[keys.TriedBucket(t.mapInfo[id].addr.svc)]| >= TRIED_BUCKET_SIZE
    requires AfterMakeTried(keys, t, s, id, nOrigin, v, pos)
    requires var out := v[keys.TriedBucket(t.mapInfo[id].addr.svc)][pos]; out in t.mapInfo && out != id
    ensures s.mapAddr == t.mapAddr && s.vRandom == t.vRandom
    ensures var out := v[keys.TriedBucket(t.mapInfo[id].addr.svc)][pos];
      s.mapInfo == t.mapInfo[id := t.mapInfo[id].(fInTried := true, nRefCount := 0)]
                            [out := t.mapInfo[out].(fInTried := false, nRefCount := 1)]
  {
  }

  /* ---- the times recorded ---- */

  /** The times stay right if the one entry's are and no other entry has become tried. */
  lemma TimesSucceeded(t: Tables, s: Tables, id: Id, nTime: int)
    requires id in t.mapInfo && s.mapInfo.Keys == t.mapInfo.Keys
    requires s.mapInfo[id].fInTried && s.mapInfo[id].nLastTry == nTime && s.mapInfo[id].nLastSuccess == nTime
    requires forall k :: k in t.mapInfo && k != id ==>
      && s.mapInfo[k].nLastTry == t.mapInfo[k].nLastTry && s.mapInfo[k].nLastSuccess == t.mapInfo[k].nLastSuccess
      && (s.mapInfo[k].fInTried ==> t.mapInfo[k].fInTried)
    ensures TimesOk(t) ==> (TimesOk(s) <==> nTime > 0)
  {
    assert id in s.mapInfo;
    assert TimeOk(s.mapInfo[id]) <==> nTime > 0;
    if TimesOk(t) {
      forall k | k in s.mapInfo && k != id ensures TimeOk(s.mapInfo[k]) {
        assert k in t.mapInfo && TimeOk(t.mapInfo[k]);
      }
    }
  }

  lemma TimesTried(t: Tables, id: Id, nTime: int, info: AddrInfo)
    requires id in t.mapInfo && info.fInTried == t.mapInfo[id].fInTried
    requires info.nLastSuccess == t.mapInfo[id].nLastSuccess
    requires info.nLastTry == nTime
    ensures TimesOk(t) ==> (TimesOk(SetInfo(t, id, info)) <==> nTime >= 0)
  {
    var s := SetInfo(t, id, info);
    assert id in s.mapInfo && s.mapInfo[id] == info;
    if TimesOk(t) {
      assert TimeOk(t.mapInfo[id]);
      forall k | k in s.mapInfo && k != id ensures TimeOk(s.mapInfo[k]) {
        assert k in t.mapInfo && TimeOk(t.mapInfo[k]);
      }
    }
  }

  lemma TimesMadeTried(keys: Keys, t0: Tables, s: Tables, id: Id, nTime: int, nOrigin: nat, v: seq<seq<Id>>, pos: nat)
    requires id in t0.mapInfo && !t0.mapInfo[id].fInTried
    requires var t := SetInfo(t0, id, Succeeded(t0.mapInfo[id], nTime));
      Consistent(keys, t, {}) && nOrigin < |t.vvNew| && AfterMakeTried(keys, t, s, id, nOrigin, v, pos)
    ensures TimesOk(t0) ==> (TimesOk(s) <==> nTime > 0)
  {
    var t := SetInfo(t0, id, Succeeded(t0.mapInfo[id], nTime));
    MadeTried(keys, t, s, id, nOrigin, v, pos);
    MadeTriedOne(keys, t, s, id, nOrigin, v, pos);
    hide Consistent, AfterMakeTried, TimesOk;
    assert s.mapInfo.Keys == t0.mapInfo.Keys;
    forall k | k in t0.mapInfo && k != id
      ensures s.mapInfo[k].nLastTry == t0.mapInfo[k].nLastTry && s.mapInfo[k].nLastSuccess == t0.mapInfo[k].nLastSuccess
      ensures s.mapInfo[k].fInTried ==> t0.mapInfo[k].fInTried
    {
      assert k in t.mapInfo && t.mapInfo[k] == t0.mapInfo[k];
      if s.mapInfo[k].fInTried { assert k in TriedIds(s.mapInfo); }
    }
    TimesSucceeded(t0, s, id, nTime);
  }

  lemma MadeTriedOne(keys: Keys, t: Tables, s: Tables, id: Id, nOrigin: nat, v: seq<seq<Id>>, pos: nat)
    requires Consistent(keys, t, {}) && id in t.mapInfo && !t.mapInfo[id].fInTried && nOrigin < |t.vvNew|
    requires AfterMakeTried(keys, t, s, id, nOrigin, v, pos)
    ensures id in s.mapInfo && s.mapInfo[id].fInTried
  {
    hide AddrOk, RandomOk, NewOk, TriedOk, CountsOk;
  }

  /** Taking a victim out of a bucket and putting an entry in changes no times. */
  lemma TimesPlaced(t: Tables, s: Tables, id: Id, b: nat, victim: Id)
    requires SizesOk(t) && AddrOk(t) && RandomOk(t) && TimesOk(t) && b < |t.vvNew| && Placed(t, s, id, b, victim)
    ensures TimesOk(s)
  {
    if |t.vvNew[b]| == NEW_BUCKET_SIZE {
      UnrefIndexes(t, b, victim);
      hide SizesOk, AddrOk, RandomOk, Unref;
      var u := Unref(t, b, victim);
      forall k | k in u.mapInfo ensures TimeOk(u.mapInfo[k]) { assert k in t.mapInfo && TimeOk(t.mapInfo[k]); }
    }
  }

  lemma TimesAdded(keys: Keys, t: Tables, s: Tables, addr: Address, source: NetAddr, nTimePenalty: int, nNow: int,
      inserted: bool, victim: Id)
    requires Consistent(keys, t, {}) && TimesOk(t)
    requires AfterAdd(keys, t, s, addr, source, nTimePenalty, nNow, inserted, victim)
    ensures TimesOk(s)
  {
    hide SizesOk, AddrOk, RandomOk, NewOk, TriedOk, CountsOk, Placed, CreateRef, Refreshed, TimesOk, Consistent;
    if addr.svc.ip in t.mapAddr {
      TimesAddedKnown(keys, t, s, addr, source, nTimePenalty, nNow, inserted, victim);
    } else {
      TimesAddedNew(keys, t, s, addr, source, U32(Max(0, addr.nTime - nTimePenalty)), victim);
    }
  }

  lemma TimesAddedNew(keys: Keys, t: Tables, s: Tables, addr: Address, source: NetAddr, nTime: nat, victim: Id)
    requires Consistent(keys, t, {}) && TimesOk(t) && addr.svc.ip !in t.mapAddr
    requires Placed(CreateRef(t, addr, source, nTime), s, t.nIdCount, keys.NewBucket(addr.svc.ip, source), victim)
    ensures TimesOk(s)
  {
    hide AddrOk, RandomOk, NewOk, TriedOk, CountsOk, Placed, CreateRef;
    CreateIndexes(t, addr, source, nTime);
    var c := CreateRef(t, addr, source, nTime);
    forall k | k in c.mapInfo ensures TimeOk(c.mapInfo[k]) {
      if k != t.nIdCount { assert k in t.mapInfo && TimeOk(t.mapInfo[k]); }
    }
    TimesPlaced(c, s, t.nIdCount, keys.NewBucket(addr.svc.ip, source), victim);
  }

  lemma TimesAddedKnown(keys: Keys, t: Tables, s: Tables, addr: Address, source: NetAddr, nTimePenalty: int, nNow: int,
      inserted: bool, victim: Id)
    requires Consistent(keys, t, {}) && TimesOk(t)
    requires AfterAdd(keys, t, s, addr, source, nTimePenalty, nNow, inserted, victim)
    requires addr.svc.ip in t.mapAddr
    ensures TimesOk(s)
  {
    var id := t.mapAddr[addr.svc.ip];
    var info := Refreshed(t.mapInfo[id], addr, nTimePenalty, nNow);
    assert SameBooks(t.mapInfo[id], info) && TimeOk(info) by { assert TimeOk(t.mapInfo[id]); }
    StatisticsKeep(keys, t, {}, id, info);
    hide Refreshed, SizesOk, AddrOk, RandomOk, NewOk, TriedOk, CountsOk, Placed;
    var seen := SetInfo(t, id, info);
    if inserted {
      RefKeeps(keys, seen, id);
      TimesPlaced(Ref(seen, id), s, id, keys.NewBucket(addr.svc.ip, source), victim);
    }
  }

  lemma Exchanged(m: map<Id, AddrInfo>, n: map<Id, AddrInfo>, id: Id, out: Id)
    requires id in m && out in m && id != out && id in n && out in n
    requires n == m[id := n[id]][out := n[out]] && n[id].fInTried && !n[out].fInTried && m[out].fInTried
    requires n[id] == m[id].(fInTried := true, nRefCount := n[id].nRefCount)
    requires n[out] == m[out].(fInTried := false, nRefCount := n[out].nRefCount)
    ensures n.Keys == m.Keys && TriedIds(n) == TriedIds(m) + {id} - {out}
    ensures forall k :: k in m ==> n[k] == m[k].(fInTried := n[k].fInTried, nRefCount := n[k].nRefCount)
  {
  }

  lemma PlacedMeans(keys: Keys, t: Tables, s: Tables, id: Id, b: nat, victim: Id)
    requires Consistent(keys, t, {id}) && id in t.mapInfo && !t.mapInfo[id].fInTried
    requires b < |t.vvNew| && id !in t.vvNew[b] && Placed(t, s, id, b, victim)
    ensures s.vvTried == t.vvTried && s.nTried == t.nTried && t.mapInfo[id].addr.svc.ip in s.mapAddr
    ensures forall k :: k in t.mapInfo && k != victim ==>
      k in s.mapInfo && s.mapInfo[k].fInTried == t.mapInfo[k].fInTried
    ensures victim in t.mapInfo && victim !in s.mapInfo ==>
      victim != id && !t.mapInfo[victim].fInTried && t.mapInfo[victim].nRefCount == 1 && victim in t.vvNew[b]
  {
    assert AddrOk(t);
    if |t.vvNew[b]| == NEW_BUCKET_SIZE {
      UnrefMember(t, {id}, b, victim);
      UnrefIndexes(t, b, victim);
      hide AddrOk, RandomOk, TriedOk, NewOk, Unref, Consistent;
      var u := Unref(t, b, victim);
      assert t.mapInfo[id].addr.svc.ip in u.mapAddr by { Known(u, id); }
    } else {
      Known(t, id);
    }
  }

  lemma Known(t: Tables, id: Id)
    requires AddrOk(t) && id in t.mapInfo
    ensures t.mapInfo[id].addr.svc.ip in t.mapAddr
  {
  }

  /** After Add the address is known, the tried entries and their buckets are the ones there were, and at
      most one entry is gone: an untried one that had a single bucket, the one the new entry went to. */
  lemma Added(keys: Keys, t: Tables, s: Tables, addr: Address, source: NetAddr, nTimePenalty: int, nNow: int,
      inserted: bool, victim: Id)
    requires Consistent(keys, t, {}) && AfterAdd(keys, t, s, addr, source, nTimePenalty, nNow, inserted, victim)
    ensures addr.svc.ip in s.mapAddr && s.vvTried == t.vvTried && s.nTried == t.nTried
    ensures forall k :: k in t.mapInfo && k != victim ==>
      k in s.mapInfo && s.mapInfo[k].fInTried == t.mapInfo[k].fInTried
    ensures inserted && victim in t.mapInfo && victim !in s.mapInfo ==>
      && !t.mapInfo[victim].fInTried && t.mapInfo[victim].nRefCount == 1
      && victim in t.vvNew[keys.NewBucket(addr.svc.ip, source)]
  {
    if addr.svc.ip in t.mapAddr {
      AddedKnown(keys, t, s, addr, source, nTimePenalty, nNow, inserted, victim);
    } else {
      AddedNew(keys, t, s, addr, source, U32(Max(0, addr.nTime - nTimePenalty)), victim);
    }
  }

  lemma AddedNew(keys: Keys, t: Tables, s: Tables, addr: Address, source: NetAddr, nTime: nat, victim: Id)
    requires Consistent(keys, t, {}) && addr.svc.ip !in t.mapAddr
    requires Placed(CreateRef(t, addr, source, nTime), s, t.nIdCount, keys.NewBucket(addr.svc.ip, source), victim)
    ensures addr.svc.ip in s.mapAddr && s.vvTried == t.vvTried && s.nTried == t.nTried
    ensures forall k :: k in t.mapInfo && k != victim ==>
      k in s.mapInfo && s.mapInfo[k].fInTried == t.mapInfo[k].fInTried
    ensures victim in t.mapInfo && victim !in s.mapInfo ==>
      && !t.mapInfo[victim].fInTried && t.mapInfo[victim].nRefCount == 1
      && victim in t.vvNew[keys.NewBucket(addr.svc.ip, source)]
  {
    CreateKeeps(keys, t, addr, source, nTime);
    CreateIndexes(t, addr, source, nTime);
    NotInBuckets(t, t.nIdCount);
    hide AddrOk, RandomOk, TriedOk, NewOk, CountsOk, SizesOk, Placed, Consistent, CreateRef;
    PlacedMeans(keys, CreateRef(t, addr, source, nTime), s, t.nIdCount, keys.NewBucket(addr.svc.ip, source), victim);
  }

  lemma AddedKnown(keys: Keys, t: Tables, s: Tables, addr: Address, source: NetAddr, nTimePenalty: int, nNow: int,
      inserted: bool, victim: Id)
    requires Consistent(keys, t, {}) && AfterAdd(keys, t, s, addr, source, nTimePenalty, nNow, inserted, victim)
    requires addr.svc.ip in t.mapAddr
    ensures addr.svc.ip in s.mapAddr && s.vvTried == t.vvTried && s.nTried == t.nTried
    ensures forall k :: k in t.mapInfo && k != victim ==>
      k in s.mapInfo && s.mapInfo[k].fInTried == t.mapInfo[k].fInTried
    ensures inserted && victim in t.mapInfo && victim !in s.mapInfo ==>
      && !t.mapInfo[victim].fInTried && t.mapInfo[victim].nRefCount == 1
      && victim in t.vvNew[keys.NewBucket(addr.svc.ip, source)]
  {
    var ip := addr.svc.ip;
    var b := keys.NewBucket(ip, source);
    var id := t.mapAddr[ip];
    assert id in t.mapInfo && t.mapInfo[id].addr.svc.ip == ip;
    var info := Refreshed(t.mapInfo[id], addr, nTimePenalty, nNow);
    assert SameBooks(t.mapInfo[id], info);
    TriedUncounted(keys, t);
    StatisticsKeep(keys, t, {}, id, info);
    hide AddrOk, RandomOk, TriedOk, NewOk, Refreshed, Placed, Consistent;
    if inserted {
      var seen := SetInfo(t, id, info);
      RefKeeps(keys, seen, id);
      PlacedMeans(keys, Ref(seen, id), s, id, b, victim);
    }
  }

  /* ---- whole runs ---- */

  datatype Op =
    | DoAdd(addr: Address, source: NetAddr, nTimePenalty: int, nNow: int)
    | DoGood(svc: Service, nTime: int)
    | DoAttempt(svc: Service, nTime: int)
    | DoConnected(svc: Service, nTime: int)
    | DoGetAddr

  /** Successes are recorded with positive times, attempts not with negative ones. */
  predicate GoodTime(op: Op) {
    (op.DoGood? ==> op.nTime > 0) && (op.DoAttempt? ==> op.nTime >= 0)
  }

  /** After any sequence of operations, whatever is drawn at random on the way, all indexes describe one
      population, and the check finds no fault but, if there is one, in the times recorded. There is none if
      the operations were given good times. */
  method CheckedRun(keys: Keys, routable: NetAddr -> bool, ops: seq<Op>) returns (man: AddrMan, code: int)
    ensures man.Valid() && (code == 0 <==> man.Timely())
    ensures (forall i :: 0 <= i < |ops| ==> GoodTime(ops[i])) ==> code == 0
  {
    hide Consistent, TimesOk;
    man := new AddrMan(keys, routable);
    var n := 0;
    while n < |ops|
      invariant 0 <= n <= |ops| && fresh(man) && man.Valid()
      invariant (forall i :: 0 <= i < n ==> GoodTime(ops[i])) ==> man.Timely()
    {
      match ops[n] {
        case DoAdd(addr, source, nTimePenalty, nNow) => var _, _, _ := man.Add(addr, source, nTimePenalty, nNow);
        case DoGood(svc, nTime) => var _, _, _ := man.Good(svc, nTime);
        case DoAttempt(svc, nTime) => man.Attempt(svc, nTime);
        case DoConnected(svc, nTime) => man.Connected(svc, nTime);
        case DoGetAddr => var _ := man.GetAddr();
      }
      n := n + 1;
    }
    code := man.Check();
  }
}
