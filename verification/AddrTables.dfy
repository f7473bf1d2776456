/** The address manager's tables as one value, its consistency, and what each operation does to
    the tables. The class in module AddrMan performs the operations step by step. */
module AddrTables {

  const TRIED_BUCKET_COUNT: nat := 64
  const TRIED_BUCKET_SIZE: nat := 64
  const NEW_BUCKET_COUNT: nat := 256
  const NEW_BUCKET_SIZE: nat := 64
  const NEW_BUCKETS_PER_ADDRESS: nat := 4

  type NetAddr = int

  /** Identifiers are handed out in order and never used again. */
  type Id = int

  datatype Service = Service(ip: NetAddr, port: int)

  /** nServices is the set of service flags. */
  datatype Address = Address(svc: Service, nServices: set<int>, nTime: nat)

  datatype AddrInfo = AddrInfo(
    addr: Address, source: NetAddr,
    nLastSuccess: int, nLastTry: int, nAttempts: int,
    nRefCount: int, fInTried: bool, nRandomPos: int)

  /** The two keyed hashes behind the choice of buckets. */
  datatype Keys = Keys(triedHash: Service -> nat, newHash: (NetAddr, NetAddr) -> nat) {
    function TriedBucket(svc: Service): (b: nat) ensures b < TRIED_BUCKET_COUNT { triedHash(svc) % TRIED_BUCKET_COUNT }

    function NewBucket(ip: NetAddr, source: NetAddr): (b: nat)
      ensures b < NEW_BUCKET_COUNT
    {
      newHash(ip, source) % NEW_BUCKET_COUNT
    }
  }

  datatype Tables = Tables(
    nIdCount: Id,
    mapInfo: map<Id, AddrInfo>,
    mapAddr: map<NetAddr, Id>,
    vRandom: seq<Id>,
    nTried: int,
    vvTried: seq<seq<Id>>,
    nNew: int,
    vvNew: seq<set<Id>>)

  /* ---- consistency ---- */

  function NewBucketsOf(vvNew: seq<set<Id>>, id: Id): set<int> {
    set b | 0 <= b < |vvNew| && id in vvNew[b]
  }

  function TriedIds(m: map<Id, AddrInfo>): set<Id> { set id | id in m && m[id].fInTried }

  function NewIds(m: map<Id, AddrInfo>): set<Id> { set id | id in m && !m[id].fInTried }

  predicate SizesOk(t: Tables) {
    && |t.vvTried| == TRIED_BUCKET_COUNT && |t.vvNew| == NEW_BUCKET_COUNT
    && (forall b :: 0 <= b < |t.vvTried| ==> |t.vvTried[b]| <= TRIED_BUCKET_SIZE)
    && (forall b :: 0 <= b < |t.vvNew| ==> |t.vvNew[b]| <= NEW_BUCKET_SIZE)
    && 0 <= t.nIdCount && (forall id :: id in t.mapInfo ==> 0 <= id < t.nIdCount)
  }

  /** mapAddr and mapInfo are inverse. */
  predicate AddrOk(t: Tables) {
    && (forall id :: id in t.mapInfo ==>
          t.mapInfo[id].addr.svc.ip in t.mapAddr && t.mapAddr[t.mapInfo[id].addr.svc.ip] == id)
    && (forall ip :: ip in t.mapAddr ==> t.mapAddr[ip] in t.mapInfo && t.mapInfo[t.mapAddr[ip]].addr.svc.ip == ip)
  }

  /** vRandom lists every identifier once, with correct back-pointers. */
  predicate RandomOk(t: Tables) {
    && (forall id :: id in t.mapInfo ==>
          0 <= t.mapInfo[id].nRandomPos < |t.vRandom| && t.vRandom[t.mapInfo[id].nRandomPos] == id)
    && (forall p :: 0 <= p < |t.vRandom| ==> t.vRandom[p] in t.mapInfo && t.mapInfo[t.vRandom[p]].nRandomPos == p)
  }

  /** The new buckets hold untried entries only, and each entry's count says in how many it is.
      A pending entry has been counted once more than it has been inserted. */
  predicate NewOk(t: Tables, pending: set<Id>) {
    && (forall b, id :: 0 <= b < |t.vvNew| && id in t.vvNew[b] ==> id in t.mapInfo && !t.mapInfo[id].fInTried)
    && (forall id :: id in t.mapInfo && !t.mapInfo[id].fInTried ==>
          && 1 <= t.mapInfo[id].nRefCount <= NEW_BUCKETS_PER_ADDRESS
          && t.mapInfo[id].nRefCount == |NewBucketsOf(t.vvNew, id)| + if id in pending then 1 else 0)
  }

  predicate NoDuplicates(s: seq<Id>) { forall i, j :: 0 <= i < j < |s| ==> s[i] != s[j] }

  /** Each tried entry is in its own tried bucket, once, and in no new bucket. */
  predicate TriedOk(keys: Keys, t: Tables) {
    && (forall b, i :: 0 <= b < |t.vvTried| && 0 <= i < |t.vvTried[b]| ==> TriedAt(keys, t, b, t.vvTried[b][i]))
    && (forall b :: 0 <= b < |t.vvTried| ==> NoDuplicates(t.vvTried[b]))
    && (forall id :: id in t.mapInfo && t.mapInfo[id].fInTried ==>
          && t.mapInfo[id].nRefCount == 0
          && keys.TriedBucket(t.mapInfo[id].addr.svc) < |t.vvTried|
          && id in t.vvTried[keys.TriedBucket(t.mapInfo[id].addr.svc)])
  }

  predicate TriedAt(keys: Keys, t: Tables, b: nat, id: Id) {
    id in t.mapInfo && t.mapInfo[id].fInTried && keys.TriedBucket(t.mapInfo[id].addr.svc) == b
  }

  predicate CountsOk(t: Tables) {
    t.nTried == |TriedIds(t.mapInfo)| && t.nNew == |NewIds(t.mapInfo)|
  }

  /** All indexes describe one population. */
  predicate Consistent(keys: Keys, t: Tables, pending: set<Id>) {
    SizesOk(t) && AddrOk(t) && RandomOk(t) && NewOk(t, pending) && TriedOk(keys, t) && CountsOk(t)
  }

  /** The times recorded for an entry: not negative, and a tried entry has succeeded. */
  predicate TimeOk(info: AddrInfo) {
    info.nLastTry >= 0 && info.nLastSuccess >= 0 && (info.fInTried ==> info.nLastSuccess != 0)
  }

  predicate TimesOk(t: Tables) { forall id :: id in t.mapInfo ==> TimeOk(t.mapInfo[id]) }

  /* ---- operations on the tables ---- */

  /** The entry with its bookkeeping fields left alone and its statistics changed. */
  predicate SameBooks(a: AddrInfo, b: AddrInfo) {
    && a.addr.svc == b.addr.svc && a.source == b.source
    && a.nRefCount == b.nRefCount && a.fInTried == b.fInTried && a.nRandomPos == b.nRandomPos
  }

  function SetInfo(t: Tables, id: Id, info: AddrInfo): Tables {
    t.(mapInfo := t.mapInfo[id := info])
  }

  function SwapRandom(t: Tables, p: nat, q: nat): Tables
    requires p < |t.vRandom| && q < |t.vRandom| && t.vRandom[p] in t.mapInfo && t.vRandom[q] in t.mapInfo
  {
    if p == q then t else
    var a, b := t.vRandom[p], t.vRandom[q];
    var m := t.mapInfo[a := t.mapInfo[a].(nRandomPos := q)];
    t.(mapInfo := m[b := m[b].(nRandomPos := p)], vRandom := t.vRandom[p := b][q := a])
  }

  /** Appends a new, untried entry in no bucket yet. */
  function Create(t: Tables, addr: Address, source: NetAddr): Tables {
    t.(nIdCount := t.nIdCount + 1,
       mapInfo := t.mapInfo[t.nIdCount := AddrInfo(addr, source, 0, 0, 0, 0, false, |t.vRandom|)],
       mapAddr := t.mapAddr[addr.svc.ip := t.nIdCount],
       vRandom := t.vRandom + [t.nIdCount])
  }

  /** Removes an entry altogether. */
  function Delete(t: Tables, id: Id): Tables
    requires id in t.mapInfo && RandomOk(t)
  {
    var s := SwapRandom(t, t.mapInfo[id].nRandomPos, |t.vRandom| - 1);
    s.(vRandom := s.vRandom[..|s.vRandom| - 1],
       mapAddr := s.mapAddr - {t.mapInfo[id].addr.svc.ip},
       mapInfo := s.mapInfo - {id},
       nNew := s.nNew - 1)
  }

  /** Takes an entry out of one new bucket, and out of the tables if that was its last. */
  function Unref(t: Tables, b: nat, id: Id): Tables
    requires b < |t.vvNew| && id in t.mapInfo && RandomOk(t)
  {
    var info := t.mapInfo[id].(nRefCount := t.mapInfo[id].nRefCount - 1);
    var s := SetInfo(t, id, info);
    var d := if info.nRefCount == 0 then Delete(s, id) else s;
    d.(vvNew := d.vvNew[b := d.vvNew[b] - {id}])
  }

  /** Counts the entry once more. */
  function Ref(t: Tables, id: Id): Tables
    requires id in t.mapInfo
  {
    SetInfo(t, id, t.mapInfo[id].(nRefCount := t.mapInfo[id].nRefCount + 1))
  }

  function InsertNew(t: Tables, b: nat, id: Id): Tables
    requires b < |t.vvNew|
  {
    t.(vvNew := t.vvNew[b := t.vvNew[b] + {id}])
  }

  /** Takes an entry out of every new bucket. */
  function LeaveNew(t: Tables, id: Id): Tables
    requires id in t.mapInfo
  {
    t.(vvNew := seq(|t.vvNew|, b requires 0 <= b < |t.vvNew| => t.vvNew[b] - {id}),
       mapInfo := t.mapInfo[id := t.mapInfo[id].(nRefCount := 0)],
       nNew := t.nNew - 1)
  }

  /** Appends an entry to its tried bucket. */
  function EnterTried(keys: Keys, t: Tables, id: Id): Tables
    requires id in t.mapInfo && |t.vvTried| == TRIED_BUCKET_COUNT
  {
    var k := keys.TriedBucket(t.mapInfo[id].addr.svc);
    t.(vvTried := t.vvTried[k := t.vvTried[k] + [id]],
       nTried := t.nTried + 1,
       mapInfo := t.mapInfo[id := t.mapInfo[id].(fInTried := true)])
  }

  /** Puts an entry in the place of another in a tried bucket; the other returns to new bucket b. */
  function ReplaceTried(keys: Keys, t: Tables, id: Id, pos: nat, b: nat): Tables
    requires id in t.mapInfo && |t.vvTried| == TRIED_BUCKET_COUNT && b < |t.vvNew|
    requires var k := keys.TriedBucket(t.mapInfo[id].addr.svc); pos < |t.vvTried[k]| && t.vvTried[k][pos] in t.mapInfo
  {
    var k := keys.TriedBucket(t.mapInfo[id].addr.svc);
    var old_ := t.vvTried[k][pos];
    var m := t.mapInfo[old_ := t.mapInfo[old_].(fInTried := false, nRefCount := 1)];
    t.(vvTried := t.vvTried[k := t.vvTried[k][pos := id]],
       vvNew := t.vvNew[b := t.vvNew[b] + {old_}],
       nNew := t.nNew + 1,
       mapInfo := m[id := m[id].(fInTried := true)])
  }

  /** Exchanges two places of a tried bucket. */
  function SwapTried(t: Tables, k: nat, i: nat, j: nat): Tables
    requires k < |t.vvTried| && i < |t.vvTried[k]| && j < |t.vvTried[k]|
  {
    var v := t.vvTried[k];
    t.(vvTried := t.vvTried[k := v[j := v[i]][i := v[j]]])
  }
}
