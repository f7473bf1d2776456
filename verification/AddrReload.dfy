/** Reading an address manager file. */
module AddrReload {
  import opened AddrCheck
  import opened AddrFile
  import opened AddrLaws
  import opened AddrTables
  import SetOrder

  /** What reading a file gives: the key and the tables, unless the file ends early or holds something
      other than what is expected, or names a new bucket that does not exist. */
  datatype Outcome = Loaded(keys: Keys, t: Tables) | Corrupt

  /** The entry a missing identifier gets when it is looked up. */
  const DEFAULT_RECORD := Record(Address(Service(0, 0), {0}, 100000000), 0, 0, 0)

  /** The file was written for these tables. */
  ghost predicate Written(stream: seq<Token>, keys: Keys, t: Tables) {
    Consistent(keys, t, {}) && stream == Encode(keys, t)
  }

  /** The n numbers from lo on. */
  function From(lo: int, n: nat): (r: seq<int>)
    ensures |r| == n && forall i :: 0 <= i < n ==> r[i] == lo + i
  {
    seq(n, i => lo + i)
  }

  /* ---- what the tables look like while they are filled ---- */

  /** The entry as it is when all entries, but no bucket, have been read. */
  function Blank(info: AddrInfo, i: Id): AddrInfo {
    info.(nLastTry := 0, nRefCount := 0, nRandomPos := i)
  }

  ghost predicate EntriesLoaded(m: map<Id, AddrInfo>, mapInfo: map<Id, AddrInfo>, n: nat) {
    && n <= |Order(m)| && (forall i :: i in mapInfo <==> 0 <= i < n)
    && forall i :: 0 <= i < n ==> Order(m)[i] in m && mapInfo[i] == Blank(m[Order(m)[i]], i)
  }

  ghost predicate AddrLoaded(t: Tables, mapAddr: map<NetAddr, Id>, n: nat) {
    && (forall ip :: ip in mapAddr <==> ip in t.mapAddr && Rank(t.mapInfo, t.mapAddr[ip]) < n)
    && forall ip :: ip in mapAddr ==> mapAddr[ip] == Rank(t.mapInfo, t.mapAddr[ip])
  }

  /** The i-th entry of the file belongs to tried bucket b. */
  predicate Belongs(keys: Keys, m: map<Id, AddrInfo>, i: Id, b: int) {
    |NewIds(m)| <= i < |Order(m)| && Order(m)[i] in m && keys.TriedBucket(m[Order(m)[i]].addr.svc) == b
  }

  ghost predicate TriedLoaded(keys: Keys, m: map<Id, AddrInfo>, vvTried: seq<seq<Id>>, n: nat) {
    && |vvTried| == TRIED_BUCKET_COUNT
    && (forall b :: 0 <= b < |vvTried| ==> NoDuplicates(vvTried[b]))
    && forall b, i :: 0 <= b < |vvTried| ==> (i in vvTried[b] <==> i < n && Belongs(keys, m, i, b))
  }

  ghost predicate Filled(keys: Keys, t: Tables, s: Tables, n: nat) {
    && s.nNew == t.nNew && s.nTried == t.nTried
    && EntriesLoaded(t.mapInfo, s.mapInfo, n) && AddrLoaded(t, s.mapAddr, n)
    && s.vRandom == From(0, n) && TriedLoaded(keys, t.mapInfo, s.vvTried, n)
    && s.vvNew == seq(NEW_BUCKET_COUNT, _ => {})
  }

  /* ---- the steps ---- */

  lemma EntriesStep(m: map<Id, AddrInfo>, mapInfo: map<Id, AddrInfo>, n: nat)
    requires EntriesLoaded(m, mapInfo, n) && n < |Order(m)|
    ensures Order(m)[n] in m && EntriesLoaded(m, mapInfo[n := Blank(m[Order(m)[n]], n)], n + 1)
  {
    hide Order;
    assert Order(m)[n] in Order(m);
  }

  lemma AtRank(t: Tables, a: NetAddr, n: nat)
    requires AddrOk(t) && a in t.mapAddr && Rank(t.mapInfo, t.mapAddr[a]) == n
    ensures n < |Order(t.mapInfo)| && Order(t.mapInfo)[n] == t.mapAddr[a] && t.mapAddr[a] in t.mapInfo
    ensures t.mapInfo[t.mapAddr[a]].addr.svc.ip == a
  {
    hide Order, Rank;
    assert t.mapAddr[a] in t.mapInfo;
  }

  lemma OfOrder(t: Tables, n: nat)
    requires AddrOk(t) && n < |Order(t.mapInfo)|
    ensures var id := Order(t.mapInfo)[n];
      && id in t.mapInfo && t.mapInfo[id].addr.svc.ip in t.mapAddr && t.mapAddr[t.mapInfo[id].addr.svc.ip] == id
      && Rank(t.mapInfo, id) == n
  {
    RankOf(t.mapInfo, n);
    hide Order, Rank;
  }

  lemma AddrStep(t: Tables, mapAddr: map<NetAddr, Id>, n: nat)
    requires AddrOk(t) && AddrLoaded(t, mapAddr, n) && n < |Order(t.mapInfo)|
    ensures Order(t.mapInfo)[n] in t.mapInfo
    ensures AddrLoaded(t, mapAddr[t.mapInfo[Order(t.mapInfo)[n]].addr.svc.ip := n], n + 1)
  {
    var m := t.mapInfo;
    OfOrder(t, n);
    hide Order, Rank, AddrLoaded;
    var ip := m[Order(m)[n]].addr.svc.ip;
    var w := mapAddr[ip := n];
    forall a ensures a in w <==> a in t.mapAddr && Rank(m, t.mapAddr[a]) < n + 1
             ensures a in w ==> w[a] == Rank(m, t.mapAddr[a]) {
      AddrOne(t, mapAddr, n, a);
      if a in t.mapAddr && Rank(m, t.mapAddr[a]) == n { AtRank(t, a, n); }
    }
    assert AddrLoaded(t, w, n + 1) by { AddrAll(t, w, n + 1); }
  }

  lemma AddrOne(t: Tables, mapAddr: map<NetAddr, Id>, n: nat, a: NetAddr)
    requires AddrLoaded(t, mapAddr, n)
    ensures a in mapAddr <==> a in t.mapAddr && Rank(t.mapInfo, t.mapAddr[a]) < n
    ensures a in mapAddr ==> mapAddr[a] == Rank(t.mapInfo, t.mapAddr[a])
  {
    hide Rank;
  }

  lemma AddrAll(t: Tables, mapAddr: map<NetAddr, Id>, n: nat)
    requires forall a :: a in mapAddr <==> a in t.mapAddr && Rank(t.mapInfo, t.mapAddr[a]) < n
    requires forall a :: a in mapAddr ==> mapAddr[a] == Rank(t.mapInfo, t.mapAddr[a])
    ensures AddrLoaded(t, mapAddr, n)
  {
    hide Rank;
  }

  lemma TriedStep(keys: Keys, m: map<Id, AddrInfo>, v: seq<seq<Id>>, n: nat)
    requires TriedLoaded(keys, m, v, n) && |NewIds(m)| <= n < |Order(m)|
    ensures Order(m)[n] in m
    ensures var b := keys.TriedBucket(m[Order(m)[n]].addr.svc); TriedLoaded(keys, m, v[b := v[b] + [n]], n + 1)
  {
    assert Order(m)[n] in Order(m);
    hide Order, NewIds, TriedLoaded;
    TriedStepAt(keys, m, v, n, keys.TriedBucket(m[Order(m)[n]].addr.svc));
  }

  lemma TriedStepAt(keys: Keys, m: map<Id, AddrInfo>, v: seq<seq<Id>>, n: nat, b: nat)
    requires TriedLoaded(keys, m, v, n) && b < |v| && Belongs(keys, m, n, b)
    ensures TriedLoaded(keys, m, v[b := v[b] + [n]], n + 1)
  {
    hide Belongs, NoDuplicates;
    var w := v[b := v[b] + [n]];
    TriedApart(keys, m, v, n, b);
    forall c, i | 0 <= c < |w| ensures i in w[c] <==> i < n + 1 && Belongs(keys, m, i, c) {
      TriedMember(keys, m, v, n, b, c, i);
    }
  }

  lemma TriedApart(keys: Keys, m: map<Id, AddrInfo>, v: seq<seq<Id>>, n: nat, b: nat)
    requires TriedLoaded(keys, m, v, n) && b < |v| && Belongs(keys, m, n, b)
    ensures var w := v[b := v[b] + [n]]; forall c :: 0 <= c < |w| ==> NoDuplicates(w[c])
  {
    NewAtEnd(keys, m, v, n, b);
    hide Belongs, NoDuplicates;
  }

  lemma TriedMember(keys: Keys, m: map<Id, AddrInfo>, v: seq<seq<Id>>, n: nat, b: nat, c: int, i: Id)
    requires TriedLoaded(keys, m, v, n) && b < |v| && Belongs(keys, m, n, b) && 0 <= c < |v|
    ensures i in v[b := v[b] + [n]][c] <==> i < n + 1 && Belongs(keys, m, i, c)
  {
    hide Order, NewIds, NoDuplicates;
    assert i in v[c] <==> i < n && Belongs(keys, m, i, c);
  }

  lemma NewAtEnd(keys: Keys, m: map<Id, AddrInfo>, v: seq<seq<Id>>, n: nat, b: nat)
    requires TriedLoaded(keys, m, v, n) && b < |v|
    ensures NoDuplicates(v[b] + [n]) && forall i :: i in v[b] + [n] <==> i in v[b] || i == n
  {
    hide Order, NewIds;
    forall i | 0 <= i < |v[b]| ensures v[b][i] != n {
      assert v[b][i] in v[b];
    }
  }

  lemma UntriedStep(keys: Keys, m: map<Id, AddrInfo>, v: seq<seq<Id>>, n: nat)
    requires TriedLoaded(keys, m, v, n) && n < |NewIds(m)|
    ensures TriedLoaded(keys, m, v, n + 1)
  {
    hide Order, NewIds;
  }

  /* ---- counting without repetition ---- */

  function Elements(s: seq<Id>): set<Id> { set x | x in s }

  lemma {:induction false} ElementsCount(s: seq<Id>)
    ensures |Elements(s)| <= |s| && (NoDuplicates(s) ==> |Elements(s)| == |s|)
  {
    if s == [] {
      assert Elements(s) == {};
    } else {
      var r, x := s[..|s| - 1], s[|s| - 1];
      ElementsCount(r);
      assert s == r + [x];
      assert Elements(s) == Elements(r) + {x};
    }
  }

  lemma Embed(u: seq<Id>, v: seq<Id>)
    requires NoDuplicates(u) && forall i :: 0 <= i < |u| ==> u[i] in v
    ensures |u| <= |v|
  {
    ElementsCount(u);
    ElementsCount(v);
    assert Elements(u) <= Elements(v);
    Subset(Elements(u), Elements(v));
  }

  function Pick(s: seq<Id>, u: seq<int>): (w: seq<Id>)
    requires forall i :: 0 <= i < |u| ==> 0 <= u[i] < |s|
    ensures |w| == |u| && (forall i :: 0 <= i < |u| ==> w[i] == s[u[i]])
    ensures (NoDuplicates(s) && NoDuplicates(u) ==> NoDuplicates(w))
  {
    var w := seq(|u|, i requires 0 <= i < |u| => s[u[i]]);
    assert NoDuplicates(s) && NoDuplicates(u) ==> NoDuplicates(w) by {
      if NoDuplicates(s) && NoDuplicates(u) {
        forall i, j | 0 <= i < j < |w| ensures w[i] != w[j] {
          assert u[i] < u[j] || u[j] < u[i];
        }
      }
    }
    w
  }

  /** No tried entry is lost: its bucket has a place left when it is read. */
  lemma PlaceLeft(keys: Keys, t: Tables, v: seq<seq<Id>>, n: nat)
    requires SizesOk(t) && TriedOk(keys, t) && TriedLoaded(keys, t.mapInfo, v, n)
    requires |NewIds(t.mapInfo)| <= n < |Order(t.mapInfo)|
    ensures var m := t.mapInfo; Order(m)[n] in m && |v[keys.TriedBucket(m[Order(m)[n]].addr.svc)]| < TRIED_BUCKET_SIZE
  {
    var m, order := t.mapInfo, Order(t.mapInfo);
    OrderApart(m);
    assert order[n] in order;
    hide Order, NewIds, SizesOk;
    var b := keys.TriedBucket(m[order[n]].addr.svc);
    var u := v[b] + [n];
    NewAtEnd(keys, m, v, n, b);
    forall i | 0 <= i < |u| ensures Belongs(keys, m, u[i], b) {
      assert u[i] in u;
      assert u[i] in v[b] <==> u[i] < n && Belongs(keys, m, u[i], b);
    }
    hide TriedLoaded, NoDuplicates;
    var w := Pick(order, u);
    forall i | 0 <= i < |w| ensures w[i] in t.vvTried[b] {
      assert Belongs(keys, m, u[i], b);
      assert m[order[u[i]]].fInTried;
    }
    hide TriedOk, Belongs, Pick;
    Embed(w, t.vvTried[b]);
    BucketSizes(t, b);
  }

  lemma BucketSizes(t: Tables, b: nat)
    requires SizesOk(t) && b < TRIED_BUCKET_COUNT
    ensures |t.vvTried[b]| <= TRIED_BUCKET_SIZE
  {
  }

  /* ---- the buckets ---- */

  ghost function RankSet(m: map<Id, AddrInfo>, s: set<Id>): set<Id> { set id | id in s :: Rank(m, id) }

  /** How often an entry has been counted once the first b new buckets, and some of the next, are read. */
  ghost function Counted(vvNew: seq<set<Id>>, b: nat, done: set<Id>, id: Id): int
    requires b <= |vvNew|
  {
    |NewBucketsOf(vvNew[..b], id)| + if id in done then 1 else 0
  }

  ghost predicate CountsLoaded(t: Tables, mapInfo: map<Id, AddrInfo>, b: nat, done: set<Id>) {
    var m, order := t.mapInfo, Order(t.mapInfo);
    && b <= |t.vvNew| && (forall i :: i in mapInfo <==> 0 <= i < |order|)
    && forall i :: 0 <= i < |order| ==>
        order[i] in m && mapInfo[i] == Blank(m[order[i]], i).(nRefCount := Counted(t.vvNew, b, done, order[i]))
  }

  ghost predicate NewLoaded(t: Tables, vvNew: seq<set<Id>>, b: nat, done: set<Id>) {
    && |vvNew| == |t.vvNew|
    && forall c :: 0 <= c < |vvNew| ==>
        vvNew[c] == if c < b then RankSet(t.mapInfo, t.vvNew[c]) else if c == b then RankSet(t.mapInfo, done) else {}
  }

  lemma CountsBegin(t: Tables, mapInfo: map<Id, AddrInfo>)
    requires EntriesLoaded(t.mapInfo, mapInfo, |Order(t.mapInfo)|)
    ensures CountsLoaded(t, mapInfo, 0, {})
  {
    hide Order;
    forall id ensures Counted(t.vvNew, 0, {}, id) == 0 { BucketsNone(t.vvNew[..0], id); }
  }

  lemma NewBegin(t: Tables, vvNew: seq<set<Id>>)
    requires |t.vvNew| == NEW_BUCKET_COUNT && vvNew == seq(NEW_BUCKET_COUNT, _ => {})
    ensures NewLoaded(t, vvNew, 0, {})
  {
    assert RankSet(t.mapInfo, {}) == {};
  }

  /** Reading one more member of bucket b. */
  lemma MemberStep(t: Tables, mapInfo: map<Id, AddrInfo>, vvNew: seq<set<Id>>, b: nat, done: set<Id>, id: Id)
    requires NewOk(t, {}) && CountsLoaded(t, mapInfo, b, done) && NewLoaded(t, vvNew, b, done)
    requires b < |t.vvNew| && id in t.vvNew[b] && id !in done
    ensures var i := Rank(t.mapInfo, id);
      && i in mapInfo && mapInfo[i].nRefCount < NEW_BUCKETS_PER_ADDRESS
      && CountsLoaded(t, mapInfo[i := mapInfo[i].(nRefCount := mapInfo[i].nRefCount + 1)], b, done + {id})
      && NewLoaded(t, vvNew[b := vvNew[b] + {i}], b, done + {id})
  {
    MemberCount(t, b, done, id);
    hide NewOk;
    MemberCounts(t, mapInfo, b, done, id);
    MemberNew(t, vvNew, b, done, id);
  }

  /** The limit on how often an entry is counted is not met. */
  lemma MemberCount(t: Tables, b: nat, done: set<Id>, id: Id)
    requires NewOk(t, {}) && b < |t.vvNew| && id in t.vvNew[b] && id !in done
    ensures id in t.mapInfo && Counted(t.vvNew, b, done, id) < NEW_BUCKETS_PER_ADDRESS
  {
    BucketsTake(t.vvNew, b, id);
    BucketsGrow(t.vvNew, b + 1, id);
    assert id in t.mapInfo && !t.mapInfo[id].fInTried && t.mapInfo[id].nRefCount == |NewBucketsOf(t.vvNew, id)|;
  }

  lemma MemberCounts(t: Tables, mapInfo: map<Id, AddrInfo>, b: nat, done: set<Id>, id: Id)
    requires CountsLoaded(t, mapInfo, b, done) && id in t.mapInfo && id !in done
    ensures var i := Rank(t.mapInfo, id);
      && i in mapInfo && mapInfo[i].nRefCount == Counted(t.vvNew, b, done, id)
      && CountsLoaded(t, mapInfo[i := mapInfo[i].(nRefCount := mapInfo[i].nRefCount + 1)], b, done + {id})
  {
    var m, order := t.mapInfo, Order(t.mapInfo);
    var i := Rank(m, id);
    OrderApart(m);
    hide Order, Rank, NewBucketsOf;
    assert order[i] == id;
    var n := mapInfo[i := mapInfo[i].(nRefCount := mapInfo[i].nRefCount + 1)];
    forall j | 0 <= j < |order|
      ensures n[j] == Blank(m[order[j]], j).(nRefCount := Counted(t.vvNew, b, done + {id}, order[j]))
    {
      if j != i { assert order[j] != id; }
    }
  }

  lemma MemberNew(t: Tables, vvNew: seq<set<Id>>, b: nat, done: set<Id>, id: Id)
    requires NewLoaded(t, vvNew, b, done) && b < |t.vvNew|
    ensures NewLoaded(t, vvNew[b := vvNew[b] + {Rank(t.mapInfo, id)}], b, done + {id})
  {
    assert RankSet(t.mapInfo, done + {id}) == RankSet(t.mapInfo, done) + {Rank(t.mapInfo, id)};
    hide Rank, Order, RankSet;
  }

  /** Going on to the next bucket. */
  lemma BucketStep(t: Tables, mapInfo: map<Id, AddrInfo>, vvNew: seq<set<Id>>, b: nat)
    requires b < |t.vvNew| && CountsLoaded(t, mapInfo, b, t.vvNew[b]) && NewLoaded(t, vvNew, b, t.vvNew[b])
    ensures CountsLoaded(t, mapInfo, b + 1, {}) && NewLoaded(t, vvNew, b + 1, {})
  {
    hide Order, Rank;
    forall id
      ensures Counted(t.vvNew, b + 1, {}, id) == Counted(t.vvNew, b, t.vvNew[b], id)
    {
      BucketsTake(t.vvNew, b, id);
    }
    assert RankSet(t.mapInfo, {}) == {};
  }

  /* ---- the result ---- */

  /** The tables read back: every entry under its rank, with only the last try and the place in the random
      order changed; the same addresses; every new bucket and every tried bucket with the same members. */
  ghost predicate Reloaded(t: Tables, s: Tables) {
    var m := t.mapInfo;
    && s.nIdCount == |Order(m)| && s.nNew == t.nNew && s.nTried == t.nTried && s.vRandom == From(0, |Order(m)|)
    && (forall i :: i in s.mapInfo <==> 0 <= i < |Order(m)|)
    && (forall id :: id in m ==> s.mapInfo[Rank(m, id)] == m[id].(nLastTry := 0, nRandomPos := Rank(m, id)))
    && s.mapAddr.Keys == t.mapAddr.Keys && (forall ip :: ip in s.mapAddr ==> s.mapAddr[ip] == Rank(m, t.mapAddr[ip]))
    && |s.vvNew| == |t.vvNew| && (forall b :: 0 <= b < |s.vvNew| ==> s.vvNew[b] == RankSet(m, t.vvNew[b]))
    && |s.vvTried| == |t.vvTried|
    && (forall b :: 0 <= b < |s.vvTried| ==>
          NoDuplicates(s.vvTried[b]) && Elements(s.vvTried[b]) == RankSet(m, Elements(t.vvTried[b])))
  }

  lemma Finished(keys: Keys, t: Tables, base: Tables, s: Tables)
    requires Consistent(keys, t, {}) && Filled(keys, t, base, |Order(t.mapInfo)|)
    requires s == base.(nIdCount := |Order(t.mapInfo)|, mapInfo := s.mapInfo, vvNew := s.vvNew)
    requires CountsLoaded(t, s.mapInfo, |t.vvNew|, {}) && NewLoaded(t, s.vvNew, |t.vvNew|, {})
    ensures Reloaded(t, s)
  {
    var m := t.mapInfo;
    hide AddrOk, RandomOk, NewOk, TriedOk, CountsOk, Rank, Order, CountsLoaded, EntriesLoaded, TriedLoaded;
    assert s.mapAddr.Keys == t.mapAddr.Keys by { AddrFinished(t, s.mapAddr); }
    assert (forall i :: i in s.mapInfo <==> 0 <= i < |Order(m)|)
        && forall id :: id in m ==> s.mapInfo[Rank(m, id)] == m[id].(nLastTry := 0, nRandomPos := Rank(m, id)) by {
      EntriesFinished(keys, t, s.mapInfo);
    }
    TriedFinished(keys, t, s.vvTried);
    hide AddrLoaded;
    assert forall b :: 0 <= b < |s.vvNew| ==> s.vvNew[b] == RankSet(m, t.vvNew[b]);
  }

  lemma EntriesFinished(keys: Keys, t: Tables, mapInfo: map<Id, AddrInfo>)
    requires Consistent(keys, t, {}) && CountsLoaded(t, mapInfo, |t.vvNew|, {})
    ensures forall i :: i in mapInfo <==> 0 <= i < |Order(t.mapInfo)|
    ensures forall id :: id in t.mapInfo ==>
      mapInfo[Rank(t.mapInfo, id)] == t.mapInfo[id].(nLastTry := 0, nRandomPos := Rank(t.mapInfo, id))
  {
    var m := t.mapInfo;
    hide AddrOk, RandomOk, NewOk, TriedOk, CountsOk, SizesOk, Rank, Order;
    forall id | id in m ensures mapInfo[Rank(m, id)] == m[id].(nLastTry := 0, nRandomPos := Rank(m, id)) {
      CountFinished(keys, t, id);
      hide Counted, Consistent;
      var i := Rank(m, id);
      assert Order(m)[i] == id;
      assert mapInfo[i] == Blank(m[id], i).(nRefCount := Counted(t.vvNew, |t.vvNew|, {}, id));
    }
  }

  lemma AddrFinished(t: Tables, mapAddr: map<NetAddr, Id>)
    requires AddrOk(t) && AddrLoaded(t, mapAddr, |Order(t.mapInfo)|)
    ensures mapAddr.Keys == t.mapAddr.Keys
  {
    hide Order, Rank;
    forall ip ensures ip in t.mapAddr <==> ip in mapAddr {
      if ip in t.mapAddr {
        var id := t.mapAddr[ip];
        assert id in t.mapInfo;
        assert Rank(t.mapInfo, id) < |Order(t.mapInfo)|;
      }
    }
  }

  lemma CountFinished(keys: Keys, t: Tables, id: Id)
    requires Consistent(keys, t, {}) && id in t.mapInfo
    ensures Counted(t.vvNew, |t.vvNew|, {}, id) == t.mapInfo[id].nRefCount
  {
    assert t.vvNew[..|t.vvNew|] == t.vvNew;
    BucketsNone(t.vvNew, id);
    TriedUncounted(keys, t);
  }

  lemma TriedFinished(keys: Keys, t: Tables, v: seq<seq<Id>>)
    requires TriedOk(keys, t) && TriedLoaded(keys, t.mapInfo, v, |Order(t.mapInfo)|)
    requires |t.vvTried| == TRIED_BUCKET_COUNT
    ensures |v| == |t.vvTried|
    ensures forall b :: 0 <= b < |v| ==>
      NoDuplicates(v[b]) && Elements(v[b]) == RankSet(t.mapInfo, Elements(t.vvTried[b]))
  {
    var m, order := t.mapInfo, Order(t.mapInfo);
    OrderApart(m);
    hide Order, Rank;
    forall b | 0 <= b < |v| ensures Elements(v[b]) == RankSet(m, Elements(t.vvTried[b])) {
      forall i | i in v[b] ensures i in RankSet(m, Elements(t.vvTried[b])) {
        assert Belongs(keys, m, i, b);
        RankOf(m, i);
        assert order[i] in Elements(t.vvTried[b]);
      }
      forall id | id in t.vvTried[b] ensures Rank(m, id) in v[b] {
        var k :| 0 <= k < |t.vvTried[b]| && t.vvTried[b][k] == id;
        assert TriedAt(keys, t, b, id);
        assert order[Rank(m, id)] == id;
        assert Belongs(keys, m, Rank(m, id), b);
      }
    }
  }

  /* ---- the file, item by item ---- */

  lemma EntryAt(stream: seq<Token>, keys: Keys, t: Tables, n: nat)
    requires Written(stream, keys, t) && n < |Order(t.mapInfo)|
    ensures Order(t.mapInfo)[n] in t.mapInfo && 5 + n < |stream|
    ensures stream[5 + n] == Rec(RecordOf(t.mapInfo[Order(t.mapInfo)[n]]))
  {
    hide Consistent, Order, Buckets;
    assert Order(t.mapInfo)[n] in Order(t.mapInfo);
  }

  function BucketStart(t: Tables, b: nat): nat
    requires b <= |t.vvNew|
  {
    5 + |Order(t.mapInfo)| + |Buckets(t.mapInfo, t.vvNew, b)|
  }

  lemma {:induction false} BucketsPrefix(m: map<Id, AddrInfo>, vvNew: seq<set<Id>>, n: nat, k: nat)
    requires n <= k <= |vvNew|
    ensures Buckets(m, vvNew, n) <= Buckets(m, vvNew, k)
    decreases k
  {
    hide Bucket;
    if n < k { BucketsPrefix(m, vvNew, n, k - 1); }
  }

  lemma BucketAt(stream: seq<Token>, keys: Keys, t: Tables, b: nat)
    requires Written(stream, keys, t) && b < |t.vvNew|
    ensures var p, s := BucketStart(t, b), Bucket(t.mapInfo, t.vvNew[b]);
      && BucketStart(t, b + 1) == p + |s| <= |stream| && forall i :: 0 <= i < |s| ==> stream[p + i] == s[i]
  {
    hide Consistent, Order, Buckets, Bucket, Records, Header, BucketStart, Written, Encode;
    var all, first := Buckets(t.mapInfo, t.vvNew, |t.vvNew|), Buckets(t.mapInfo, t.vvNew, b);
    var s := Bucket(t.mapInfo, t.vvNew[b]);
    BucketsPrefix(t.mapInfo, t.vvNew, b + 1, |t.vvNew|);
    OneBucket(t, b);
    Slice(Head(stream, keys, t), first, s, all);
  }

  lemma OneBucket(t: Tables, b: nat)
    requires b < |t.vvNew|
    ensures Buckets(t.mapInfo, t.vvNew, b + 1) == Buckets(t.mapInfo, t.vvNew, b) + Bucket(t.mapInfo, t.vvNew[b])
    ensures BucketStart(t, b) == 5 + |Order(t.mapInfo)| + |Buckets(t.mapInfo, t.vvNew, b)|
    ensures BucketStart(t, b + 1) == 5 + |Order(t.mapInfo)| + |Buckets(t.mapInfo, t.vvNew, b + 1)|
  {
    hide Bucket, Order;
  }

  /** Everything in the file before the buckets. */
  ghost function Head(stream: seq<Token>, keys: Keys, t: Tables): (h: seq<Token>)
    requires Written(stream, keys, t)
    ensures |h| == 5 + |Order(t.mapInfo)| && stream == h + Buckets(t.mapInfo, t.vvNew, |t.vvNew|)
  {
    hide Consistent, Order, Buckets;
    Header(keys, t) + Records(t.mapInfo, Order(t.mapInfo))
  }

  lemma Slice<T>(head: seq<T>, first: seq<T>, s: seq<T>, all: seq<T>)
    requires first + s <= all
    ensures |head| + |first| + |s| <= |head + all|
    ensures forall i :: 0 <= i < |s| ==> (head + all)[|head| + |first| + i] == s[i]
  {
    forall i | 0 <= i < |s| ensures (head + all)[|head| + |first| + i] == s[i] {
      assert all[|first| + i] == (first + s)[|first| + i];
    }
  }

  lemma MembersAt(m: map<Id, AddrInfo>, vNew: set<Id>)
    ensures var s, order := Bucket(m, vNew), SetOrder.Ascending(vNew);
      && |s| == 1 + |order| && s[0] == Num(|order|)
      && forall i :: 0 <= i < |order| ==> s[1 + i] == Num(Rank(m, order[i]))
  {
    hide Rank, SetOrder.Ascending;
  }

  /* ---- reading ---- */

  /** Puts one untried entry in. Should the file have another number of new buckets than there are now,
      the entry goes to the bucket its own source gives. */
  method EnterNew(keys: Keys, t: Tables, n: Id, rec: Record, nUBuckets: int) returns (s: Tables)
    requires |t.vvNew| == NEW_BUCKET_COUNT
    ensures |s.vvNew| == NEW_BUCKET_COUNT && s.vvTried == t.vvTried
    ensures nUBuckets == NEW_BUCKET_COUNT && |t.vvTried| == TRIED_BUCKET_COUNT ==> s == Entered(keys, t, n, rec, false)
  {
    var info := EntryOf(rec);
    s := t.(mapAddr := t.mapAddr[info.addr.svc.ip := n]);
    info := info.(nRandomPos := |s.vRandom|);
    s := s.(vRandom := s.vRandom + [n]);
    if nUBuckets != NEW_BUCKET_COUNT {
      var b := keys.NewBucket(info.addr.svc.ip, info.source);
      s := s.(vvNew := s.vvNew[b := s.vvNew[b] + {n}]);
      info := info.(nRefCount := info.nRefCount + 1);
    }
    s := s.(mapInfo := s.mapInfo[n := info]);
  }

  method ReadNew(stream: seq<Token>, keys: Keys, t: Tables, nUBuckets: int, ghost t0: Tables)
    returns (ok: bool, pos: nat, s: Tables)
    requires |t.vvNew| == NEW_BUCKET_COUNT
    ensures |s.vvNew| == NEW_BUCKET_COUNT && s.vvTried == t.vvTried
    ensures Written(stream, keys, t0) && nUBuckets == NEW_BUCKET_COUNT && Filled(keys, t0, t, 0) ==>
      ok && pos == 5 + |NewIds(t0.mapInfo)| && Filled(keys, t0, s, |NewIds(t0.mapInfo)|)
  {
    hide Filled, Written, Consistent, Entered, Order, NewIds;
    ghost var good := Written(stream, keys, t0) && nUBuckets == NEW_BUCKET_COUNT && Filled(keys, t0, t, 0);
    ghost var nNew := |NewIds(t0.mapInfo)|;
    if good { Promised(stream, keys, t0, t, 0); }
    ok, pos, s := true, 5, t;
    var n := 0;
    while n < t.nNew
      invariant 0 <= n && pos == 5 + n && |s.vvNew| == NEW_BUCKET_COUNT && s.vvTried == t.vvTried
      invariant good ==> t.nNew == nNew && n <= nNew && Filled(keys, t0, s, n)
    {
      if good { EntryAt(stream, keys, t0, n); NewStep(stream, keys, t0, s, n); }
      if pos >= |stream| || !stream[pos].Rec? { return false, pos, s; }
      s := EnterNew(keys, s, n, stream[pos].rec, nUBuckets);
      n, pos := n + 1, pos + 1;
    }
  }

  lemma Promised(stream: seq<Token>, keys: Keys, t0: Tables, t: Tables, n: nat)
    requires Written(stream, keys, t0) && Filled(keys, t0, t, n)
    ensures t.nNew == |NewIds(t0.mapInfo)| && t.nTried == |TriedIds(t0.mapInfo)| && n <= |Order(t0.mapInfo)|
  {
    hide SizesOk, AddrOk, RandomOk, NewOk, TriedOk;
  }

  /** The tables once the n-th entry of the file has been put in. */
  function Entered(keys: Keys, s: Tables, n: Id, rec: Record, fInTried: bool): Tables
    requires |s.vvTried| == TRIED_BUCKET_COUNT
  {
    var info := EntryOf(rec).(nRandomPos := |s.vRandom|, fInTried := fInTried);
    var b := keys.TriedBucket(rec.addr.svc);
    s.(mapInfo := s.mapInfo[n := info], mapAddr := s.mapAddr[rec.addr.svc.ip := n], vRandom := s.vRandom + [n],
       vvTried := if fInTried then s.vvTried[b := s.vvTried[b] + [n]] else s.vvTried)
  }

  lemma NewStep(stream: seq<Token>, keys: Keys, t0: Tables, s: Tables, n: nat)
    requires Written(stream, keys, t0) && Filled(keys, t0, s, n) && n < |NewIds(t0.mapInfo)|
    ensures var id := Order(t0.mapInfo)[n];
      && id in t0.mapInfo && |s.vvTried| == TRIED_BUCKET_COUNT
      && Filled(keys, t0, Entered(keys, s, n, RecordOf(t0.mapInfo[id]), false), n + 1)
  {
    var m := t0.mapInfo;
    assert Order(m)[n] in m && !m[Order(m)[n]].fInTried by { OrderApart(m); EntriesStep(m, s.mapInfo, n); }
    assert AddrOk(t0);
    hide Consistent, Order, EntriesLoaded, AddrLoaded, TriedLoaded, AddrOk;
    var info := m[Order(m)[n]];
    var u := Entered(keys, s, n, RecordOf(info), false);
    assert |s.vvTried| == TRIED_BUCKET_COUNT by { TriedWidth(keys, m, s.vvTried, n); }
    assert u.mapInfo == s.mapInfo[n := Blank(info, n)];
    EntriesStep(m, s.mapInfo, n);
    AddrStep(t0, s.mapAddr, n);
    UntriedStep(keys, m, s.vvTried, n);
    FilledStep(keys, t0, s, u, n);
  }

  lemma TriedWidth(keys: Keys, m: map<Id, AddrInfo>, v: seq<seq<Id>>, n: nat)
    requires TriedLoaded(keys, m, v, n)
    ensures |v| == TRIED_BUCKET_COUNT
  {
  }

  lemma FilledStep(keys: Keys, t: Tables, s: Tables, u: Tables, n: nat)
    requires Filled(keys, t, s, n) && EntriesLoaded(t.mapInfo, u.mapInfo, n + 1) && AddrLoaded(t, u.mapAddr, n + 1)
    requires TriedLoaded(keys, t.mapInfo, u.vvTried, n + 1)
    requires u.vRandom == s.vRandom + [n] && u.vvNew == s.vvNew && u.nNew == s.nNew && u.nTried == s.nTried
    ensures Filled(keys, t, u, n + 1)
  {
    hide EntriesLoaded, AddrLoaded, TriedLoaded;
  }

  lemma TriedEntryStep(stream: seq<Token>, keys: Keys, t0: Tables, s: Tables, n: nat)
    requires Written(stream, keys, t0) && Filled(keys, t0, s, n) && |NewIds(t0.mapInfo)| <= n < |Order(t0.mapInfo)|
    ensures var id := Order(t0.mapInfo)[n];
      && id in t0.mapInfo && |s.vvTried| == TRIED_BUCKET_COUNT
      && |s.vvTried[keys.TriedBucket(t0.mapInfo[id].addr.svc)]| < TRIED_BUCKET_SIZE
      && Filled(keys, t0, Entered(keys, s, n, RecordOf(t0.mapInfo[id]), true), n + 1)
  {
    var m := t0.mapInfo;
    assert Order(m)[n] in m && m[Order(m)[n]].fInTried by { OrderApart(m); EntriesStep(m, s.mapInfo, n); }
    assert AddrOk(t0);
    var info := m[Order(m)[n]];
    var b := keys.TriedBucket(info.addr.svc);
    assert |s.vvTried| == TRIED_BUCKET_COUNT && |s.vvTried[b]| < TRIED_BUCKET_SIZE by {
      PlaceLeft(keys, t0, s.vvTried, n);
    }
    hide Consistent, Order, EntriesLoaded, AddrLoaded, TriedLoaded, AddrOk;
    var u := Entered(keys, s, n, RecordOf(info), true);
    assert u.mapInfo == s.mapInfo[n := Blank(info, n)];
    EntriesStep(m, s.mapInfo, n);
    AddrStep(t0, s.mapAddr, n);
    TriedStep(keys, m, s.vvTried, n);
    FilledStep(keys, t0, s, u, n);
  }

  /** Puts one tried entry in its bucket, unless that is full. */
  method EnterOne(keys: Keys, t: Tables, rec: Record) returns (lost: bool, s: Tables)
    requires |t.vvTried| == TRIED_BUCKET_COUNT
    ensures lost == (|t.vvTried[keys.TriedBucket(rec.addr.svc)]| >= TRIED_BUCKET_SIZE)
    ensures s == if lost then t else Entered(keys, t, t.nIdCount, rec, true).(nIdCount := t.nIdCount + 1)
    ensures |s.vvTried| == |t.vvTried| && s.vvNew == t.vvNew && s.nTried == t.nTried
  {
    var info := EntryOf(rec);
    var b := keys.TriedBucket(info.addr.svc);
    if |t.vvTried[b]| >= TRIED_BUCKET_SIZE { return true, t; }
    info := info.(nRandomPos := |t.vRandom|, fInTried := true);
    s := t.(vRandom := t.vRandom + [t.nIdCount], mapInfo := t.mapInfo[t.nIdCount := info],
            mapAddr := t.mapAddr[info.addr.svc.ip := t.nIdCount],
            vvTried := t.vvTried[b := t.vvTried[b] + [t.nIdCount]]);
    s := s.(nIdCount := s.nIdCount + 1);
    lost := false;
  }

  /** All entries up to the k-th have been read, and none was lost. */
  ghost predicate AllKept(keys: Keys, t0: Tables, s: Tables, k: nat, nLost: int) {
    nLost == 0 && s.nIdCount == k && Filled(keys, t0, s, k)
  }

  lemma KeptStep(stream: seq<Token>, keys: Keys, t0: Tables, s: Tables, k: nat, u: Tables)
    requires Written(stream, keys, t0) && AllKept(keys, t0, s, k, 0) && |NewIds(t0.mapInfo)| <= k < |Order(t0.mapInfo)|
    requires |s.vvTried| == TRIED_BUCKET_COUNT && Order(t0.mapInfo)[k] in t0.mapInfo
    ensures var rec := RecordOf(t0.mapInfo[Order(t0.mapInfo)[k]]);
      && |s.vvTried[keys.TriedBucket(rec.addr.svc)]| < TRIED_BUCKET_SIZE
      && (u == Entered(keys, s, k, rec, true).(nIdCount := k + 1) ==> AllKept(keys, t0, u, k + 1, 0))
  {
    TriedEntryStep(stream, keys, t0, s, k);
    hide Filled, Written, Order, Entered;
    var e := Entered(keys, s, k, RecordOf(t0.mapInfo[Order(t0.mapInfo)[k]]), true);
    if u == e.(nIdCount := k + 1) { AnyCount(keys, t0, e, k + 1, u); }
  }

  /** Reads the tried entries; one whose bucket is full is lost. */
  method ReadTried(stream: seq<Token>, start: nat, keys: Keys, t: Tables, ghost t0: Tables)
    returns (ok: bool, pos: nat, s: Tables)
    requires |t.vvTried| == TRIED_BUCKET_COUNT && |t.vvNew| == NEW_BUCKET_COUNT
    ensures |s.vvNew| == NEW_BUCKET_COUNT
    ensures var n, all := |NewIds(t0.mapInfo)|, |Order(t0.mapInfo)|;
      Written(stream, keys, t0) && start == 5 + n && Filled(keys, t0, t, n) ==>
        ok && pos == 5 + all && Filled(keys, t0, s, all) && s.nIdCount == all
  {
    hide Filled, Written, Consistent, AllKept, Entered, Order, NewIds;
    ghost var nNew := |NewIds(t0.mapInfo)|;
    ghost var good := Written(stream, keys, t0) && start == 5 + nNew && Filled(keys, t0, t, nNew);
    ok, pos, s := true, start, t.(nIdCount := t.nNew);
    if good { Promised(stream, keys, t0, t, nNew); KeptBegin(keys, t0, t, s, nNew); }
    var nLost, n := 0, 0;
    while n < t.nTried
      invariant 0 <= n && pos == start + n && |s.vvTried| == TRIED_BUCKET_COUNT && |s.vvNew| == NEW_BUCKET_COUNT
      invariant s.nTried == t.nTried
      invariant good ==> n <= t.nTried && AllKept(keys, t0, s, nNew + n, nLost)
    {
      if good { EntryAt(stream, keys, t0, nNew + n); }
      if pos >= |stream| || !stream[pos].Rec? { return false, pos, s; }
      ghost var was := s;
      var lost;
      lost, s := EnterOne(keys, s, stream[pos].rec);
      if good { KeptMeans(keys, t0, was, nNew + n, nLost); KeptStep(stream, keys, t0, was, nNew + n, s); }
      if lost { nLost := nLost + 1; }
      n, pos := n + 1, pos + 1;
    }
    ghost var last := s;
    s := s.(nTried := s.nTried - nLost);
    if good { KeptMeans(keys, t0, last, nNew + n, nLost); }
  }

  lemma KeptBegin(keys: Keys, t0: Tables, t: Tables, s: Tables, k: nat)
    requires Filled(keys, t0, t, k) && s == t.(nIdCount := k)
    ensures AllKept(keys, t0, s, k, 0)
  {
    AnyCount(keys, t0, t, k, s);
  }

  lemma KeptMeans(keys: Keys, t0: Tables, s: Tables, k: nat, nLost: int)
    requires AllKept(keys, t0, s, k, nLost)
    ensures nLost == 0 && s.nIdCount == k && Filled(keys, t0, s, k)
  {
  }

  lemma AnyCount(keys: Keys, t0: Tables, t: Tables, n: nat, s: Tables)
    requires Filled(keys, t0, t, n) && s == t.(nIdCount := s.nIdCount)
    ensures Filled(keys, t0, s, n)
  {
    hide EntriesLoaded, AddrLoaded, TriedLoaded;
  }

  /** Reads the members of the new buckets, counting each entry up to four times. */
  method ReadBuckets(stream: seq<Token>, start: nat, t: Tables, nUBuckets: int, ghost keys: Keys, ghost t0: Tables)
    returns (ok: bool, s: Tables)
    requires |t.vvNew| == NEW_BUCKET_COUNT
    ensures s == t.(mapInfo := s.mapInfo, vvNew := s.vvNew)
    ensures (Written(stream, keys, t0) && start == BucketStart(t0, 0) && nUBuckets == NEW_BUCKET_COUNT == |t0.vvNew|
             && CountsLoaded(t0, t.mapInfo, 0, {}) && NewLoaded(t0, t.vvNew, 0, {})) ==>
      ok && CountsLoaded(t0, s.mapInfo, |t0.vvNew|, {}) && NewLoaded(t0, s.vvNew, |t0.vvNew|, {})
  {
    hide CountsLoaded, NewLoaded, Written, BucketStart, Bucket, SetOrder.Ascending, Rank;
    ghost var good :=
      Written(stream, keys, t0) && start == BucketStart(t0, 0) && nUBuckets == NEW_BUCKET_COUNT == |t0.vvNew|
      && CountsLoaded(t0, t.mapInfo, 0, {}) && NewLoaded(t0, t.vvNew, 0, {});
    ok, s := true, t;
    var pos, b := start, 0;
    while b < nUBuckets
      invariant 0 <= b && |s.vvNew| == NEW_BUCKET_COUNT && pos >= 0 && s == t.(mapInfo := s.mapInfo, vvNew := s.vvNew)
      invariant good ==> b <= |t0.vvNew| && pos == BucketStart(t0, b)
      invariant good ==> CountsLoaded(t0, s.mapInfo, b, {}) && NewLoaded(t0, s.vvNew, b, {})
    {
      if good {
        BucketAt(stream, keys, t0, b);
        MembersAt(t0.mapInfo, t0.vvNew[b]);
      }
      if b >= NEW_BUCKET_COUNT || pos >= |stream| || !stream[pos].Num? { return false, s; }
      var nSize := stream[pos].n;
      ok, s := ReadMembers(stream, pos + 1, nSize, b, s, nUBuckets == NEW_BUCKET_COUNT, keys, t0, good);
      if !ok { return; }
      if good { BucketStep(t0, s.mapInfo, s.vvNew, b); }
      pos := pos + 1 + if nSize > 0 then nSize else 0;
      b := b + 1;
    }
  }

  method ReadMembers(stream: seq<Token>, pos: nat, nSize: int, b: nat, t: Tables, fUse: bool, ghost keys: Keys,
      ghost t0: Tables, ghost good: bool)
    returns (ok: bool, s: Tables)
    requires b < |t.vvNew| == NEW_BUCKET_COUNT
    requires good ==>
      && Written(stream, keys, t0) && fUse && |t0.vvNew| == NEW_BUCKET_COUNT && nSize == |t0.vvNew[b]|
      && pos + nSize <= |stream|
      && CountsLoaded(t0, t.mapInfo, b, {}) && NewLoaded(t0, t.vvNew, b, {})
      && forall i :: 0 <= i < nSize ==> stream[pos + i] == Num(Rank(t0.mapInfo, SetOrder.Ascending(t0.vvNew[b])[i]))
    ensures |s.vvNew| == NEW_BUCKET_COUNT && s == t.(mapInfo := s.mapInfo, vvNew := s.vvNew)
    ensures good ==> ok && CountsLoaded(t0, s.mapInfo, b, t0.vvNew[b]) && NewLoaded(t0, s.vvNew, b, t0.vvNew[b])
  {
    hide CountsLoaded, NewLoaded, Written, SetOrder.Ascending, SetOrder.Increasing;
    ok, s := true, t;
    ghost var order := if good then SetOrder.Ascending(t0.vvNew[b]) else [];
    ghost var done: set<Id> := {};
    var n := 0;
    while n < nSize
      invariant 0 <= n && |s.vvNew| == NEW_BUCKET_COUNT && s == t.(mapInfo := s.mapInfo, vvNew := s.vvNew)
      invariant good ==> n <= nSize && done == Elements(order[..n])
      invariant good ==> CountsLoaded(t0, s.mapInfo, b, done) && NewLoaded(t0, s.vvNew, b, done)
    {
      if good {
        NextMember(t0.vvNew[b], n);
        StillNew(stream, keys, t0);
        MemberStep(t0, s.mapInfo, s.vvNew, b, done, order[n]);
      }
      if pos + n >= |stream| || !stream[pos + n].Num? { return false, s; }
      var nIndex := stream[pos + n].n;
      if nIndex !in s.mapInfo { s := s.(mapInfo := s.mapInfo[nIndex := EntryOf(DEFAULT_RECORD)]); }
      if fUse && s.mapInfo[nIndex].nRefCount < NEW_BUCKETS_PER_ADDRESS {
        s := s.(mapInfo := s.mapInfo[nIndex := s.mapInfo[nIndex].(nRefCount := s.mapInfo[nIndex].nRefCount + 1)],
                vvNew := s.vvNew[b := s.vvNew[b] + {nIndex}]);
      }
      if good { done := done + {order[n]}; }
      n := n + 1;
    }
    if good { LastMember(t0.vvNew[b], n); }
  }

  lemma StillNew(stream: seq<Token>, keys: Keys, t: Tables)
    requires Written(stream, keys, t)
    ensures NewOk(t, {})
  {
  }

  lemma NextMember(s: set<Id>, n: nat)
    requires n < |s|
    ensures var order := SetOrder.Ascending(s);
      && order[n] in s && order[n] !in Elements(order[..n])
      && Elements(order[..n + 1]) == Elements(order[..n]) + {order[n]}
  {
    var order := SetOrder.Ascending(s);
    hide SetOrder.Ascending;
    assert order[n] in order && order[..n + 1] == order[..n] + [order[n]];
  }

  lemma LastMember(s: set<Id>, n: nat)
    requires n >= |s|
    ensures n == |s| ==> Elements(SetOrder.Ascending(s)[..n]) == s
  {
    hide SetOrder.Ascending;
    if n == |s| { assert SetOrder.Ascending(s)[..n] == SetOrder.Ascending(s); }
  }

  /** Reads a file. Of a file written for consistent tables it makes the same tables again, up to the
      renaming of the entries. */
  method Read(stream: seq<Token>, ghost keys0: Keys, ghost t0: Tables) returns (r: Outcome)
    ensures Written(stream, keys0, t0) ==> r.Loaded? && r.keys == keys0 && Reloaded(t0, r.t)
  {
    hide Written, Filled, CountsLoaded, NewLoaded, Reloaded, BucketStart, Consistent, Encode;
    ghost var good := Written(stream, keys0, t0);
    if good { HeaderRead(stream, keys0, t0); }
    if |stream| < 5 || !stream[0].Num? || !stream[1].Key? || !stream[2].Num? || !stream[3].Num? || !stream[4].Num? {
      return Corrupt;
    }
    var keys := stream[1].keys;
    var nUBuckets := stream[4].n;
    var t := Tables(0, map[], map[], [], stream[3].n, seq(TRIED_BUCKET_COUNT, _ => []), stream[2].n,
        seq(NEW_BUCKET_COUNT, _ => {}));
    if good { WrittenFor(stream, keys, t0); FilledNone(keys, t0, t); }
    var ok, pos, s := ReadNew(stream, keys, t, nUBuckets, t0);
    if !ok { return Corrupt; }
    ok, pos, s := ReadTried(stream, pos, keys, s, t0);
    if !ok { return Corrupt; }
    ghost var base := s;
    if good { BucketsBegin(keys, t0, s); }
    ok, s := ReadBuckets(stream, pos, s, nUBuckets, keys0, t0);
    if !ok { return Corrupt; }
    if good {
      WrittenFor(stream, keys, t0);
      Finished(keys, t0, base, s);
    }
    return Loaded(keys, s);
  }

  lemma WrittenFor(stream: seq<Token>, keys: Keys, t: Tables)
    requires Written(stream, keys, t)
    ensures Consistent(keys, t, {}) && AddrOk(t)
  {
  }

  lemma HeaderRead(stream: seq<Token>, keys: Keys, t: Tables)
    requires Written(stream, keys, t)
    ensures |stream| >= 5 && stream[0].Num? && stream[1] == Key(keys) && stream[2] == Num(t.nNew)
    ensures stream[3] == Num(t.nTried)
    ensures stream[4] == Num(NEW_BUCKET_COUNT) && |t.vvNew| == NEW_BUCKET_COUNT
  {
    hide Records, Buckets, Order;
  }

  lemma FilledNone(keys: Keys, t0: Tables, t: Tables)
    requires t ==
      Tables(0, map[], map[], [], t0.nTried, seq(TRIED_BUCKET_COUNT, _ => []), t0.nNew, seq(NEW_BUCKET_COUNT, _ => {}))
    requires AddrOk(t0)
    ensures Filled(keys, t0, t, 0)
  {
    hide Order, Rank;
    forall ip | ip in t0.mapAddr ensures Rank(t0.mapInfo, t0.mapAddr[ip]) >= 0 { assert t0.mapAddr[ip] in t0.mapInfo; }
  }

  lemma BucketsBegin(keys: Keys, t0: Tables, s: Tables)
    requires Filled(keys, t0, s, |Order(t0.mapInfo)|) && |t0.vvNew| == NEW_BUCKET_COUNT
    ensures CountsLoaded(t0, s.mapInfo, 0, {}) && NewLoaded(t0, s.vvNew, 0, {})
    ensures BucketStart(t0, 0) == 5 + |Order(t0.mapInfo)|
  {
    hide Order;
    CountsBegin(t0, s.mapInfo);
    NewBegin(t0, s.vvNew);
  }
}
