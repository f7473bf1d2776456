/** Writing the address manager to a file and reading it back. A file is a sequence of the values written;
    how a value is laid out in bytes is not part of this module. */
module AddrFile {
  import opened AddrLaws
  import opened AddrTables
  import SetOrder

  /** The part of an entry that is written: not the last try, nor anything about buckets and places. */
  datatype Record = Record(addr: Address, source: NetAddr, nLastSuccess: int, nAttempts: int)

  datatype Token = Num(n: int) | Key(keys: Keys) | Rec(rec: Record)

  function RecordOf(info: AddrInfo): Record { Record(info.addr, info.source, info.nLastSuccess, info.nAttempts) }

  /** An entry just read. */
  function EntryOf(rec: Record): AddrInfo {
    AddrInfo(rec.addr, rec.source, rec.nLastSuccess, 0, rec.nAttempts, 0, false, -1)
  }

  /* ---- the format ---- */

  /** The untried entries in ascending order, then the tried ones. */
  function Order(m: map<Id, AddrInfo>): (s: seq<Id>)
    ensures |s| == |NewIds(m)| + |TriedIds(m)| && forall id :: id in s <==> id in m
  {
    SetOrder.Ascending(NewIds(m)) + SetOrder.Ascending(TriedIds(m))
  }

  /** The place of an entry in that order, which becomes its identifier when the file is read. */
  function Rank(m: map<Id, AddrInfo>, id: Id): (i: Id)
    ensures id in m ==> 0 <= i < |Order(m)| && Order(m)[i] == id && (m[id].fInTried <==> i >= |NewIds(m)|)
  {
    if id !in m then -1
    else if m[id].fInTried then |NewIds(m)| + SetOrder.IndexOf(TriedIds(m), id)
    else SetOrder.IndexOf(NewIds(m), id)
  }

  lemma OrderApart(m: map<Id, AddrInfo>)
    ensures NoDuplicates(Order(m))
    ensures forall i :: 0 <= i < |Order(m)| ==> (m[Order(m)[i]].fInTried <==> i >= |NewIds(m)|)
  {
    hide SetOrder.Ascending;
    var a, b := SetOrder.Ascending(NewIds(m)), SetOrder.Ascending(TriedIds(m));
    assert forall i :: 0 <= i < |a| ==> a[i] in NewIds(m);
    assert forall i :: 0 <= i < |b| ==> b[i] in TriedIds(m);
  }

  /** Rank undoes the order. */
  lemma RankOf(m: map<Id, AddrInfo>, i: nat)
    requires i < |Order(m)|
    ensures Order(m)[i] in m && Rank(m, Order(m)[i]) == i
  {
    OrderApart(m);
    assert Order(m)[i] in Order(m);
    var j := Rank(m, Order(m)[i]);
    assert Order(m)[j] == Order(m)[i];
  }

  function RecordAt(m: map<Id, AddrInfo>, id: Id): Token { if id in m then Rec(RecordOf(m[id])) else Num(0) }

  function Records(m: map<Id, AddrInfo>, ids: seq<Id>): seq<Token> {
    seq(|ids|, i requires 0 <= i < |ids| => RecordAt(m, ids[i]))
  }

  function Ranks(m: map<Id, AddrInfo>, ids: seq<Id>): seq<Token> {
    seq(|ids|, i requires 0 <= i < |ids| => Num(Rank(m, ids[i])))
  }

  function Bucket(m: map<Id, AddrInfo>, vNew: set<Id>): seq<Token> {
    [Num(|vNew|)] + Ranks(m, SetOrder.Ascending(vNew))
  }

  /** The first n new buckets. */
  function Buckets(m: map<Id, AddrInfo>, vvNew: seq<set<Id>>, n: nat): seq<Token>
    requires n <= |vvNew|
  {
    if n == 0 then [] else Buckets(m, vvNew, n - 1) + Bucket(m, vvNew[n - 1])
  }

  function Header(keys: Keys, t: Tables): seq<Token> {
    [Num(0), Key(keys), Num(t.nNew), Num(t.nTried), Num(NEW_BUCKET_COUNT)]
  }

  /** The file written for consistent tables. */
  function Encode(keys: Keys, t: Tables): seq<Token> {
    Header(keys, t) + Records(t.mapInfo, Order(t.mapInfo)) + Buckets(t.mapInfo, t.vvNew, |t.vvNew|)
  }

  /* ---- writing ---- */

  /** The members of the list that are in the set, in the order of the list. */
  function Sublist(s: seq<Id>, keep: set<Id>): (r: seq<Id>)
    ensures forall x :: x in r <==> x in s && x in keep
  {
    if s == [] then []
    else
      var last := s[|s| - 1];
      assert s == s[..|s| - 1] + [last];
      Sublist(s[..|s| - 1], keep) + if last in keep then [last] else []
  }

  lemma {:induction false} SublistIncreasing(s: seq<Id>, keep: set<Id>)
    requires SetOrder.Increasing(s)
    ensures SetOrder.Increasing(Sublist(s, keep))
  {
    if s != [] {
      var r := Sublist(s[..|s| - 1], keep);
      SublistIncreasing(s[..|s| - 1], keep);
      forall i | 0 <= i < |r| ensures r[i] < s[|s| - 1] {
        assert r[i] in r;
        assert r[i] in s[..|s| - 1];
      }
    }
  }

  lemma SublistIs(all: set<Id>, keep: set<Id>)
    requires keep <= all
    ensures Sublist(SetOrder.Ascending(all), keep) == SetOrder.Ascending(keep)
  {
    hide SetOrder.Ascending;
    SublistIncreasing(SetOrder.Ascending(all), keep);
    SetOrder.IncreasingUnique(Sublist(SetOrder.Ascending(all), keep), SetOrder.Ascending(keep));
  }

  lemma {:induction false} SublistPrefix(s: seq<Id>, i: nat, keep: set<Id>)
    requires i <= |s|
    ensures Sublist(s[..i], keep) <= Sublist(s, keep)
    decreases |s|
  {
    if i < |s| {
      assert s[..|s| - 1][..i] == s[..i];
      SublistPrefix(s[..|s| - 1], i, keep);
    } else {
      assert s[..i] == s;
    }
  }

  /** n of the members of keep are among the first i of all. */
  ghost predicate Passed(all: set<Id>, keep: set<Id>, i: int, n: int) {
    0 <= i <= |all| && 0 <= n <= |keep| && Sublist(SetOrder.Ascending(all)[..i], keep) == SetOrder.Ascending(keep)[..n]
  }

  lemma PassBegins(all: set<Id>, keep: set<Id>)
    ensures Passed(all, keep, 0, 0)
  {
  }

  lemma PassStep(all: set<Id>, keep: set<Id>, i: nat, n: nat)
    requires keep <= all && i < |all| && Passed(all, keep, i, n)
    ensures var x := SetOrder.Ascending(all)[i];
      && x in all
      && (if x in keep then n < |keep| && SetOrder.Ascending(keep)[n] == x && Passed(all, keep, i + 1, n + 1)
          else Passed(all, keep, i + 1, n))
  {
    hide SetOrder.Ascending, Sublist;
    var s, r := SetOrder.Ascending(all), SetOrder.Ascending(keep);
    assert s[i] in s;
    SublistIs(all, keep);
    SublistPrefix(s, i + 1, keep);
    SublistNext(s, i, keep);
    if s[i] in keep { PrefixNext(Sublist(s[..i + 1], keep), r, n, s[i]); }
  }

  lemma SublistNext(s: seq<Id>, i: nat, keep: set<Id>)
    requires i < |s|
    ensures Sublist(s[..i + 1], keep) == Sublist(s[..i], keep) + if s[i] in keep then [s[i]] else []
  {
    assert s[..i + 1][..i] == s[..i];
  }

  lemma PrefixNext(next: seq<Id>, r: seq<Id>, n: nat, x: Id)
    requires n <= |r| && next == r[..n] + [x] && next <= r
    ensures n < |r| && r[n] == x && next == r[..n + 1]
  {
    assert next[n] == x;
  }

  /** Once as many have been found as there are, or the end has been reached, all have been found. */
  lemma PassEnds(all: set<Id>, keep: set<Id>, i: nat, n: nat)
    requires keep <= all && Passed(all, keep, i, n) && (i == |all| || n == |keep|)
    ensures SetOrder.Ascending(keep)[..n] == SetOrder.Ascending(keep)
  {
    hide SetOrder.Ascending;
    var s := SetOrder.Ascending(all);
    SublistIs(all, keep);
    if i == |all| { assert s[..i] == s; }
  }

  method WriteNew(t: Tables) returns (out: seq<Token>, mapUnkIds: map<Id, int>)
    requires t.nNew == |NewIds(t.mapInfo)|
    requires forall id :: id in t.mapInfo ==> (t.mapInfo[id].fInTried <==> t.mapInfo[id].nRefCount == 0)
    ensures out == Records(t.mapInfo, SetOrder.Ascending(NewIds(t.mapInfo)))
    ensures forall id :: id in NewIds(t.mapInfo) ==> id in mapUnkIds && mapUnkIds[id] == Rank(t.mapInfo, id)
  {
    hide SetOrder.Ascending, SetOrder.Increasing, Passed, Rank, Order;
    ghost var m, keep := t.mapInfo, NewIds(t.mapInfo);
    ghost var r := SetOrder.Ascending(keep);
    var all := SetOrder.Ascending(t.mapInfo.Keys);
    out, mapUnkIds := [], map[];
    var nIds, i := 0, 0;
    PassBegins(m.Keys, keep);
    while i < |all|
      invariant 0 <= i <= |all| && 0 <= nIds <= |r| && Passed(m.Keys, keep, i, nIds) && out == Records(m, r[..nIds])
      invariant forall j :: 0 <= j < nIds ==> r[j] in mapUnkIds && mapUnkIds[r[j]] == j
    {
      if nIds == t.nNew { break; }
      PassStep(m.Keys, keep, i, nIds);
      var id := all[i];
      NotListedBefore(keep, nIds, id);
      mapUnkIds := mapUnkIds[id := nIds];
      if t.mapInfo[id].nRefCount != 0 {
        out := out + [Rec(RecordOf(t.mapInfo[id]))];
        assert r[..nIds + 1] == r[..nIds] + [id];
        nIds := nIds + 1;
      }
      i := i + 1;
    }
    PassEnds(m.Keys, keep, i, nIds);
    assert nIds == |r| by { assert |r[..nIds]| == nIds; }
    forall id | id in keep ensures id in mapUnkIds && mapUnkIds[id] == Rank(m, id) {
      NewRank(m, id);
    }
  }

  lemma NotListedBefore(keep: set<Id>, n: nat, id: Id)
    requires n <= |keep| && (id in keep ==> n < |keep| && SetOrder.Ascending(keep)[n] == id)
    ensures forall j :: 0 <= j < n ==> SetOrder.Ascending(keep)[j] != id
  {
    hide SetOrder.Ascending;
    forall j | 0 <= j < n ensures SetOrder.Ascending(keep)[j] != id {
      assert SetOrder.Ascending(keep)[j] in keep;
    }
  }

  lemma NewRank(m: map<Id, AddrInfo>, id: Id)
    requires id in NewIds(m)
    ensures 0 <= Rank(m, id) < |NewIds(m)| && SetOrder.Ascending(NewIds(m))[Rank(m, id)] == id
  {
  }

  method WriteTried(t: Tables) returns (out: seq<Token>)
    requires t.nTried == |TriedIds(t.mapInfo)|
    ensures out == Records(t.mapInfo, SetOrder.Ascending(TriedIds(t.mapInfo)))
  {
    hide SetOrder.Ascending, SetOrder.Increasing, Passed;
    ghost var m, keep := t.mapInfo, TriedIds(t.mapInfo);
    ghost var r := SetOrder.Ascending(keep);
    var all := SetOrder.Ascending(t.mapInfo.Keys);
    out := [];
    var nIds, i := 0, 0;
    PassBegins(m.Keys, keep);
    while i < |all|
      invariant 0 <= i <= |all| && 0 <= nIds <= |r| && Passed(m.Keys, keep, i, nIds) && out == Records(m, r[..nIds])
    {
      if nIds == t.nTried { break; }
      PassStep(m.Keys, keep, i, nIds);
      var id := all[i];
      if t.mapInfo[id].fInTried {
        out := out + [Rec(RecordOf(t.mapInfo[id]))];
        assert r[..nIds + 1] == r[..nIds] + [id];
        nIds := nIds + 1;
      }
      i := i + 1;
    }
    PassEnds(m.Keys, keep, i, nIds);
  }

  method WriteBucket(vNew: set<Id>, mapUnkIds: map<Id, int>, ghost m: map<Id, AddrInfo>) returns (out: seq<Token>)
    requires forall id :: id in vNew ==> id in mapUnkIds && mapUnkIds[id] == Rank(m, id)
    ensures out == Bucket(m, vNew)
  {
    hide SetOrder.Ascending, SetOrder.Increasing, Rank;
    var order := SetOrder.Ascending(vNew);
    out := [Num(|vNew|)];
    var i := 0;
    while i < |order|
      invariant 0 <= i <= |order| && out == [Num(|vNew|)] + Ranks(m, order[..i])
    {
      var id := order[i];
      assert id in vNew;
      assert id in mapUnkIds;
      assert order[..i + 1] == order[..i] + [id];
      var nIndex := mapUnkIds[id];
      out := out + [Num(nIndex)];
      i := i + 1;
    }
    assert order[..i] == order;
  }

  lemma InNew(t: Tables, b: nat)
    requires NewOk(t, {}) && b < |t.vvNew|
    ensures t.vvNew[b] <= NewIds(t.mapInfo)
  {
    forall id | id in t.vvNew[b] ensures id in NewIds(t.mapInfo) {}
  }

  method WriteBuckets(t: Tables, mapUnkIds: map<Id, int>) returns (out: seq<Token>)
    requires NewOk(t, {})
    requires forall id :: id in NewIds(t.mapInfo) ==> id in mapUnkIds && mapUnkIds[id] == Rank(t.mapInfo, id)
    ensures out == Buckets(t.mapInfo, t.vvNew, |t.vvNew|)
  {
    hide NewOk, Rank, Bucket;
    out := [];
    var b := 0;
    while b < |t.vvNew|
      invariant 0 <= b <= |t.vvNew| && out == Buckets(t.mapInfo, t.vvNew, b)
    {
      InNew(t, b);
      var bucket := WriteBucket(t.vvNew[b], mapUnkIds, t.mapInfo);
      out := out + bucket;
      b := b + 1;
    }
  }

  lemma RecordsInOrder(m: map<Id, AddrInfo>)
    ensures Records(m, Order(m)) ==
      Records(m, SetOrder.Ascending(NewIds(m))) + Records(m, SetOrder.Ascending(TriedIds(m)))
  {
    hide SetOrder.Ascending;
  }

  lemma CountedOrTried(keys: Keys, t: Tables)
    requires Consistent(keys, t, {})
    ensures t.nNew == |NewIds(t.mapInfo)| && t.nTried == |TriedIds(t.mapInfo)|
    ensures forall id :: id in t.mapInfo ==> (t.mapInfo[id].fInTried <==> t.mapInfo[id].nRefCount == 0)
  {
    TriedUncounted(keys, t);
    hide SizesOk, AddrOk, RandomOk, TriedOk;
  }

  /** Writes the tables in passes over the entries and the new buckets. */
  method Write(keys: Keys, t: Tables) returns (out: seq<Token>)
    requires Consistent(keys, t, {})
    ensures out == Encode(keys, t)
  {
    CountedOrTried(keys, t);
    assert NewOk(t, {});
    RecordsInOrder(t.mapInfo);
    hide Consistent, NewOk, SetOrder.Ascending, Rank, Buckets, Records, Order;
    var head := [Num(0), Key(keys), Num(t.nNew), Num(t.nTried), Num(NEW_BUCKET_COUNT)];
    assert head == Header(keys, t);
    hide Header;
    var news, mapUnkIds := WriteNew(t);
    var trieds := WriteTried(t);
    var buckets := WriteBuckets(t, mapUnkIds);
    out := head + (news + trieds) + buckets;
  }
}
