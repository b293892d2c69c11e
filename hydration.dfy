/**
  Hydration (`loadRecords`): read the id index, load each listed record,
  skip entries that are empty or do not parse, and order the result newest
  first. The functions here are the specification the dashboard's
  LoadRecords method is proved against.
 */
module Hydration {
  import opened Wrappers
  import opened Records
  import opened LedgerStore

  /**
    The ids listed by the index value. Zero-length bytes and bytes the parser
    rejects both leave the list empty. A JSON object is parsed but cannot be
    iterated or pushed to, so the caller's operation throws: `None`.
   */
  function ParseIndex(v: Bytes): (r: Option<seq<string>>)
    ensures r.None? <==> v.Entry?
    ensures v.Blank? || v.Unparseable? ==> r == Some([])
    ensures v.IdList? ==> r == Some(v.ids)
  {
    match v
    case Blank => Some([])
    case Unparseable => Some([])
    case IdList(ids) => Some(ids)
    case Entry(_) => None
  }

  /**
    The row for index entry `id` given the bytes under its key: zero-length
    bytes fail the `length > 0` test and unparseable bytes are caught, so both
    are skipped.
   */
  function ParseEntry(id: string, b: Bytes): (r: Option<DrugDeliveryRecord>)
    requires !b.IdList?
    ensures r.Some? <==> b.Entry?
    ensures r.Some? ==> r.value.id == id
  {
    if b.Entry? then Some(Hydrate(id, b.rec)) else None
  }

  /** The row the ledger `m` yields for index entry `id`, if any. */
  function LoadEntry(m: Store, id: string): Option<DrugDeliveryRecord>
  {
    ParseEntry(id, Read(m, RecordKey(id)))
  }

  function AsSeq<T>(o: Option<T>): seq<T>
  {
    match o
    case None => []
    case Some(x) => [x]
  }

  /** The `list` built by the loop over `keys`, before sorting. */
  function Collect(ids: seq<string>, m: Store): (rs: seq<DrugDeliveryRecord>)
    ensures |rs| <= |ids|
  {
    if ids == [] then []
    else Collect(ids[..|ids| - 1], m) + AsSeq(LoadEntry(m, ids[|ids| - 1]))
  }

  /** The ids of the index whose entries load, in index order. */
  function LoadableIds(ids: seq<string>, m: Store): seq<string>
  {
    if ids == [] then []
    else
      var last := ids[|ids| - 1];
      LoadableIds(ids[..|ids| - 1], m) + (if LoadEntry(m, last).Some? then [last] else [])
  }

  function Ids(rs: seq<DrugDeliveryRecord>): seq<string>
  {
    if rs == [] then [] else Ids(rs[..|rs| - 1]) + [rs[|rs| - 1].id]
  }

  lemma {:induction false} IdsAppend(a: seq<DrugDeliveryRecord>, b: seq<DrugDeliveryRecord>)
    ensures Ids(a + b) == Ids(a) + Ids(b)
    decreases |b|
  {
    if b != [] {
      var ab := a + b;
      assert ab[..|ab| - 1] == a + b[..|b| - 1];
      IdsAppend(a, b[..|b| - 1]);
    } else {
      assert a + b == a;
    }
  }

  lemma LoadEntryId(m: Store, id: string)
    ensures LoadEntry(m, id).Some? ==> LoadEntry(m, id).value.id == id
  {
  }

  /**
    Hydration keeps the index order: the rows collected carry exactly the
    loadable ids of the index, in the same order, so a skipped entry does
    not stop the ones after it.
   */
  lemma {:induction false} CollectFollowsIndex(ids: seq<string>, m: Store)
    ensures Ids(Collect(ids, m)) == LoadableIds(ids, m)
  {
    if ids != [] {
      var init, last := ids[..|ids| - 1], ids[|ids| - 1];
      CollectFollowsIndex(init, m);
      IdsAppend(Collect(init, m), AsSeq(LoadEntry(m, last)));
      LoadEntryId(m, last);
      if LoadEntry(m, last).Some? {
        assert Ids([LoadEntry(m, last).value]) == [last] by {
          assert [LoadEntry(m, last).value][..0] == [];
        }
      }
    }
  }

  /**
    Every collected row is the hydration of the object stored under an id
    of the index, and every index id whose entry loads yields its row.
   */
  lemma {:induction false} CollectMembership(ids: seq<string>, m: Store)
    ensures forall r :: r in Collect(ids, m) ==> r.id in ids && LoadEntry(m, r.id) == Some(r)
    ensures forall id :: id in ids && LoadEntry(m, id).Some? ==> LoadEntry(m, id).value in Collect(ids, m)
  {
    if ids != [] {
      var init, last := ids[..|ids| - 1], ids[|ids| - 1];
      CollectMembership(init, m);
      assert ids == init + [last];
      forall id | id in ids && LoadEntry(m, id).Some?
        ensures LoadEntry(m, id).value in Collect(ids, m)
      {
        if id != last { assert id in init; }
      }
    }
  }

  /** An index id whose bytes are empty or unparseable yields no row at all. */
  lemma SkippedEntryYieldsNoRow(ids: seq<string>, m: Store, id: string)
    requires Read(m, RecordKey(id)).Blank? || Read(m, RecordKey(id)).Unparseable?
    ensures forall r :: r in Collect(ids, m) ==> r.id != id
  {
  }

  /** Two ledgers on which the same ids load yield equally many rows. */
  lemma {:induction false} CollectSameLength(ids: seq<string>, m: Store, m': Store)
    requires forall id :: id in ids ==> LoadEntry(m, id).Some? == LoadEntry(m', id).Some?
    ensures |Collect(ids, m)| == |Collect(ids, m')|
  {
    if ids != [] {
      var init := ids[..|ids| - 1];
      assert forall id :: id in init ==> id in ids;
      CollectSameLength(init, m, m');
      assert ids[|ids| - 1] in ids;
    }
  }

  /** Records in non-increasing `timestamp` order. */
  predicate NewestFirst(rs: seq<DrugDeliveryRecord>)
  {
    forall i, j :: 0 <= i < j < |rs| ==> rs[i].timestamp >= rs[j].timestamp
  }

  /**
    Inserts `x` before the first row that is not newer than it. Inserting
    the earlier rows last keeps equal timestamps in their original order,
    as the stable `Array.prototype.sort` does.
   */
  function Insert(x: DrugDeliveryRecord, s: seq<DrugDeliveryRecord>): (r: seq<DrugDeliveryRecord>)
    ensures |r| == |s| + 1
  {
    if s == [] || x.timestamp >= s[0].timestamp then [x] + s
    else [s[0]] + Insert(x, s[1..])
  }

  /** `list.sort((a, b) => b.timestamp - a.timestamp)` */
  function SortNewestFirst(rs: seq<DrugDeliveryRecord>): (sorted: seq<DrugDeliveryRecord>)
    ensures |sorted| == |rs|
  {
    if rs == [] then [] else Insert(rs[0], SortNewestFirst(rs[1..]))
  }

  lemma {:induction false} InsertPermutes(x: DrugDeliveryRecord, s: seq<DrugDeliveryRecord>)
    ensures multiset(Insert(x, s)) == multiset(s) + multiset{x}
  {
    if s != [] && x.timestamp < s[0].timestamp {
      InsertPermutes(x, s[1..]);
      assert s == [s[0]] + s[1..];
    }
  }

  lemma {:induction false} InsertKeepsOrder(x: DrugDeliveryRecord, s: seq<DrugDeliveryRecord>)
    requires NewestFirst(s)
    ensures NewestFirst(Insert(x, s))
  {
    if s != [] && x.timestamp < s[0].timestamp {
      InsertKeepsOrder(x, s[1..]);
      InsertPermutes(x, s[1..]);
      var t := Insert(x, s[1..]);
      forall y | y in t ensures y.timestamp <= s[0].timestamp {
        assert y in multiset(t);
        assert y == x || y in multiset(s[1..]);
      }
      forall i, j | 0 <= i < j < |[s[0]] + t|
        ensures ([s[0]] + t)[i].timestamp >= ([s[0]] + t)[j].timestamp
      {
        if i == 0 { assert ([s[0]] + t)[j] in t; }
      }
    }
  }

  /** The sort orders newest first and loses or adds nothing. */
  lemma {:induction false} SortNewestFirstSortsAndPermutes(rs: seq<DrugDeliveryRecord>)
    ensures NewestFirst(SortNewestFirst(rs))
    ensures multiset(SortNewestFirst(rs)) == multiset(rs)
  {
    if rs != [] {
      SortNewestFirstSortsAndPermutes(rs[1..]);
      InsertKeepsOrder(rs[0], SortNewestFirst(rs[1..]));
      InsertPermutes(rs[0], SortNewestFirst(rs[1..]));
      assert rs == [rs[0]] + rs[1..];
    }
  }

  /** The rows of `rs` stamped `t`, in order. */
  function StampedAt(rs: seq<DrugDeliveryRecord>, t: int): seq<DrugDeliveryRecord>
  {
    if rs == [] then []
    else (if rs[0].timestamp == t then [rs[0]] else []) + StampedAt(rs[1..], t)
  }

  lemma {:induction false} InsertStable(x: DrugDeliveryRecord, s: seq<DrugDeliveryRecord>, t: int)
    requires NewestFirst(s)
    ensures StampedAt(Insert(x, s), t) == StampedAt([x] + s, t)
  {
    if s != [] && x.timestamp < s[0].timestamp {
      InsertStable(x, s[1..], t);
      var xs := [x] + s[1..];
      assert xs[1..] == s[1..];
      assert ([s[0]] + Insert(x, s[1..]))[1..] == Insert(x, s[1..]);
      assert ([x] + s)[1..] == s;
    }
  }

  /** The sort is stable: rows with equal timestamps keep their index order. */
  lemma {:induction false} SortNewestFirstStable(rs: seq<DrugDeliveryRecord>, t: int)
    ensures StampedAt(SortNewestFirst(rs), t) == StampedAt(rs, t)
  {
    if rs != [] {
      SortNewestFirstStable(rs[1..], t);
      SortNewestFirstSortsAndPermutes(rs[1..]);
      InsertStable(rs[0], SortNewestFirst(rs[1..]), t);
      assert ([rs[0]] + SortNewestFirst(rs[1..]))[1..] == SortNewestFirst(rs[1..]);
    }
  }

  /**
    The `records` state after `loadRecords`, from the read-only contract's
    presence, its availability, the ledger and the current records. Any
    early return or thrown error leaves the records as they were.
   */
  function Loaded(reader: bool, available: bool, m: Store, current: seq<DrugDeliveryRecord>)
    : (rs: seq<DrugDeliveryRecord>)
    ensures rs == current || (reader && available && !Read(m, IndexKey).Entry?)
  {
    if !reader || !available then current
    else match ParseIndex(Read(m, IndexKey))
      case None => current
      case Some(ids) => SortNewestFirst(Collect(ids, m))
  }

  /**
    What a successful load shows: the rows of exactly the loadable index
    entries, newest first, equal timestamps in index order.
   */
  lemma LoadedFromIndex(available: bool, m: Store, current: seq<DrugDeliveryRecord>, ids: seq<string>)
    requires available && ParseIndex(Read(m, IndexKey)) == Some(ids)
    ensures var rs := Loaded(true, available, m, current);
      && NewestFirst(rs)
      && multiset(rs) == multiset(Collect(ids, m))
      && (forall r :: r in rs ==> r.id in ids && LoadEntry(m, r.id) == Some(r))
      && (forall id :: id in ids && LoadEntry(m, id).Some? ==> LoadEntry(m, id).value in rs)
      && (forall t :: StampedAt(rs, t) == StampedAt(Collect(ids, m), t))
  {
    var c := Collect(ids, m);
    SortNewestFirstSortsAndPermutes(c);
    CollectMembership(ids, m);
    forall t ensures StampedAt(SortNewestFirst(c), t) == StampedAt(c, t) {
      SortNewestFirstStable(c, t);
    }
    forall r | r in SortNewestFirst(c) ensures r in c {
      assert r in multiset(SortNewestFirst(c));
    }
    forall id | id in ids && LoadEntry(m, id).Some?
      ensures LoadEntry(m, id).value in SortNewestFirst(c)
    {
      assert LoadEntry(m, id).value in multiset(c);
    }
  }

  /** An index that is missing or does not parse hydrates to no rows. */
  lemma UnparsedIndexLoadsNothing(available: bool, m: Store, current: seq<DrugDeliveryRecord>)
    requires available
    requires Read(m, IndexKey).Blank? || Read(m, IndexKey).Unparseable?
    ensures Loaded(true, available, m, current) == []
  {
  }

  /**
    Without a read-only contract, with the contract reporting unavailable, or
    with an index that cannot be iterated, the records are left unchanged.
   */
  lemma FailedLoadKeepsRecords(reader: bool, available: bool, m: Store, current: seq<DrugDeliveryRecord>)
    requires !reader || !available || Read(m, IndexKey).Entry?
    ensures Loaded(reader, available, m, current) == current
  {
  }
}
