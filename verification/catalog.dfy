/** The video registry `videos_data`: a Python dict from video id to record.
    A Python dict remembers insertion order, and `/listvideos` shows its last
    entries, so the registry is a map together with the order its keys were
    first inserted in. Also the two admin read-outs over it, `/stats` and
    `/listvideos`. */
module Catalog {
  import opened Model

  datatype Registry = Registry(order: seq<VideoId>, records: map<VideoId, Record>)

  predicate Distinct(s: seq<VideoId>) {
    forall i, j :: 0 <= i < j < |s| ==> s[i] != s[j]
  }

  /** The key list is exactly the map's keys, each once. */
  predicate WellOrdered(reg: Registry) {
    && Distinct(reg.order)
    && (forall i :: 0 <= i < |reg.order| ==> reg.order[i] in reg.records)
    && (forall k :: k in reg.records ==> k in reg.order)
  }

  type ValidRegistry = reg: Registry | WellOrdered(reg) witness Registry([], map[])

  /** `videos_data.get(id)`. */
  function Lookup(reg: ValidRegistry, id: VideoId): (r: Option<Record>)
    ensures r.Some? <==> id in reg.order
    ensures r.Some? ==> r.value == reg.records[id]
  {
    if id in reg.records then Some(reg.records[id]) else None
  }

  /** `videos_data[id] = rec`. A new key goes to the end of the order; an
      existing key is overwritten in place and keeps its position. */
  function Put(reg: ValidRegistry, id: VideoId, rec: Record): (r: ValidRegistry)
    ensures id in r.records && r.records[id] == rec
    ensures forall k :: k != id ==> (k in r.records <==> k in reg.records)
    ensures forall k :: k != id && k in reg.records ==> r.records[k] == reg.records[k]
    ensures id in reg.records ==> r.order == reg.order
    ensures id !in reg.records ==> r.order == reg.order + [id]
  {
    var order := if id in reg.records then reg.order else reg.order + [id];
    var r := Registry(order, reg.records[id := rec]);
    assert WellOrdered(r) by {
      forall i | 0 <= i < |order| ensures order[i] in r.records {
        if i < |reg.order| {
          assert order[i] == reg.order[i];
        }
      }
    }
    r
  }

  /** Every registered record has at least one file. */
  predicate RecordsNonEmpty(reg: ValidRegistry) {
    forall k :: k in reg.records ==> reg.records[k].files != []
  }

  /** Reading back after a write: the written id gives the new record, every
      other id what it gave before. */
  lemma LookupAfterPut(reg: ValidRegistry, id: VideoId, rec: Record, k: VideoId)
    ensures Lookup(Put(reg, id, rec), id) == Some(rec)
    ensures k != id ==> Lookup(Put(reg, id, rec), k) == Lookup(reg, k)
  {
  }

  /** The number of files stored under `k`, zero for a missing key. */
  function FileCount(records: map<VideoId, Record>, k: VideoId): nat {
    if k in records then |records[k].files| else 0
  }

  /** The files stored under the keys `keys`, summed. */
  function SumFiles(keys: seq<VideoId>, records: map<VideoId, Record>): nat
    decreases |keys|
  {
    if keys == [] then 0
    else SumFiles(keys[..|keys| - 1], records) + FileCount(records, keys[|keys| - 1])
  }

  /** Python's `sum(len(v["files"]) for v in videos_data.values())`. */
  function TotalFiles(reg: ValidRegistry): nat {
    SumFiles(reg.order, reg.records)
  }

  /** Updating a key the sum does not range over leaves the sum alone. */
  lemma {:induction false} SumFilesFrame(keys: seq<VideoId>, records: map<VideoId, Record>, id: VideoId, rec: Record)
    requires id !in keys
    ensures SumFiles(keys, records[id := rec]) == SumFiles(keys, records)
    decreases |keys|
  {
    if keys != [] {
      SumFilesFrame(keys[..|keys| - 1], records, id, rec);
    }
  }

  /** Updating a key the sum ranges over exactly once swaps its file count. */
  lemma {:induction false} SumFilesReplace(keys: seq<VideoId>, records: map<VideoId, Record>, id: VideoId, rec: Record)
    requires Distinct(keys)
    requires id in keys
    ensures SumFiles(keys, records[id := rec]) + FileCount(records, id)
            == SumFiles(keys, records) + |rec.files|
    decreases |keys|
  {
    var init := keys[..|keys| - 1];
    var last := keys[|keys| - 1];
    if last == id {
      SumFilesFrame(init, records, id, rec);
    } else {
      assert id in init by {
        var j :| 0 <= j < |keys| && keys[j] == id;
        assert j < |keys| - 1;
        assert init[j] == id;
      }
      assert Distinct(init) by {
        forall i, j | 0 <= i < j < |init| ensures init[i] != init[j] {
          assert init[i] == keys[i] && init[j] == keys[j];
        }
      }
      SumFilesReplace(init, records, id, rec);
    }
  }

  /** How a commit moves the file total: a new id adds its files; an
      overwritten id trades its old files for the new ones. */
  lemma TotalFilesAfterPut(reg: ValidRegistry, id: VideoId, rec: Record)
    ensures id !in reg.records ==> TotalFiles(Put(reg, id, rec)) == TotalFiles(reg) + |rec.files|
    ensures id in reg.records ==>
              TotalFiles(Put(reg, id, rec)) + |reg.records[id].files| == TotalFiles(reg) + |rec.files|
  {
    var r := Put(reg, id, rec);
    if id in reg.records {
      SumFilesReplace(reg.order, reg.records, id, rec);
    } else {
      var keys := reg.order + [id];
      assert keys[..|keys| - 1] == reg.order;
      SumFilesFrame(reg.order, reg.records, id, rec);
    }
  }

  /** How many entries `/listvideos` shows at most. */
  const RecentLimit: nat := 10

  /** One line of the listing: id, title and number of files. */
  datatype ListEntry = ListEntry(id: VideoId, title: Option<string>, fileCount: nat)

  datatype ListReply = ListAdminOnly | NoVideos | Listing(entries: seq<ListEntry>)

  /** `list(videos_data.items())[-10:]`, rendered as entries. */
  function Recent(reg: ValidRegistry): seq<ListEntry> {
    var n := if |reg.order| < RecentLimit then |reg.order| else RecentLimit;
    var start := |reg.order| - n;
    seq(n, i requires 0 <= i < n =>
      var k := reg.order[start + i];
      ListEntry(k, reg.records[k].title, |reg.records[k].files|))
  }

  /** `/listvideos`: admins only; an empty registry says so; otherwise the
      last up-to-ten records in insertion order. */
  function ListVideos(user: UserId, admins: seq<UserId>, reg: ValidRegistry): (r: ListReply)
    ensures !IsAdmin(user, admins) <==> r.ListAdminOnly?
    ensures r.NoVideos? <==> IsAdmin(user, admins) && |reg.records| == 0
    ensures r.Listing? ==>
              && 0 < |r.entries| <= RecentLimit
              && (|reg.order| <= RecentLimit ==> |r.entries| == |reg.order|)
              && (|reg.order| > RecentLimit ==> |r.entries| == RecentLimit)
              && (forall i :: 0 <= i < |r.entries| ==>
                    var k := reg.order[|reg.order| - |r.entries| + i];
                    && r.entries[i].id == k
                    && r.entries[i].title == reg.records[k].title
                    && r.entries[i].fileCount == |reg.records[k].files|)
  {
    if !IsAdmin(user, admins) then ListAdminOnly
    else if |reg.records| == 0 then NoVideos
    else
      assert reg.order[0] in reg.records;
      Listing(Recent(reg))
  }

  /** The recent window after appending a new id: the old window, less its
      oldest entry when it was full, followed by the new record. */
  lemma RecentAfterPut(reg: ValidRegistry, id: VideoId, rec: Record)
    requires id !in reg.records
    ensures var before := Recent(reg);
            Recent(Put(reg, id, rec))
            == (if |before| == RecentLimit then before[1..] else before) + [ListEntry(id, rec.title, |rec.files|)]
  {
    var reg' := Put(reg, id, rec);
    var before := Recent(reg);
    var after := Recent(reg');
    var tail := if |before| == RecentLimit then before[1..] else before;
    var drop := |before| - |tail|;
    assert |after| == |tail| + 1;
    forall i | 0 <= i < |tail| ensures after[i] == tail[i] {
      var k := reg'.order[|reg'.order| - |after| + i];
      assert k == reg.order[|reg.order| - |before| + drop + i];
      assert tail[i] == before[drop + i];
    }
    assert after == tail + [after[|tail|]];
  }

  /** After a commit under a new id, `/listvideos` ends with that record, and
      the entries before it are the previous listing, less its oldest entry
      when the listing was already full. */
  lemma ListVideosAfterPut(user: UserId, admins: seq<UserId>, reg: ValidRegistry, id: VideoId, rec: Record)
    requires IsAdmin(user, admins)
    requires id !in reg.records
    ensures var after := ListVideos(user, admins, Put(reg, id, rec));
            var before := ListVideos(user, admins, reg);
            var kept := if before.Listing? then before.entries else [];
            && after.Listing?
            && after.entries[|after.entries| - 1] == ListEntry(id, rec.title, |rec.files|)
            && after.entries[..|after.entries| - 1]
               == (if |kept| == RecentLimit then kept[1..] else kept)
  {
    KeyCount(reg);
    RecentAfterPut(reg, id, rec);
    var e := Recent(Put(reg, id, rec));
    assert e[..|e| - 1] == (var b := Recent(reg); if |b| == RecentLimit then b[1..] else b);
  }

  datatype StatsReply = StatsAdminOnly | Stats(videos: nat, files: nat, adminCount: nat)

  /** `/stats`: for admins, the number of records, of stored files and of
      configured admin ids. */
  function StatsOf(user: UserId, admins: seq<UserId>, reg: ValidRegistry): (r: StatsReply)
    ensures !IsAdmin(user, admins) <==> r.StatsAdminOnly?
    ensures r.Stats? ==> r.videos == |reg.order| && r.adminCount == |admins|
    ensures r.Stats? ==> r.files == TotalFiles(reg)
    ensures r.Stats? && RecordsNonEmpty(reg) ==> r.videos <= r.files
  {
    if !IsAdmin(user, admins) then StatsAdminOnly
    else
      KeyCount(reg);
      FilesCoverKeys(reg.order, reg);
      Stats(|reg.records|, TotalFiles(reg), |admins|)
  }

  /** The registry holds as many records as its key order lists ids. */
  lemma KeyCount(reg: ValidRegistry)
    ensures |reg.records| == |reg.order|
  {
    DistinctCard(reg.order);
    assert reg.records.Keys == set k | k in reg.order;
  }

  /** A duplicate-free sequence has as many distinct elements as entries. */
  lemma {:induction false} DistinctCard(s: seq<VideoId>)
    requires Distinct(s)
    ensures |set k | k in s| == |s|
    decreases |s|
  {
    if s != [] {
      var init := s[..|s| - 1];
      assert Distinct(init) by {
        forall i, j | 0 <= i < j < |init| ensures init[i] != init[j] {
          assert init[i] == s[i] && init[j] == s[j];
        }
      }
      DistinctCard(init);
      assert (set k | k in s) == (set k | k in init) + {s[|s| - 1]};
      assert s[|s| - 1] !in (set k | k in init);
    }
  }

  /** With no empty record, every listed id brings at least one file. */
  lemma {:induction false} FilesCoverKeys(keys: seq<VideoId>, reg: ValidRegistry)
    requires forall i :: 0 <= i < |keys| ==> keys[i] in reg.records
    ensures RecordsNonEmpty(reg) ==> |keys| <= SumFiles(keys, reg.records)
    decreases |keys|
  {
    if keys != [] {
      FilesCoverKeys(keys[..|keys| - 1], reg);
    }
  }
}
