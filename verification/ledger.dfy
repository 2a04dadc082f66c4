/** The compressor database behind the admin endpoints: a ledger of tasks, its blob metadata
    (`fs.files`) and blob chunks (`fs.chunks`), with statistics, listings and batch deletion. */
module Ledger {
  import opened Common
  import opened Tasks

  const COMPRESS := "compress"
  const RAW_FILENAME := "raw_filename"
  const NO_TASK_IDS := "未提供任務 ID"

  /** Ten minutes, in the seconds `created_at` is measured in. */
  const ACTIVE_WINDOW := 600
  const ACTIVE_LIMIT := 20
  const DEFAULT_PAGE := 1
  const DEFAULT_LIMIT := 50

  /** 2^63: BSON integers are signed 64-bit, so a find command can carry only skips and limit
      magnitudes below this. */
  const INT64_BOUND := 0x8000_0000_0000_0000

  // ---------------------------------------------------------------------------
  // Request and reply shapes

  /** A query argument: absent (the default applies), an integer, or text `int()` rejects. */
  datatype IntArg = Absent | Given(v: int) | NotAnInt

  function ArgOr(a: IntArg, default: int): int
    requires !a.NotAnInt?
  {
    if a.Given? then a.v else default
  }

  /** The body of a batch delete: not a JSON object at all, or an object with or without `task_ids`. */
  datatype DeleteBody = NotJsonObject | Body(taskIds: Option<seq<string>>)

  datatype Stats = Stats(
    totalTasks: nat,
    completedTasks: nat,
    failedTasks: nat,
    successRate: real,
    storageUsedBytes: nat)

  /** One element of the `files` list of GET /admin/api/all-files. */
  datatype FileEntry = FileEntry(
    id: ObjectId,
    filename: Value,
    originalFilename: Value,
    createdAt: int,
    fileSize: nat,
    ipAddress: Value)

  datatype FilesPage = FilesPage(files: seq<FileEntry>, total: nat, page: int, limit: int, totalPages: int)

  // ---------------------------------------------------------------------------
  // The fixed filters of the endpoints

  predicate IsCompleted(t: Task) { HasStatus(t.status, COMPLETED) }

  predicate IsFailed(t: Task) { HasStatus(t.status, FAILED) }

  /** `{'type': 'compress', 'status': '完成'}`: what `total` counts. */
  predicate IsCompletedCompress(t: Task) { t.kind == COMPRESS && HasStatus(t.status, COMPLETED) }

  /** The listing filter adds `'result_file_id': {'$exists': True}` (a null value exists). */
  predicate IsListable(t: Task) { IsCompletedCompress(t) && !t.resultFileId.NoField? }

  /** Whether the find command of a listing can be encoded: the driver sends a nonzero skip and
      the magnitude of a nonzero limit as BSON integers. */
  predicate Encodable(skip: int, limit: int) { skip < INT64_BOUND && -INT64_BOUND < limit < INT64_BOUND }

  predicate IsRecent(t: Task, now: int) { t.createdAt >= now - ACTIVE_WINDOW && Tracked(t.status) }

  /** The tracked tasks created in the last ten minutes, in collection order. */
  function RecentTasks(ts: seq<Task>, now: int): (r: seq<Task>)
    ensures forall i :: 0 <= i < |r| ==> r[i] in ts && IsRecent(r[i], now)
    ensures forall i :: 0 <= i < |ts| && IsRecent(ts[i], now) ==> ts[i] in r
  {
    Filter(ts, (t: Task) => IsRecent(t, now))
  }

  /** The listable tasks, newest first and then by id, before skip and limit. The source sorts on
      `created_at` alone; the `_id` tiebreak is the correction described in README.md. */
  function Listing(ts: seq<Task>): (r: seq<Task>)
    ensures InListingOrder(r) && NewestFirst(r)
    ensures multiset(r) == multiset(Filter(ts, IsListable))
  {
    var r := SortListingOrder(Filter(ts, IsListable));
    InListingOrderIsNewestFirst(r);
    r
  }

  /** With unique task ids the listing is the only ordering of the listable tasks by creation time
      and id: every page request sorts them the same way. */
  lemma ListingIsTheOrder(ts: seq<Task>, order: seq<Task>)
    requires UniqueTaskIds(ts)
    requires InListingOrder(order) && multiset(order) == multiset(Filter(ts, IsListable))
    ensures order == Listing(ts)
  {
    var f := Filter(ts, IsListable);
    forall x, y | x in order && y in order && x.id == y.id
      ensures x == y
    {
      assert x in multiset(f) && y in multiset(f);
      var i :| 0 <= i < |ts| && ts[i] == x;
      var j :| 0 <= j < |ts| && ts[j] == y;
      assert i == j;
    }
    ListingOrderUnique(order, Listing(ts));
  }

  /** `total` counts completed compress tasks whether or not they carry a result file,
      so it is at least the number of tasks the listing can show. */
  lemma TotalCoversListing(ts: seq<Task>)
    ensures |Listing(ts)| <= Count(ts, IsCompletedCompress)
  {
    var hasRef := (t: Task) => !t.resultFileId.NoField?;
    FilterFilter(ts, IsCompletedCompress, hasRef, IsListable);
  }

  /** `find(...).sort('created_at', -1).skip(skip).limit(limit)`: a limit of 0 is no limit,
      a negative limit is a single batch of |limit| documents. */
  function Cursor(ts: seq<Task>, skip: nat, limit: int): (r: seq<Task>)
    ensures skip >= |Listing(ts)| ==> r == []
    ensures skip < |Listing(ts)| ==> skip + |r| <= |Listing(ts)|
    ensures forall i :: 0 <= i < |r| ==> r[i] == Listing(ts)[skip + i]
    ensures limit == 0 && skip < |Listing(ts)| ==> |r| == |Listing(ts)| - skip
    ensures limit != 0 && skip < |Listing(ts)| ==>
      |r| == Min(if limit < 0 then -limit else limit, |Listing(ts)| - skip)
  {
    var listing := Listing(ts);
    Window(listing, skip, if limit == 0 then |listing| else if limit < 0 then -limit else limit)
  }

  lemma CursorNewestFirst(ts: seq<Task>, skip: nat, limit: int)
    ensures NewestFirst(Cursor(ts, skip, limit))
  {
    var listing := Listing(ts);
    WindowNewestFirst(listing, skip, if limit == 0 then |listing| else if limit < 0 then -limit else limit);
  }

  /** The listed tasks are exactly the listable ones, each as often as in the collection. */
  lemma ListingIsListable(ts: seq<Task>)
    ensures multiset(Listing(ts)) == multiset(Filter(ts, IsListable))
    ensures forall i :: 0 <= i < |Listing(ts)| ==> Listing(ts)[i] in ts && IsListable(Listing(ts)[i])
  {
    var f := Filter(ts, IsListable);
    forall i | 0 <= i < |Listing(ts)|
      ensures Listing(ts)[i] in ts && IsListable(Listing(ts)[i])
    {
      assert Listing(ts)[i] in multiset(f);
    }
  }

  /** As written, the listing sorts on `created_at` alone and every page runs the query again.
      When no two listable tasks share a creation time, any newest-first order of them is the
      listing itself, so the query as written serves pages of one and the same sequence too. */
  lemma ListingOrderForced(ts: seq<Task>, order: seq<Task>)
    requires forall x, y :: x in ts && y in ts && IsListable(x) && IsListable(y) && x.createdAt == y.createdAt ==> x == y
    requires NewestFirst(order) && multiset(order) == multiset(Filter(ts, IsListable))
    ensures order == Listing(ts)
  {
    var f := Filter(ts, IsListable);
    forall x, y | x in order && y in order && x.createdAt == y.createdAt
      ensures x == y
    {
      assert x in multiset(f) && y in multiset(f);
    }
    NewestFirstUnique(order, Listing(ts));
  }

  /** A task whose entry can be built: `task.get('params', {}).get(...)` raises on any stored
      `params` that is not a mapping. */
  predicate Presentable(t: Task) { !t.params.ParamsNotObject? }

  predicate AllPresentable(ts: seq<Task>) { forall i :: 0 <= i < |ts| ==> Presentable(ts[i]) }

  /** The entry a listed task becomes, with its defaults for missing fields (a field holding
      null stays null); `None` when it is not presentable. */
  function EntryOf(t: Task, bs: seq<BlobMeta>): (e: Option<FileEntry>)
    ensures e.Some? <==> Presentable(t)
    ensures e.Some? ==> e.value.id == t.id && e.value.createdAt == t.createdAt
    ensures e.Some? ==> e.value.filename == if t.resultFilename.Some? then t.resultFilename.value else Str(UNKNOWN)
    ensures e.Some? ==>
              e.value.originalFilename ==
                if t.params.ParamsObject? && RAW_FILENAME in t.params.fields then t.params.fields[RAW_FILENAME] else Str(UNKNOWN)
    ensures e.Some? ==> e.value.ipAddress == if t.ipAddress.Some? then t.ipAddress.value else Str(UNKNOWN)
    ensures e.Some? ==> e.value.fileSize == FileSize(bs, t.resultFileId)
  {
    if t.params.ParamsNotObject? then None
    else
      var original := if t.params.ParamsObject? then Get(t.params.fields, RAW_FILENAME, Str(UNKNOWN)) else Str(UNKNOWN);
      Some(FileEntry(
        t.id,
        t.resultFilename.GetOr(Str(UNKNOWN)),
        original,
        t.createdAt,
        FileSize(bs, t.resultFileId),
        t.ipAddress.GetOr(Str(UNKNOWN))))
  }

  /** A listed file's size is the length of the blob its task names, and 0 when there is none. */
  lemma EntrySize(t: Task, bs: seq<BlobMeta>)
    requires UniqueBlobIds(bs)
    ensures (t.resultFileId.BlobRef? && exists i :: 0 <= i < |bs| && bs[i].id == t.resultFileId.blob) ==>
              exists i :: 0 <= i < |bs| && bs[i].id == t.resultFileId.blob && FileSize(bs, t.resultFileId) == bs[i].length
    ensures !(t.resultFileId.BlobRef? && exists i :: 0 <= i < |bs| && bs[i].id == t.resultFileId.blob) ==>
              FileSize(bs, t.resultFileId) == 0
  {
    if t.resultFileId.BlobRef? && exists i :: 0 <= i < |bs| && bs[i].id == t.resultFileId.blob {
      var i :| 0 <= i < |bs| && bs[i].id == t.resultFileId.blob;
      assert forall j :: 0 <= j < i ==> bs[j].id != t.resultFileId.blob;
    }
  }

  // ---------------------------------------------------------------------------
  // Batch deletion, as functions of the stores

  /** `find({'_id': {'$in': ids}})`: those tasks whose id is named. */
  function MatchedTasks(ts: seq<Task>, named: set<ObjectId>): (r: seq<Task>)
    ensures forall i :: 0 <= i < |r| ==> r[i] in ts && r[i].id in named
    ensures forall i :: 0 <= i < |ts| && ts[i].id in named ==> ts[i] in r
  {
    Filter(ts, (t: Task) => t.id in named)
  }

  /** What is left of `tasks` once the records with the given ids are deleted. */
  function KeepTasks(ts: seq<Task>, ids: set<ObjectId>): (r: seq<Task>)
    ensures forall i :: 0 <= i < |r| ==> r[i] in ts && r[i].id !in ids
    ensures forall i :: 0 <= i < |ts| && ts[i].id !in ids ==> ts[i] in r
  {
    Filter(ts, (t: Task) => t.id !in ids)
  }

  /** The blob metadata left once the blobs with the given ids are deleted. */
  function KeepBlobs(bs: seq<BlobMeta>, ids: set<ObjectId>): (r: seq<BlobMeta>)
    ensures forall i :: 0 <= i < |r| ==> r[i] in bs && r[i].id !in ids
    ensures forall i :: 0 <= i < |bs| && bs[i].id !in ids ==> bs[i] in r
  {
    Filter(bs, (b: BlobMeta) => b.id !in ids)
  }

  /** `fs.chunks` once the chunks of the given blobs are deleted (`delete_many({'files_id': id})`). */
  function KeepChunks(cs: seq<Chunk>, ids: set<ObjectId>): (r: seq<Chunk>)
    ensures forall i :: 0 <= i < |r| ==> r[i] in cs && r[i].filesId !in ids
    ensures forall i :: 0 <= i < |cs| && cs[i].filesId !in ids ==> cs[i] in r
  {
    Filter(cs, (c: Chunk) => c.filesId !in ids)
  }

  /** The ids of the given tasks. */
  function IdsOf(ts: seq<Task>): set<ObjectId>
  {
    set i | 0 <= i < |ts| :: ts[i].id
  }

  /** The blobs the given tasks reference (a null or missing `result_file_id` is falsy). */
  function BlobRefs(ts: seq<Task>): set<ObjectId>
  {
    set i | 0 <= i < |ts| && ts[i].resultFileId.BlobRef? :: ts[i].resultFileId.blob
  }

  lemma KeepTasksTwice(ts: seq<Task>, a: set<ObjectId>, b: set<ObjectId>)
    ensures KeepTasks(KeepTasks(ts, a), b) == KeepTasks(ts, a + b)
  {
    FilterFilter(ts, (t: Task) => t.id !in a, (t: Task) => t.id !in b, (t: Task) => t.id !in a + b);
  }

  lemma KeepBlobsTwice(bs: seq<BlobMeta>, a: set<ObjectId>, b: set<ObjectId>)
    ensures KeepBlobs(KeepBlobs(bs, a), b) == KeepBlobs(bs, a + b)
  {
    FilterFilter(bs, (x: BlobMeta) => x.id !in a, (x: BlobMeta) => x.id !in b, (x: BlobMeta) => x.id !in a + b);
  }

  lemma KeepChunksTwice(cs: seq<Chunk>, a: set<ObjectId>, b: set<ObjectId>)
    ensures KeepChunks(KeepChunks(cs, a), b) == KeepChunks(cs, a + b)
  {
    FilterFilter(cs, (c: Chunk) => c.filesId !in a, (c: Chunk) => c.filesId !in b, (c: Chunk) => c.filesId !in a + b);
  }

  function TaskId(t: Task): ObjectId { t.id }

  function BlobId(b: BlobMeta): ObjectId { b.id }

  /** No two documents of `s` share a key; with `TaskId` and `BlobId` this is `UniqueTaskIds` and
      `UniqueBlobIds`. */
  ghost predicate UniqueKeys<T>(s: seq<T>, key: T -> ObjectId)
  {
    forall i, j :: 0 <= i < j < |s| ==> key(s[i]) != key(s[j])
  }

  /** A filter keeps keys unique: what a deletion leaves of a collection still has unique ids. */
  lemma {:induction false} FilterKeepsUniqueKeys<T>(s: seq<T>, key: T -> ObjectId, p: T -> bool)
    requires UniqueKeys(s, key)
    ensures UniqueKeys(Filter(s, p), key)
  {
    if s != [] {
      var rest := s[1..];
      assert UniqueKeys(rest, key) by {
        forall i, j | 0 <= i < j < |rest| ensures key(rest[i]) != key(rest[j]) {
          assert rest[i] == s[i + 1] && rest[j] == s[j + 1];
        }
      }
      FilterKeepsUniqueKeys(rest, key, p);
      var fr := Filter(rest, p);
      forall k | 0 <= k < |fr| ensures key(fr[k]) != key(s[0]) {
        var m :| 0 <= m < |rest| && rest[m] == fr[k];
        assert rest[m] == s[m + 1];
      }
    }
  }

  /** `tasks_collection.delete_one({'_id': id})`. */
  function DeleteOneTask(ts: seq<Task>, id: ObjectId): (r: seq<Task>)
    ensures (exists i :: 0 <= i < |ts| && ts[i].id == id) ==> |r| == |ts| - 1
    ensures (forall i :: 0 <= i < |ts| ==> ts[i].id != id) ==> r == ts
    ensures forall i :: 0 <= i < |r| ==> r[i] in ts
    ensures forall i :: 0 <= i < |ts| && ts[i].id != id ==> ts[i] in r
  {
    RemoveFirst(ts, (t: Task) => t.id == id)
  }

  /** `fs_files.delete_one({'_id': id})`. */
  function DeleteOneBlob(bs: seq<BlobMeta>, id: ObjectId): (r: seq<BlobMeta>)
    ensures (exists i :: 0 <= i < |bs| && bs[i].id == id) ==> |r| == |bs| - 1
    ensures (forall i :: 0 <= i < |bs| ==> bs[i].id != id) ==> r == bs
    ensures forall i :: 0 <= i < |r| ==> r[i] in bs
    ensures forall i :: 0 <= i < |bs| && bs[i].id != id ==> bs[i] in r
  {
    RemoveFirst(bs, (b: BlobMeta) => b.id == id)
  }

  /** With unique ids, `delete_one` by id removes every document with that id. */
  lemma DeleteOneTaskByUniqueId(ts: seq<Task>, id: ObjectId)
    requires UniqueTaskIds(ts)
    ensures DeleteOneTask(ts, id) == KeepTasks(ts, {id})
  {
    var ids := {id};
    RemoveFirstIsFilter(ts, (t: Task) => t.id == id, (t: Task) => t.id !in ids);
  }

  lemma DeleteOneBlobByUniqueId(bs: seq<BlobMeta>, id: ObjectId)
    requires UniqueBlobIds(bs)
    ensures DeleteOneBlob(bs, id) == KeepBlobs(bs, {id})
  {
    var ids := {id};
    RemoveFirstIsFilter(bs, (b: BlobMeta) => b.id == id, (b: BlobMeta) => b.id !in ids);
  }

  /** Each task removed is counted once: the count is how many tasks the collection lost. */
  lemma DeletedCountIsShrinkage(ts: seq<Task>, named: set<ObjectId>)
    ensures |MatchedTasks(ts, named)| == |ts| - |KeepTasks(ts, named)|
  {
    FilterComplementSize(ts, (t: Task) => t.id in named, (t: Task) => t.id !in named);
  }

  /** Repeating a batch delete finds nothing left to delete. */
  lemma {:induction false} SecondDeleteMatchesNothing(ts: seq<Task>, named: set<ObjectId>)
    ensures MatchedTasks(KeepTasks(ts, named), named) == []
  {
    var kept := KeepTasks(ts, named);
    assert forall i :: 0 <= i < |kept| ==> kept[i].id !in named;
    FilterNone(kept, (t: Task) => t.id in named);
  }

  /** The storage the statistics report falls by exactly the lengths of the removed blobs. */
  lemma StorageAfterDelete(bs: seq<BlobMeta>, refs: set<ObjectId>)
    ensures TotalLength(bs)
         == TotalLength(KeepBlobs(bs, refs)) + TotalLength(Filter(bs, (b: BlobMeta) => b.id in refs))
  {
    TotalLengthSplit(bs, (b: BlobMeta) => b.id !in refs, (b: BlobMeta) => b.id in refs);
  }

  /** Every blob reference of a task resolves to blob metadata. */
  ghost predicate RefsResolve(ts: seq<Task>, bs: seq<BlobMeta>)
  {
    forall i :: 0 <= i < |ts| && ts[i].resultFileId.BlobRef? ==>
      exists k :: 0 <= k < |bs| && bs[k].id == ts[i].resultFileId.blob
  }

  /** No blob is referenced by two different tasks (each blob belongs to one task). */
  ghost predicate BlobsOwnedOnce(ts: seq<Task>)
  {
    forall i, j ::
      (0 <= i < |ts| && 0 <= j < |ts| && ts[i].resultFileId.BlobRef? && ts[j].resultFileId.BlobRef?
       && ts[i].resultFileId.blob == ts[j].resultFileId.blob) ==> ts[i].id == ts[j].id
  }

  /** Deleting tasks together with their blobs never leaves a surviving task without its blob. */
  lemma DeletePreservesRefs(ts: seq<Task>, bs: seq<BlobMeta>, named: set<ObjectId>)
    requires RefsResolve(ts, bs) && BlobsOwnedOnce(ts)
    ensures RefsResolve(KeepTasks(ts, named), KeepBlobs(bs, BlobRefs(MatchedTasks(ts, named))))
  {
    var gone := MatchedTasks(ts, named);
    var kept := KeepTasks(ts, named);
    var keptBlobs := KeepBlobs(bs, BlobRefs(gone));
    forall i | 0 <= i < |kept| && kept[i].resultFileId.BlobRef?
      ensures exists k :: 0 <= k < |keptBlobs| && keptBlobs[k].id == kept[i].resultFileId.blob
    {
      var t := kept[i];
      var b := t.resultFileId.blob;
      var m :| 0 <= m < |ts| && ts[m] == t;
      var k :| 0 <= k < |bs| && bs[k].id == b;
      assert bs[k] in keptBlobs;
      var k' :| 0 <= k' < |keptBlobs| && keptBlobs[k'] == bs[k];
    }
  }

  // ---------------------------------------------------------------------------
  // The store

  class TaskLedger {
    var tasks: seq<Task>
    var blobs: seq<BlobMeta>
    var chunks: seq<Chunk>

    /** `_id` is unique in each collection. */
    ghost predicate Valid()
      reads this
    {
      UniqueTaskIds(tasks) && UniqueBlobIds(blobs)
    }

    constructor (ts: seq<Task>, bs: seq<BlobMeta>, cs: seq<Chunk>)
      requires UniqueTaskIds(ts) && UniqueBlobIds(bs)
      ensures Valid() && tasks == ts && blobs == bs && chunks == cs
    {
      tasks, blobs, chunks := ts, bs, cs;
    }

    /** GET /admin/api/compression-stats */
    function CompressionStats(authorized: bool): (r: Reply<Stats>)
      reads this
      ensures r.Err? <==> !authorized
      ensures r.Err? ==> r.failure == Unauthorized
      ensures r.Ok? ==> r.value == StatsOf(tasks, blobs)
    {
      if !authorized then Err(Unauthorized) else Ok(StatsOf(tasks, blobs))
    }

    /** GET /admin/api/active-tasks at time `now`: the newest 20 tasks of the last ten minutes. */
    function ActiveTasks(authorized: bool, now: int): (r: Reply<seq<Task>>)
      reads this
      ensures r.Err? <==> !authorized
      ensures r.Err? ==> r.failure == Unauthorized
      ensures r.Ok? ==> |r.value| == Min(ACTIVE_LIMIT, |RecentTasks(tasks, now)|)
      ensures r.Ok? ==> NewestFirst(r.value)
      ensures r.Ok? ==> forall i :: 0 <= i < |r.value| ==> r.value[i] in tasks && IsRecent(r.value[i], now)
      ensures r.Ok? ==> multiset(r.value) <= multiset(RecentTasks(tasks, now))
      ensures r.Ok? ==> forall t :: t in multiset(RecentTasks(tasks, now)) - multiset(r.value) ==>
                          forall i :: 0 <= i < |r.value| ==> t.createdAt <= r.value[i].createdAt
    {
      if !authorized then Err(Unauthorized)
      else
        var recent := RecentTasks(tasks, now);
        var sorted := SortNewestFirst(recent);
        var k := Min(ACTIVE_LIMIT, |sorted|);
        NewestPrefix(sorted, k);
        PermutationKeepsMembers(sorted, recent);
        Ok(sorted[..k])
    }

    /** The `for task in tasks` loop over the cursor: one entry per task in cursor order, or
        `None` at the first task whose entry raises. */
    method EntriesOf(cursor: seq<Task>) returns (files: Option<seq<FileEntry>>)
      ensures files.Some? <==> AllPresentable(cursor)
      ensures files.Some? ==> |files.value| == |cursor|
      ensures files.Some? ==> forall i :: 0 <= i < |cursor| ==> EntryOf(cursor[i], blobs) == Some(files.value[i])
    {
      var done: seq<FileEntry> := [];
      var i := 0;
      while i < |cursor|
        invariant 0 <= i <= |cursor|
        invariant |done| == i
        invariant forall j :: 0 <= j < i ==> EntryOf(cursor[j], blobs) == Some(done[j])
      {
        var e := EntryOf(cursor[i], blobs);
        if e.None? {
          return None;
        }
        done := done + [e.value];
        i := i + 1;
      }
      return Some(done);
    }

    /** GET /admin/api/all-files?page=..&limit=.. */
    method AllFiles(authorized: bool, pageArg: IntArg, limitArg: IntArg) returns (r: Reply<FilesPage>)
      ensures !authorized ==> r == Err(Unauthorized)
      ensures authorized && (pageArg.NotAnInt? || limitArg.NotAnInt?) ==> r == Err(Internal(NotAnInteger))
      ensures authorized && !pageArg.NotAnInt? && !limitArg.NotAnInt? ==>
        var page, limit := ArgOr(pageArg, DEFAULT_PAGE), ArgOr(limitArg, DEFAULT_LIMIT);
        var skip := (page - 1) * limit;
        var shown := Cursor(tasks, if skip < 0 then 0 else skip, limit);
        && (skip < 0 ==> r == Err(Internal(NegativeSkip)))
        && (skip >= 0 && !Encodable(skip, limit) ==> r == Err(Internal(NotAnInt64)))
        && (skip >= 0 && Encodable(skip, limit) && !AllPresentable(shown) ==> r == Err(Internal(ParamsNotMapping)))
        && (skip >= 0 && Encodable(skip, limit) && AllPresentable(shown) && limit == 0 ==>
              r == Err(Internal(DivisionByZero)))
        && (skip >= 0 && Encodable(skip, limit) && AllPresentable(shown) && limit != 0 ==>
              && r.Ok?
              && r.value.page == page && r.value.limit == limit
              && r.value.total == Count(tasks, IsCompletedCompress)
              && r.value.totalPages == TotalPages(r.value.total, limit)
              && |r.value.files| == |shown|
              && (forall i :: 0 <= i < |shown| ==> EntryOf(shown[i], blobs) == Some(r.value.files[i]))
              && (forall i, j :: 0 <= i < j < |r.value.files| ==>
                    r.value.files[i].createdAt >= r.value.files[j].createdAt))
    {
      if !authorized {
        return Err(Unauthorized);
      }
      if pageArg.NotAnInt? || limitArg.NotAnInt? {
        return Err(Internal(NotAnInteger));
      }
      var page := ArgOr(pageArg, DEFAULT_PAGE);
      var limit := ArgOr(limitArg, DEFAULT_LIMIT);
      var skip := (page - 1) * limit;
      var total := Count(tasks, IsCompletedCompress);
      if skip < 0 {
        return Err(Internal(NegativeSkip));
      }
      if !Encodable(skip, limit) {
        return Err(Internal(NotAnInt64));
      }
      var cursor := Cursor(tasks, skip, limit);
      var files := EntriesOf(cursor);
      if files.None? {
        return Err(Internal(ParamsNotMapping));
      }
      if limit == 0 {
        return Err(Internal(DivisionByZero));
      }
      CursorNewestFirst(tasks, skip, limit);
      r := Ok(FilesPage(files.value, total, page, limit, TotalPages(total, limit)));
    }

    /** One turn of the batch delete: a task's result blob (metadata, then every chunk of it)
        when it names one, then its own record. */
    method DeleteTaskAndBlob(task: Task)
      modifies this
      ensures tasks == DeleteOneTask(old(tasks), task.id)
      ensures blobs == if task.resultFileId.BlobRef? then DeleteOneBlob(old(blobs), task.resultFileId.blob) else old(blobs)
      ensures chunks == if task.resultFileId.BlobRef? then KeepChunks(old(chunks), {task.resultFileId.blob}) else old(chunks)
    {
      if task.resultFileId.BlobRef? {
        var blob := task.resultFileId.blob;
        blobs := DeleteOneBlob(blobs, blob);
        chunks := KeepChunks(chunks, {blob});
      }
      tasks := DeleteOneTask(tasks, task.id);
    }

    /** The loop of the batch delete: for each matched task, its result blob (metadata, then
        chunks) when it has one, then its task record; answers how many tasks it went through. */
    method DeleteEach(matched: seq<Task>) returns (deleted: nat)
      requires Valid()
      modifies this
      ensures Valid()
      ensures deleted == |matched|
      ensures tasks == KeepTasks(old(tasks), IdsOf(matched))
      ensures blobs == KeepBlobs(old(blobs), BlobRefs(matched))
      ensures chunks == KeepChunks(old(chunks), BlobRefs(matched))
    {
      ghost var tasks0, blobs0, chunks0 := tasks, blobs, chunks;
      assert matched[..0] == [];
      assert IdsOf(matched[..0]) == {} && BlobRefs(matched[..0]) == {};
      KeepNothing(tasks, blobs, chunks);
      deleted := 0;
      var i := 0;
      while i < |matched|
        invariant 0 <= i <= |matched| && deleted == i
        invariant tasks == KeepTasks(tasks0, IdsOf(matched[..i]))
        invariant blobs == KeepBlobs(blobs0, BlobRefs(matched[..i]))
        invariant chunks == KeepChunks(chunks0, BlobRefs(matched[..i]))
        invariant Valid()
      {
        var task := matched[i];
        ghost var done, next := matched[..i], matched[..i + 1];
        assert next == done + [task];
        DeleteStepBlobs(blobs0, chunks0, done, task);
        DeleteStepTasks(tasks0, done, task);
        DeleteTaskAndBlob(task);
        deleted := deleted + 1;
        i := i + 1;
      }
      assert matched[..i] == matched;
    }

    /** POST /admin/api/batch-delete */
    method BatchDelete(authorized: bool, body: DeleteBody) returns (r: Reply<nat>)
      requires Valid()
      modifies this
      ensures Valid()
      ensures r.Err? ==> tasks == old(tasks) && blobs == old(blobs) && chunks == old(chunks)
      ensures !authorized ==> r == Err(Unauthorized)
      ensures authorized && body.NotJsonObject? ==> r == Err(Internal(NoJsonBody))
      ensures authorized && body.Body? && body.taskIds.GetOr([]) == [] ==> r == Err(BadRequest(NO_TASK_IDS))
      ensures authorized && body.Body? && body.taskIds.GetOr([]) != [] ==>
        var parsed := ParseIds(body.taskIds.value);
        && (parsed.Err? ==> r == Err(parsed.failure))
        && (parsed.Ok? ==>
              var named := set i | 0 <= i < |parsed.value| :: parsed.value[i];
              var gone := MatchedTasks(old(tasks), named);
              && r == Ok(|gone|)
              && tasks == KeepTasks(old(tasks), named)
              && blobs == KeepBlobs(old(blobs), BlobRefs(gone))
              && chunks == KeepChunks(old(chunks), BlobRefs(gone)))
      ensures r.Ok? ==> r.value == |old(tasks)| - |tasks|
    {
      if !authorized {
        return Err(Unauthorized);
      }
      if body.NotJsonObject? {
        return Err(Internal(NoJsonBody));
      }
      var texts := body.taskIds.GetOr([]);
      if texts == [] {
        return Err(BadRequest(NO_TASK_IDS));
      }
      var parsed := ParseIds(texts);
      if parsed.Err? {
        return Err(parsed.failure);
      }
      var ids := parsed.value;
      var named := set i | 0 <= i < |ids| :: ids[i];
      // the cursor of `find({'_id': {'$in': ids}})`: each stored task named, once, in collection order
      var matched := MatchedTasks(tasks, named);
      ghost var tasks0 := tasks;
      var deleted := DeleteEach(matched);
      KeepMatchedIsKeepNamed(tasks0, named);
      DeletedCountIsShrinkage(tasks0, named);
      r := Ok(deleted);
    }
  }

  /** The figures of the compression statistics over the stored tasks and blobs. */
  function StatsOf(ts: seq<Task>, bs: seq<BlobMeta>): (s: Stats)
    ensures s.totalTasks == |ts|
    ensures s.completedTasks == Count(ts, IsCompleted)
    ensures s.failedTasks == Count(ts, IsFailed)
    ensures s.completedTasks + s.failedTasks <= s.totalTasks
    ensures s.storageUsedBytes == TotalLength(bs)
    ensures bs == [] ==> s.storageUsedBytes == 0
    ensures 0.0 <= s.successRate <= 100.0
    ensures s.totalTasks == 0 ==> s.successRate == 0.0
    ensures s.totalTasks > 0 ==> s.successRate * (s.totalTasks as real) == 100.0 * (s.completedTasks as real)
  {
    var total := |ts|;
    var completed := Count(ts, IsCompleted);
    var failed := Count(ts, IsFailed);
    CompletedAndFailedAreDisjoint(ts);
    Stats(total, completed, failed, SuccessRate(completed, total), TotalLength(bs))
  }

  /** No task is both completed and failed, so the two counts together never exceed the total. */
  lemma CompletedAndFailedAreDisjoint(ts: seq<Task>)
    ensures Count(ts, IsCompleted) + Count(ts, IsFailed) <= |ts|
  {
    var notCompleted := (t: Task) => !IsCompleted(t);
    FilterComplementSize(ts, IsCompleted, notCompleted);
    FilterFilter(ts, notCompleted, IsFailed, IsFailed);
  }

  /** Deleting no ids keeps every document. */
  lemma KeepNothing(ts: seq<Task>, bs: seq<BlobMeta>, cs: seq<Chunk>)
    ensures KeepTasks(ts, {}) == ts && KeepBlobs(bs, {}) == bs && KeepChunks(cs, {}) == cs
  {
    var ids: set<ObjectId> := {};
    assert KeepTasks(ts, {}) == KeepTasks(ts, ids);
    FilterAll(ts, (t: Task) => t.id !in ids);
    FilterAll(bs, (b: BlobMeta) => b.id !in ids);
    FilterAll(cs, (c: Chunk) => c.filesId !in ids);
  }

  /** One turn of the deletion loop on the `tasks` collection: deleting the next matched task
      from what the earlier turns left is deleting it together with them. */
  lemma DeleteStepTasks(ts0: seq<Task>, done: seq<Task>, task: Task)
    requires UniqueTaskIds(ts0)
    ensures UniqueTaskIds(KeepTasks(ts0, IdsOf(done)))
    ensures DeleteOneTask(KeepTasks(ts0, IdsOf(done)), task.id) == KeepTasks(ts0, IdsOf(done + [task]))
    ensures UniqueTaskIds(KeepTasks(ts0, IdsOf(done + [task])))
  {
    var before := IdsOf(done);
    var after := IdsOf(done + [task]);
    assert after == before + {task.id} by {
      assert forall i :: 0 <= i < |done| ==> (done + [task])[i] == done[i];
      assert (done + [task])[|done|] == task;
    }
    assert UniqueKeys(ts0, TaskId);
    FilterKeepsUniqueKeys(ts0, TaskId, (t: Task) => t.id !in before);
    FilterKeepsUniqueKeys(ts0, TaskId, (t: Task) => t.id !in after);
    DeleteOneTaskByUniqueId(KeepTasks(ts0, before), task.id);
    KeepTasksTwice(ts0, before, {task.id});
  }

  /** One turn of the deletion loop on `fs.files` and `fs.chunks`. */
  lemma DeleteStepBlobs(bs0: seq<BlobMeta>, cs0: seq<Chunk>, done: seq<Task>, task: Task)
    requires UniqueBlobIds(bs0)
    ensures UniqueBlobIds(KeepBlobs(bs0, BlobRefs(done)))
    ensures task.resultFileId.BlobRef? ==>
      && DeleteOneBlob(KeepBlobs(bs0, BlobRefs(done)), task.resultFileId.blob) == KeepBlobs(bs0, BlobRefs(done + [task]))
      && KeepChunks(KeepChunks(cs0, BlobRefs(done)), {task.resultFileId.blob}) == KeepChunks(cs0, BlobRefs(done + [task]))
    ensures !task.resultFileId.BlobRef? ==> BlobRefs(done + [task]) == BlobRefs(done)
    ensures UniqueBlobIds(KeepBlobs(bs0, BlobRefs(done + [task])))
  {
    var before := BlobRefs(done);
    var after := BlobRefs(done + [task]);
    assert UniqueKeys(bs0, BlobId);
    FilterKeepsUniqueKeys(bs0, BlobId, (b: BlobMeta) => b.id !in before);
    FilterKeepsUniqueKeys(bs0, BlobId, (b: BlobMeta) => b.id !in after);
    assert forall i :: 0 <= i < |done| ==> (done + [task])[i] == done[i];
    assert (done + [task])[|done|] == task;
    if task.resultFileId.BlobRef? {
      var blob := task.resultFileId.blob;
      assert BlobRefs(done + [task]) == before + {blob};
      DeleteOneBlobByUniqueId(KeepBlobs(bs0, before), blob);
      KeepBlobsTwice(bs0, before, {blob});
      KeepChunksTwice(cs0, before, {blob});
    } else {
      assert BlobRefs(done + [task]) == before;
    }
  }

  /** After the loop: removing the ids of the matched tasks is removing the named ids. */
  lemma KeepMatchedIsKeepNamed(ts: seq<Task>, named: set<ObjectId>)
    ensures KeepTasks(ts, IdsOf(MatchedTasks(ts, named))) == KeepTasks(ts, named)
  {
    var matched := MatchedTasks(ts, named);
    var ids := IdsOf(matched);
    forall i | 0 <= i < |ts| ensures (ts[i].id !in ids) == (ts[i].id !in named) {
      if ts[i].id in named {
        assert ts[i] in matched;
        var k :| 0 <= k < |matched| && matched[k] == ts[i];
      }
    }
    FilterCongruent(ts, (t: Task) => t.id !in ids, (t: Task) => t.id !in named);
  }

  /** `completed / total * 100` for a non-empty ledger (before rounding). */
  function SuccessRate(completed: nat, total: nat): (rate: real)
    requires completed <= total
    ensures 0.0 <= rate <= 100.0
    ensures total == 0 ==> rate == 0.0
    ensures total > 0 ==> rate * (total as real) == 100.0 * (completed as real)
  {
    if total == 0 then 0.0 else
    var q := (completed as real) / (total as real);
    assert q * (total as real) == completed as real;
    var slack := 1.0 - q;
    assert slack * (total as real) == (total - completed) as real;
    assert slack >= 0.0;
    q * 100.0
  }

  /** A prefix of a newest-first sequence holds its newest tasks. */
  lemma NewestPrefix(s: seq<Task>, k: nat)
    requires NewestFirst(s) && k <= |s|
    ensures NewestFirst(s[..k])
    ensures multiset(s[..k]) <= multiset(s)
    ensures forall t :: t in multiset(s) - multiset(s[..k]) ==>
              forall i :: 0 <= i < k ==> t.createdAt <= s[i].createdAt
  {
    assert s == s[..k] + s[k..];
    assert multiset(s) == multiset(s[..k]) + multiset(s[k..]);
    forall t | t in multiset(s) - multiset(s[..k])
      ensures forall i :: 0 <= i < k ==> t.createdAt <= s[i].createdAt
    {
      assert t in multiset(s[k..]);
      var j :| 0 <= j < |s[k..]| && s[k..][j] == t;
      assert s[k + j] == t;
    }
  }
}
