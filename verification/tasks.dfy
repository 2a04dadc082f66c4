/** Task records, blob metadata and chunks of the compressor database, with the orderings,
    id parsing and paging arithmetic the admin endpoints apply to them. */
module Tasks {
  import opened Common

  // ---------------------------------------------------------------------------
  // Task status

  const WAITING := "等待中"
  const PROCESSING := "處理中"
  const COMPLETED := "完成"
  const FAILED := "失敗"

  /** The `status` field of a task; `Other` is any string the producer may have stored. */
  datatype Status = Waiting | Processing | Completed | Failed | Other(text: string)

  /** The literal the store holds for each status. */
  function Label(s: Status): string
  {
    match s
    case Waiting => WAITING
    case Processing => PROCESSING
    case Completed => COMPLETED
    case Failed => FAILED
    case Other(l) => l
  }

  /** A status value as it is read back from the store: `Other` only for the other strings. */
  predicate Canonical(s: Status)
  {
    s.Other? ==> s.text !in {WAITING, PROCESSING, COMPLETED, FAILED}
  }

  function ParseStatus(literal: string): (s: Status)
    ensures Canonical(s) && Label(s) == literal
  {
    if literal == WAITING then Waiting
    else if literal == PROCESSING then Processing
    else if literal == COMPLETED then Completed
    else if literal == FAILED then Failed
    else Other(literal)
  }

  /** Reading back the stored literal of a status gives the status. */
  lemma ParseLabel(s: Status)
    requires Canonical(s)
    ensures ParseStatus(Label(s)) == s
  {
  }

  /** The store compares the stored literal, so a query on a status matches every task whose
      literal is that status's, whichever constructor holds it. */
  predicate HasStatus(s: Status, literal: string) { Label(s) == literal }

  /** One of the four statuses the active-tasks query asks for with `$in`. */
  predicate Tracked(s: Status) { Label(s) in {WAITING, PROCESSING, COMPLETED, FAILED} }

  /** On statuses as they are read back, a literal match is a match of the status itself. */
  lemma CanonicalMatch(s: Status)
    requires Canonical(s)
    ensures HasStatus(s, WAITING) <==> s == Waiting
    ensures HasStatus(s, PROCESSING) <==> s == Processing
    ensures HasStatus(s, COMPLETED) <==> s == Completed
    ensures HasStatus(s, FAILED) <==> s == Failed
    ensures Tracked(s) <==> !s.Other?
  {
  }

  // ---------------------------------------------------------------------------
  // ObjectIds

  /** An ObjectId, written as hex text. `str(oid)` gives 24 lower-case hex digits (`IsCanonicalId`);
      the type itself does not require that form. */
  type ObjectId = string

  predicate IsHexDigit(c: char) { '0' <= c <= '9' || 'a' <= c <= 'f' || 'A' <= c <= 'F' }

  predicate IsLowerHexDigit(c: char) { '0' <= c <= '9' || 'a' <= c <= 'f' }

  /** A string `ObjectId(s)` accepts: 24 hex digits of either case. */
  predicate IsObjectIdText(s: string)
  {
    |s| == 24 && forall i :: 0 <= i < |s| ==> IsHexDigit(s[i])
  }

  predicate IsCanonicalId(s: string)
  {
    |s| == 24 && forall i :: 0 <= i < |s| ==> IsLowerHexDigit(s[i])
  }

  function Lower(c: char): char
  {
    if 'A' <= c <= 'F' then (c as int + 32) as char else c
  }

  function LowerAll(s: string): (r: string)
    ensures |r| == |s| && forall i :: 0 <= i < |s| ==> r[i] == Lower(s[i])
  {
    if s == [] then [] else [Lower(s[0])] + LowerAll(s[1..])
  }

  /** `ObjectId(s)`: the id of a 24-digit hex string, or nothing (InvalidId) for any other string. */
  function ParseObjectId(s: string): (r: Option<ObjectId>)
    ensures r.Some? <==> IsObjectIdText(s)
    ensures r.Some? ==> IsCanonicalId(r.value)
    ensures r.Some? ==> forall i :: 0 <= i < |s| ==> r.value[i] == Lower(s[i])
  {
    if IsObjectIdText(s) then Some(LowerAll(s)) else None
  }

  /** A canonical id parses to itself: `ObjectId(str(oid)) == oid`. */
  lemma ParseCanonicalId(id: ObjectId)
    requires IsCanonicalId(id)
    ensures ParseObjectId(id) == Some(id)
  {
    assert LowerAll(id) == id;
  }

  /** `[ObjectId(t) for t in texts]`: every id, or the error of the first text that is not one. */
  function ParseIds(texts: seq<string>): (r: Reply<seq<ObjectId>>)
    ensures r.Ok? <==> forall i :: 0 <= i < |texts| ==> IsObjectIdText(texts[i])
    ensures r.Ok? ==> |r.value| == |texts|
    ensures r.Ok? ==> forall i :: 0 <= i < |texts| ==> ParseObjectId(texts[i]) == Some(r.value[i])
    ensures r.Err? ==> exists i :: 0 <= i < |texts| && !IsObjectIdText(texts[i])
                          && r.failure == Internal(InvalidObjectId(texts[i]))
                          && forall j :: 0 <= j < i ==> IsObjectIdText(texts[j])
  {
    if texts == [] then Ok([])
    else
      match ParseObjectId(texts[0])
      case None => Err(Internal(InvalidObjectId(texts[0])))
      case Some(id) =>
        var rest := ParseIds(texts[1..]);
        if rest.Err? then
          assert forall i :: 1 <= i < |texts| ==> texts[i] == texts[1..][i - 1];
          rest
        else Ok([id] + rest.value)
  }

  // ---------------------------------------------------------------------------
  // Documents

  /** A task's `result_file_id`: no such field, a field holding null, or a blob id. */
  datatype FileRef = NoField | NullRef | BlobRef(blob: ObjectId)

  /** A task's `params`: no such field, a mapping of its fields, or a stored value that is not a
      mapping (null, a string, a number, an array) and so has no `.get`. */
  datatype Params = NoParams | ParamsObject(fields: map<string, Value>) | ParamsNotObject

  /** A document of the `tasks` collection. `created_at` is a timestamp in seconds. An optional
      field is `None` when the document lacks it; a stored null is `Some(Null)`. */
  datatype Task = Task(
    id: ObjectId,
    kind: string,
    status: Status,
    createdAt: int,
    params: Params,
    resultFilename: Option<Value>,
    resultFileId: FileRef,
    ipAddress: Option<Value>)

  /** A document of `fs.files`: a stored blob's id and its `length` in bytes. */
  datatype BlobMeta = BlobMeta(id: ObjectId, length: nat)

  /** A document of `fs.chunks`: the blob it belongs to and its sequence number. */
  datatype Chunk = Chunk(filesId: ObjectId, n: nat)

  ghost predicate UniqueTaskIds(ts: seq<Task>)
  {
    forall i, j :: 0 <= i < j < |ts| ==> ts[i].id != ts[j].id
  }

  ghost predicate UniqueBlobIds(bs: seq<BlobMeta>)
  {
    forall i, j :: 0 <= i < j < |bs| ==> bs[i].id != bs[j].id
  }

  /** The `$sum` of `length` over the blob metadata. */
  function TotalLength(bs: seq<BlobMeta>): (n: nat)
    ensures forall i :: 0 <= i < |bs| ==> bs[i].length <= n
    ensures n == 0 <==> forall i :: 0 <= i < |bs| ==> bs[i].length == 0
  {
    if bs == [] then 0 else bs[0].length + TotalLength(bs[1..])
  }

  /** Blob storage splits between the blobs a predicate keeps and those it drops. */
  lemma {:induction false} TotalLengthSplit(bs: seq<BlobMeta>, p: BlobMeta -> bool, q: BlobMeta -> bool)
    requires forall b :: q(b) == !p(b)
    ensures TotalLength(bs) == TotalLength(Filter(bs, p)) + TotalLength(Filter(bs, q))
  {
    if bs != [] {
      TotalLengthSplit(bs[1..], p, q);
      assert Filter(bs, p) == (if p(bs[0]) then [bs[0]] else []) + Filter(bs[1..], p);
      assert Filter(bs, q) == (if q(bs[0]) then [bs[0]] else []) + Filter(bs[1..], q);
      if p(bs[0]) {
        assert Filter(bs, p)[0] == bs[0] && Filter(bs, p)[1..] == Filter(bs[1..], p);
        assert Filter(bs, q) == Filter(bs[1..], q);
      } else {
        assert Filter(bs, q)[0] == bs[0] && Filter(bs, q)[1..] == Filter(bs[1..], q);
        assert Filter(bs, p) == Filter(bs[1..], p);
      }
    }
  }

  /** `fs_files.find_one({'_id': id})`'s `length`, or 0 when no blob has that id. */
  function BlobLength(bs: seq<BlobMeta>, id: ObjectId): (n: nat)
    ensures (forall i :: 0 <= i < |bs| ==> bs[i].id != id) ==> n == 0
    ensures forall i :: (0 <= i < |bs| && bs[i].id == id && forall j :: 0 <= j < i ==> bs[j].id != id)
                          ==> n == bs[i].length
  {
    if bs == [] then 0
    else if bs[0].id == id then bs[0].length
    else
      var n := BlobLength(bs[1..], id);
      assert forall i :: 1 <= i < |bs| ==> bs[i] == bs[1..][i - 1];
      n
  }

  /** The size a listed file shows: a missing or null reference finds no blob. */
  function FileSize(bs: seq<BlobMeta>, ref: FileRef): (n: nat)
    ensures !ref.BlobRef? ==> n == 0
  {
    if ref.BlobRef? then BlobLength(bs, ref.blob) else 0
  }

  // ---------------------------------------------------------------------------
  // Newest-first ordering (`sort('created_at', -1)`)

  ghost predicate NewestFirst(s: seq<Task>)
  {
    forall i, j :: 0 <= i < j < |s| ==> s[i].createdAt >= s[j].createdAt
  }

  /** A task no older than the head of a newest-first sequence can go in front of it. */
  lemma ConsNewestFirst(x: Task, rest: seq<Task>)
    requires NewestFirst(rest)
    requires rest != [] ==> x.createdAt >= rest[0].createdAt
    ensures NewestFirst([x] + rest)
  {
    var r := [x] + rest;
    forall i, j | 0 <= i < j < |r| ensures r[i].createdAt >= r[j].createdAt {
      if i == 0 {
        assert r[j] == rest[j - 1];
      } else {
        assert r[i] == rest[i - 1] && r[j] == rest[j - 1];
      }
    }
  }

  /** Puts `t` in front of the first task that is not newer than it. */
  function InsertNewestFirst(t: Task, s: seq<Task>): (r: seq<Task>)
    requires NewestFirst(s)
    ensures NewestFirst(r)
    ensures multiset(r) == multiset(s) + multiset{t}
    ensures |r| == |s| + 1
    ensures r[0] == t || (s != [] && r[0] == s[0])
  {
    if s == [] || t.createdAt >= s[0].createdAt then
      ConsNewestFirst(t, s);
      [t] + s
    else
      var rest := InsertNewestFirst(t, s[1..]);
      ConsNewestFirst(s[0], rest);
      assert s == [s[0]] + s[1..];
      [s[0]] + rest
  }

  /** Tasks, newest first; tasks created at the same time keep their collection order. */
  function SortNewestFirst(s: seq<Task>): (r: seq<Task>)
    ensures NewestFirst(r)
    ensures multiset(r) == multiset(s)
    ensures |r| == |s|
  {
    if s == [] then []
    else
      assert s == [s[0]] + s[1..];
      InsertNewestFirst(s[0], SortNewestFirst(s[1..]))
  }

  /** Tasks created at the same time are the same task: the creation time tells them apart. */
  ghost predicate TimesIdentify(s: seq<Task>)
  {
    forall x, y :: x in s && y in s && x.createdAt == y.createdAt ==> x == y
  }

  lemma TailNewestFirst(s: seq<Task>)
    requires NewestFirst(s) && s != []
    ensures NewestFirst(s[1..])
  {
    forall i, j | 0 <= i < j < |s| - 1 ensures s[1..][i].createdAt >= s[1..][j].createdAt {
      assert s[1..][i] == s[i + 1] && s[1..][j] == s[j + 1];
    }
  }

  /** Two newest-first orders of the same tasks start with the same task. */
  lemma SameNewest(a: seq<Task>, b: seq<Task>)
    requires NewestFirst(a) && NewestFirst(b) && multiset(a) == multiset(b)
    requires TimesIdentify(a) && a != []
    ensures b != [] && a[0] == b[0]
  {
    assert a[0] in multiset(b);
    var k :| 0 <= k < |b| && b[k] == a[0];
    assert b[0] in multiset(a);
    var m :| 0 <= m < |a| && a[m] == b[0];
    assert a[0].createdAt >= a[m].createdAt && b[0].createdAt >= b[k].createdAt;
  }

  /** When creation times tell tasks apart, a newest-first order of them is unique. */
  lemma {:induction false} NewestFirstUnique(a: seq<Task>, b: seq<Task>)
    requires NewestFirst(a) && NewestFirst(b) && multiset(a) == multiset(b)
    requires TimesIdentify(a)
    ensures a == b
  {
    if a != [] {
      SameNewest(a, b);
      assert a == [a[0]] + a[1..] && b == [b[0]] + b[1..];
      assert multiset(a[1..]) == multiset(a) - multiset{a[0]} == multiset(b[1..]);
      TailNewestFirst(a);
      TailNewestFirst(b);
      assert forall x :: x in a[1..] ==> x in a;
      NewestFirstUnique(a[1..], b[1..]);
    }
  }

  /** Counterexample: for two tasks created at the same time both orders are newest first. A
      run of the query that sorts them one way serves `x` on page 1, a run that sorts them the
      other way serves `x` again on page 2, and `y` is served on neither. */
  lemma TiedOrdersRepeatAPage(x: Task, y: Task)
    requires x != y && x.createdAt == y.createdAt
    ensures NewestFirst([x, y]) && NewestFirst([y, x]) && multiset([x, y]) == multiset([y, x])
    ensures Window([x, y], 0, 1) + Window([y, x], 1, 1) == [x, x]
  {
  }

  /** Strict lexicographic order on strings; on ObjectId texts of one case it is the order of
      the ids' bytes, which is how the store compares `_id`. */
  predicate LexLess(a: string, b: string)
  {
    b != [] && (a == [] || a[0] < b[0] || (a[0] == b[0] && LexLess(a[1..], b[1..])))
  }

  lemma {:induction false} LexAsymmetric(a: string, b: string)
    ensures LexLess(a, b) ==> !LexLess(b, a)
  {
    if a != [] && b != [] && a[0] == b[0] {
      LexAsymmetric(a[1..], b[1..]);
    }
  }

  lemma {:induction false} LexTotal(a: string, b: string)
    ensures a != b ==> LexLess(a, b) || LexLess(b, a)
  {
    if a != [] && b != [] && a[0] == b[0] {
      LexTotal(a[1..], b[1..]);
      assert a == [a[0]] + a[1..] && b == [b[0]] + b[1..];
    }
  }

  lemma {:induction false} LexTransitive(a: string, b: string, c: string)
    ensures LexLess(a, b) && LexLess(b, c) ==> LexLess(a, c)
  {
    if a != [] && b != [] && c != [] && a[0] == b[0] == c[0] {
      LexTransitive(a[1..], b[1..], c[1..]);
    }
  }

  /** `x` comes before `y` under `sort([('created_at', -1), ('_id', 1)])`. */
  predicate Precedes(x: Task, y: Task)
  {
    x.createdAt > y.createdAt || (x.createdAt == y.createdAt && LexLess(x.id, y.id))
  }

  /** No task is placed after one it precedes: sorted by creation time, newest first, then by id. */
  ghost predicate InListingOrder(s: seq<Task>)
  {
    forall i, j :: 0 <= i < j < |s| ==> !Precedes(s[j], s[i])
  }

  lemma PrecedesAsymmetric(x: Task, y: Task)
    ensures Precedes(x, y) ==> !Precedes(y, x)
  {
    LexAsymmetric(x.id, y.id);
  }

  lemma PrecedesTotal(x: Task, y: Task)
    ensures x.id != y.id ==> Precedes(x, y) || Precedes(y, x)
  {
    LexTotal(x.id, y.id);
  }

  /** Not preceding is transitive, so the listing order is a total preorder. */
  lemma NotPrecedesTransitive(x: Task, y: Task, z: Task)
    ensures !Precedes(x, y) && !Precedes(y, z) ==> !Precedes(x, z)
  {
    LexTotal(x.id, y.id);
    LexTransitive(y.id, x.id, z.id);
  }

  lemma InListingOrderIsNewestFirst(s: seq<Task>)
    requires InListingOrder(s)
    ensures NewestFirst(s)
  {
    forall i, j | 0 <= i < j < |s| ensures s[i].createdAt >= s[j].createdAt {
      assert !Precedes(s[j], s[i]);
    }
  }

  /** A task that no task of an ordered sequence precedes, and that is not behind its head, can go in front. */
  lemma ConsInListingOrder(x: Task, rest: seq<Task>)
    requires InListingOrder(rest)
    requires rest != [] ==> !Precedes(rest[0], x)
    ensures InListingOrder([x] + rest)
  {
    var r := [x] + rest;
    forall i, j | 0 <= i < j < |r| ensures !Precedes(r[j], r[i]) {
      if i == 0 {
        assert r[j] == rest[j - 1];
        NotPrecedesTransitive(rest[j - 1], rest[0], x);
      } else {
        assert r[i] == rest[i - 1] && r[j] == rest[j - 1];
      }
    }
  }

  /** Puts `t` in front of the first task that `t` is not behind. */
  function InsertInListingOrder(t: Task, s: seq<Task>): (r: seq<Task>)
    requires InListingOrder(s)
    ensures InListingOrder(r)
    ensures multiset(r) == multiset(s) + multiset{t}
    ensures |r| == |s| + 1
    ensures r[0] == t || (s != [] && r[0] == s[0])
  {
    if s == [] || !Precedes(s[0], t) then
      ConsInListingOrder(t, s);
      [t] + s
    else
      var rest := InsertInListingOrder(t, s[1..]);
      PrecedesAsymmetric(s[0], t);
      ConsInListingOrder(s[0], rest);
      assert s == [s[0]] + s[1..];
      [s[0]] + rest
  }

  /** Tasks sorted by creation time, newest first, then by id; tasks equal in both keep their
      collection order. */
  function SortListingOrder(s: seq<Task>): (r: seq<Task>)
    ensures InListingOrder(r)
    ensures multiset(r) == multiset(s)
    ensures |r| == |s|
  {
    if s == [] then []
    else
      assert s == [s[0]] + s[1..];
      InsertInListingOrder(s[0], SortListingOrder(s[1..]))
  }

  /** Tasks with the same id are the same task. */
  ghost predicate IdsIdentify(s: seq<Task>)
  {
    forall x, y :: x in s && y in s && x.id == y.id ==> x == y
  }

  lemma TailInListingOrder(s: seq<Task>)
    requires InListingOrder(s) && s != []
    ensures InListingOrder(s[1..])
  {
    forall i, j | 0 <= i < j < |s| - 1 ensures !Precedes(s[1..][j], s[1..][i]) {
      assert s[1..][i] == s[i + 1] && s[1..][j] == s[j + 1];
    }
  }

  /** Two orderings of the same tasks with distinct ids start with the same task. */
  lemma SameFirstListed(a: seq<Task>, b: seq<Task>)
    requires InListingOrder(a) && InListingOrder(b) && multiset(a) == multiset(b)
    requires IdsIdentify(a) && a != []
    ensures b != [] && a[0] == b[0]
  {
    assert a[0] in multiset(b);
    var k :| 0 <= k < |b| && b[k] == a[0];
    assert b[0] in multiset(a);
    var m :| 0 <= m < |a| && a[m] == b[0];
    assert k == 0 || !Precedes(a[0], b[0]);
    assert m == 0 || !Precedes(b[0], a[0]);
    PrecedesTotal(a[0], b[0]);
  }

  /** Tasks with distinct ids have exactly one listing order: every run of the query sorted by
      creation time and id returns them in the same sequence. */
  lemma {:induction false} ListingOrderUnique(a: seq<Task>, b: seq<Task>)
    requires InListingOrder(a) && InListingOrder(b) && multiset(a) == multiset(b)
    requires IdsIdentify(a)
    ensures a == b
  {
    if a != [] {
      SameFirstListed(a, b);
      assert a == [a[0]] + a[1..] && b == [b[0]] + b[1..];
      assert multiset(a[1..]) == multiset(a) - multiset{a[0]} == multiset(b[1..]);
      TailInListingOrder(a);
      TailInListingOrder(b);
      assert forall x :: x in a[1..] ==> x in a;
      ListingOrderUnique(a[1..], b[1..]);
    }
  }

  // ---------------------------------------------------------------------------
  // Paging

  function Min(a: int, b: int): int { if a <= b then a else b }

  /** Python's `a // b`: division rounding towards negative infinity. */
  function FloorDiv(a: int, b: int): (q: int)
    requires b != 0
    ensures b > 0 ==> q * b <= a < q * b + b
    ensures b < 0 ==> q * b >= a > q * b + b
  {
    if b > 0 then a / b else (-a) / (-b)
  }

  /** `(total + limit - 1) // limit`. */
  /** `(total + limit - 1) // limit`; for a positive limit, the ceiling of total / limit. */
  function TotalPages(total: nat, limit: int): (p: int)
    requires limit != 0
    ensures limit >= 1 ==> p >= 0 && (p - 1) * limit < total <= p * limit
  {
    var q := FloorDiv(total + limit - 1, limit);
    assert (q - 1) * limit == q * limit - limit;
    q
  }

  /** `.skip(skip).limit(size)` on a sorted cursor: at most `size` documents from position `skip`. */
  function Window<T>(s: seq<T>, skip: nat, size: nat): (r: seq<T>)
    ensures |r| == if skip >= |s| then 0 else Min(size, |s| - skip)
    ensures forall i :: 0 <= i < |r| ==> r[i] == s[skip + i]
  {
    if skip >= |s| then [] else s[skip..Min(skip + size, |s|)]
  }

  /** A window of a newest-first sequence is newest first. */
  lemma WindowNewestFirst(s: seq<Task>, skip: nat, size: nat)
    requires NewestFirst(s)
    ensures NewestFirst(Window(s, skip, size))
  {
    var w := Window(s, skip, size);
    forall a, b | 0 <= a < b < |w| ensures w[a].createdAt >= w[b].createdAt {
      assert w[a] == s[skip + a] && w[b] == s[skip + b];
    }
  }

  /** Pages 1..count of `size` documents each, one after the other. */
  function Pages<T>(s: seq<T>, size: nat, count: nat): seq<T>
  {
    if count == 0 then [] else Pages(s, size, count - 1) + Window(s, (count - 1) * size, size)
  }

  /** One more page of `size` documents from position `skip` extends the prefix read so far. */
  lemma PrefixStep<T>(s: seq<T>, skip: nat, size: nat)
    ensures s[..Min(skip, |s|)] + Window(s, skip, size) == s[..Min(skip + size, |s|)]
  {
    if skip < |s| {
      assert s[..Min(skip + size, |s|)] == s[..skip] + s[skip..Min(skip + size, |s|)];
    }
  }

  /** The first `count` pages are the first `count * size` documents: no gaps, no duplicates. */
  lemma {:induction false} PagesArePrefix<T>(s: seq<T>, size: nat, count: nat)
    ensures Pages(s, size, count) == s[..Min(count * size, |s|)]
  {
    if count > 0 {
      PagesArePrefix(s, size, count - 1);
      var skip := (count - 1) * size;
      assert count * size == skip + size;
      PrefixStep(s, skip, size);
    }
  }

  /** Walking pages 1..total_pages with a positive limit returns every listed document once. */
  lemma AllPagesCoverListing<T>(s: seq<T>, total: nat, limit: int)
    requires limit >= 1 && |s| <= total
    ensures TotalPages(total, limit) >= 0
    ensures Pages(s, limit, TotalPages(total, limit)) == s
  {
    var p := TotalPages(total, limit);
    PagesArePrefix(s, limit, p);
    assert Min(p * limit, |s|) == |s|;
  }

  /** The worked example: 120 listed tasks, page 3 of 50 gives the last 20 and 3 pages in all. */
  lemma PagingExample(s: seq<Task>)
    requires |s| == 120
    ensures |Window(s, 100, 50)| == 20
    ensures TotalPages(120, 50) == 3
  {
  }
}
