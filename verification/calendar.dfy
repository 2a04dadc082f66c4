/** The holiday calendar: the year/month query and the merging upsert of holiday records. */
module Calendar {
  import opened Common

  const MISSING_YEAR_MONTH := "缺少年份或月份參數"
  const INVALID_BODY := "無效的請求資料"
  const SAVED := "資料已成功儲存"
  const NO_CHANGE := "資料無變動"
  const ID_FIELD := "_id"

  /** The attributes of one holiday record (everything but its `_id`). */
  type Record = map<string, Value>

  /** The holidays collection, keyed by `_id`. */
  type Records = map<Value, Record>

  // ---------------------------------------------------------------------------
  // The query prefix

  predicate IsSign(c: char) { c == '+' || c == '-' }

  function Zeros(n: nat): (z: string)
    ensures |z| == n && forall i :: 0 <= i < n ==> z[i] == '0'
  {
    if n == 0 then [] else ['0'] + Zeros(n - 1)
  }

  /** Python's `s.zfill(width)`: pad with '0' on the left to `width`, after a leading sign. */
  function ZFill(s: string, width: nat): (r: string)
    ensures |r| == if |s| >= width then |s| else width
  {
    if |s| >= width then s
    else if |s| > 0 && IsSign(s[0]) then [s[0]] + Zeros(width - |s|) + s[1..]
    else Zeros(width - |s|) + s
  }

  /** The literal prefix the query's `^{year}{month.zfill(2)}` pattern anchors. */
  function MonthPrefix(year: string, month: string): (p: string)
    ensures |p| == |year| + (if |month| >= 2 then |month| else 2) && StartsWith(p, year)
    ensures IsDigits(month) ==> IsDigits(p[|year|..]) && ParseDecimal(p[|year|..]) == ParseDecimal(month)
  {
    var p := year + ZFill(month, 2);
    assert p[|year|..] == ZFill(month, 2);
    if IsDigits(month) then ZFillKeepsValue(month, 2); p else p
  }

  predicate StartsWith(s: string, p: string) { |p| <= |s| && s[..|p|] == p }

  /** An `_id` the anchored pattern matches: only string ids can match. */
  predicate Matches(id: Value, prefix: string) { id.Str? && StartsWith(id.s, prefix) }

  lemma {:induction false} ParseDecimalLeadingZero(s: string)
    requires IsDigits(s)
    ensures IsDigits(['0'] + s) && ParseDecimal(['0'] + s) == ParseDecimal(s)
  {
    var t := ['0'] + s;
    if s != [] {
      assert t[..|t| - 1] == ['0'] + s[..|s| - 1];
      ParseDecimalLeadingZero(s[..|s| - 1]);
    }
  }

  /** Leading zeros do not change the value of a digit string. */
  lemma {:induction false} ParseDecimalZeros(k: nat, s: string)
    requires IsDigits(s)
    ensures IsDigits(Zeros(k) + s) && ParseDecimal(Zeros(k) + s) == ParseDecimal(s)
  {
    if k == 0 {
      assert Zeros(k) + s == s;
    } else {
      ParseDecimalZeros(k - 1, s);
      assert Zeros(k) + s == ['0'] + (Zeros(k - 1) + s);
      ParseDecimalLeadingZero(Zeros(k - 1) + s);
    }
  }

  /** zfill keeps the value of a digit string: "3", "03" and "003" all mean month 3. */
  lemma ZFillKeepsValue(s: string, width: nat)
    requires IsDigits(s)
    ensures IsDigits(ZFill(s, width)) && ParseDecimal(ZFill(s, width)) == ParseDecimal(s)
  {
    if |s| < width {
      if s != [] {
        assert !IsSign(s[0]);
      }
      ParseDecimalZeros(width - |s|, s);
    }
  }

  /** The value of a two-digit string. */
  lemma TwoDigits(z: string)
    requires |z| == 2 && IsDigits(z)
    ensures ParseDecimal(z) == 10 * DigitValue(z[0]) + DigitValue(z[1])
  {
    var head := z[..1];
    assert head == [z[0]] && head[..0] == [];
    assert ParseDecimal(head) == DigitValue(z[0]);
  }

  /** Two spellings of the same month of at most two digits select the same records. */
  lemma MonthSpellings(year: string, m1: string, m2: string)
    requires IsDigits(m1) && IsDigits(m2) && 1 <= |m1| <= 2 && 1 <= |m2| <= 2
    requires ParseDecimal(m1) == ParseDecimal(m2)
    ensures MonthPrefix(year, m1) == MonthPrefix(year, m2)
  {
    var z1, z2 := ZFill(m1, 2), ZFill(m2, 2);
    ZFillKeepsValue(m1, 2);
    ZFillKeepsValue(m2, 2);
    TwoDigits(z1);
    TwoDigits(z2);
    var a1, b1, a2, b2 := DigitValue(z1[0]), DigitValue(z1[1]), DigitValue(z2[0]), DigitValue(z2[1]);
    assert 10 * a1 + b1 == 10 * a2 + b2;
    assert a1 == a2 && b1 == b2;
    assert z1[0] == z2[0] && z1[1] == z2[1];
    assert z1 == z2;
  }

  /** On a canonical `YYYYMMDD` id, the query matches exactly the ids of that year and month. */
  lemma DateIdMatches(year: string, month: string, date: string)
    requires |year| == 4 && |month| <= 2 && |date| == 8
    ensures Matches(Str(date), MonthPrefix(year, month))
        <==> date[..4] == year && date[4..6] == ZFill(month, 2)
  {
    var p := MonthPrefix(year, month);
    assert |p| == 6;
    if date[..4] == year && date[4..6] == ZFill(month, 2) {
      assert date[..6] == date[..4] + date[4..6];
    }
    if Matches(Str(date), p) {
      assert date[..4] == date[..6][..4] && p[..4] == year;
      assert date[4..6] == date[..6][4..6] && p[4..6] == ZFill(month, 2);
    }
  }

  // ---------------------------------------------------------------------------
  // The upsert

  /** How the handler's first test, `if not data or '_id' not in data`, ends for a body:
      None when the body is a JSON object with an `_id`, else the failure it is answered with.
      `'_id' in data` is a substring test on a string and a membership test on an array; there
      the test passes when `_id` occurs, and `data['_id']` then raises. On a number or `true` the
      test itself raises. */
  function Rejection(body: RequestBody): (f: Option<Failure>)
    ensures f.None? <==> body.Parsed? && body.json.JObject? && ID_FIELD in body.json.fields
    ensures body.Unreadable? ==> f == Some(Internal(UnreadableBody))
    ensures body.Parsed? && !JsonTruthy(body.json) ==> f == Some(BadRequest(INVALID_BODY))
    ensures body.Parsed? && body.json.JObject? && ID_FIELD !in body.json.fields ==> f == Some(BadRequest(INVALID_BODY))
    ensures body.Parsed? && body.json.JText? && body.json.s != [] ==>
      f == Some(if Contains(body.json.s, ID_FIELD) then Internal(NotSubscriptable) else BadRequest(INVALID_BODY))
    ensures body.Parsed? && body.json.JArray? && body.json.items != [] ==>
      f == Some(if Str(ID_FIELD) in body.json.items then Internal(NotSubscriptable) else BadRequest(INVALID_BODY))
    ensures body.Parsed? && JsonTruthy(body.json) && (body.json.JNumber? || body.json.JBool?) ==>
      f == Some(Internal(NotAContainer))
  {
    match body
    case Unreadable => Some(Internal(UnreadableBody))
    case Parsed(j) =>
      if !JsonTruthy(j) then Some(BadRequest(INVALID_BODY))
      else
        match j
        case JObject(fields) => if ID_FIELD in fields then None else Some(BadRequest(INVALID_BODY))
        case JText(text) => Some(if Contains(text, ID_FIELD) then Internal(NotSubscriptable) else BadRequest(INVALID_BODY))
        case JArray(items) => Some(if Str(ID_FIELD) in items then Internal(NotSubscriptable) else BadRequest(INVALID_BODY))
        case _ => Some(Internal(NotAContainer))
  }

  /** The `$set` document: every field of the body except `_id`. */
  function FieldsOf(body: Record): (fields: Record)
    ensures ID_FIELD !in fields
    ensures forall k :: k in fields <==> k in body && k != ID_FIELD
    ensures forall k :: k in fields ==> fields[k] == body[k]
  {
    map k | k in body && k != ID_FIELD :: body[k]
  }

  /** `update_one({_id: id}, {$set: fields}, upsert=True)` on the collection. */
  function Merge(records: Records, id: Value, fields: Record): (r: Records)
    ensures id in r && r[id].Keys == (if id in records then records[id].Keys else {}) + fields.Keys
    ensures forall k :: k in fields ==> r[id][k] == fields[k]
    ensures id in records ==> forall k :: k in records[id] && k !in fields ==> r[id][k] == records[id][k]
    ensures forall other :: other != id ==> (other in r <==> other in records)
    ensures forall other :: other != id && other in records ==> r[other] == records[other]
  {
    records[id := (if id in records then records[id] else map[]) + fields]
  }

  /** The update creates the record or changes (or adds) one of its fields. */
  predicate Changes(records: Records, id: Value, fields: Record)
  {
    id !in records || exists k :: k in fields && (k !in records[id] || records[id][k] != fields[k])
  }

  /** The reply reports "saved" exactly when the collection is different afterwards. */
  lemma ChangesIffStoreDiffers(records: Records, id: Value, fields: Record)
    ensures Changes(records, id, fields) <==> Merge(records, id, fields) != records
  {
    var r := Merge(records, id, fields);
    if !Changes(records, id, fields) {
      var old_ := records[id];
      assert r[id] == old_ by {
        assert r[id].Keys == old_.Keys;
        forall k | k in old_ ensures r[id][k] == old_[k] {
          if k in fields {
            assert old_[k] == fields[k];
          }
        }
      }
      assert r.Keys == records.Keys;
      assert r == records;
    } else if id in records {
      var k :| k in fields && (k !in records[id] || records[id][k] != fields[k]);
      assert r[id] != records[id] by {
        if k !in records[id] {
          assert k in r[id];
        } else {
          assert r[id][k] == fields[k];
        }
      }
    } else {
      assert id in r;
    }
  }

  /** Resubmitting identical data leaves the store as it is and reports no change. */
  lemma ResubmitIsNoChange(records: Records, id: Value, fields: Record)
    ensures Merge(Merge(records, id, fields), id, fields) == Merge(records, id, fields)
    ensures !Changes(Merge(records, id, fields), id, fields)
  {
    var once := Merge(records, id, fields);
    ChangesIffStoreDiffers(once, id, fields);
    assert Merge(once, id, fields)[id] == once[id];
    assert Merge(once, id, fields) == once;
  }

  /** The reply of the upsert, read as `created or modified_count > 0`. */
  function UpsertReply(records: Records, id: Value, fields: Record): (message: string)
    ensures message == SAVED <==> Merge(records, id, fields) != records
    ensures message == NO_CHANGE <==> Merge(records, id, fields) == records
  {
    ChangesIffStoreDiffers(records, id, fields);
    if Changes(records, id, fields) then SAVED else NO_CHANGE
  }

  /** The reply exactly as backend/main.py:125 computes it: `result.upserted_id` is tested for
      truthiness, so a record created under a falsy `_id` ("" or 0 or false or null) is not seen. */
  function UpsertReplyAsWritten(records: Records, id: Value, fields: Record): (message: string)
    ensures message == SAVED <==> (id !in records && Truthy(id)) || (id in records && Merge(records, id, fields) != records)
    ensures message != SAVED ==> message == NO_CHANGE
  {
    ChangesIffStoreDiffers(records, id, fields);
    var upserted := id !in records;
    var modified := id in records && Changes(records, id, fields);
    if (upserted && Truthy(id)) || modified then SAVED else NO_CHANGE
  }

  /** The as-written reply differs from the intended one exactly on creation under a falsy id. */
  lemma AsWrittenMissesFalsyCreation(records: Records, id: Value, fields: Record)
    ensures UpsertReplyAsWritten(records, id, fields) != UpsertReply(records, id, fields)
        <==> id !in records && !Truthy(id)
  {
  }

  /** Counterexample: `{"_id": "", "name": "x"}` on an empty calendar creates a record
      and is answered "no change". */
  lemma EmptyIdCreationReportsNoChange()
    ensures var fields := map["name" := Str("x")];
      && Merge(map[], Str(""), fields) != map[]
      && UpsertReplyAsWritten(map[], Str(""), fields) == NO_CHANGE
  {
    var fields := map["name" := Str("x")];
    assert Str("") in Merge(map[], Str(""), fields);
  }

  // ---------------------------------------------------------------------------
  // The collection

  class HolidayCalendar {
    var records: Records

    constructor (initial: Records)
      ensures records == initial
    {
      records := initial;
    }

    /** GET /get_holidays?year=..&month=.. */
    function Query(year: Option<string>, month: Option<string>): (r: Reply<Records>)
      reads this
      ensures r.Err? <==> year.None? || year.value == [] || month.None? || month.value == []
      ensures r.Err? ==> r.failure == BadRequest(MISSING_YEAR_MONTH)
      ensures r.Ok? ==> forall id :: id in r.value
                          <==> id in records && Matches(id, MonthPrefix(year.value, month.value))
      ensures r.Ok? ==> forall id :: id in r.value ==> r.value[id] == records[id]
    {
      if year.None? || year.value == [] || month.None? || month.value == [] then
        Err(BadRequest(MISSING_YEAR_MONTH))
      else
        var prefix := MonthPrefix(year.value, month.value);
        Ok(map id | id in records && Matches(id, prefix) :: records[id])
    }

    /** POST /update_holiday */
    method Update(body: RequestBody) returns (r: Reply<string>)
      modifies this
      ensures Rejection(body).Some? ==> r == Err(Rejection(body).value) && records == old(records)
      ensures Rejection(body).None? ==>
        var id, fields := body.json.fields[ID_FIELD], FieldsOf(body.json.fields);
        && records == Merge(old(records), id, fields)
        && r == Ok(UpsertReply(old(records), id, fields))
    {
      var rejection := Rejection(body);
      if rejection.Some? {
        return Err(rejection.value);
      }
      var data := body.json.fields;
      var id := data[ID_FIELD];
      var fields := FieldsOf(data);
      var message := UpsertReply(records, id, fields);
      records := Merge(records, id, fields);
      r := Ok(message);
    }
  }
}
