/** The `Posts` table as a sequence of rows in insertion order, with the
    schema's constraints: `id` is the primary key and every insert says
    `ON CONFLICT DO NOTHING`, so a row whose id is already stored is dropped
    and the stored row is never overwritten. */
module PostTable {
  import opened Classifier

  // ---------------------------------------------------------------------------
  // Column limits of the schema

  const MAX_ID_LENGTH := 7        // id VARCHAR(7)
  const MAX_TITLE_LENGTH := 200   // title VARCHAR(200)
  const INTEGER_MIN := -0x8000_0000
  const INTEGER_MAX := 0x7fff_ffff  // amount INTEGER

  /** A row the database accepts; any other row makes the insert raise. */
  predicate RowFits(r: PostRecord) {
    |r.id| <= MAX_ID_LENGTH && |r.title| <= MAX_TITLE_LENGTH && INTEGER_MIN <= r.amount <= INTEGER_MAX
  }

  predicate AllFit(rows: seq<PostRecord>) {
    forall i :: 0 <= i < |rows| ==> RowFits(rows[i])
  }

  // ---------------------------------------------------------------------------
  // Keys

  function Ids(rows: seq<PostRecord>): set<string> {
    set i | 0 <= i < |rows| :: rows[i].id
  }

  predicate UniqueIds(rows: seq<PostRecord>) {
    forall i, j :: 0 <= i < j < |rows| ==> rows[i].id != rows[j].id
  }

  lemma {:induction false} IdsAppend(rows: seq<PostRecord>, r: PostRecord)
    ensures Ids(rows + [r]) == Ids(rows) + {r.id}
  {
    var s := rows + [r];
    forall x | x in Ids(s) ensures x in Ids(rows) + {r.id} {
      var i :| 0 <= i < |s| && s[i].id == x;
      if i < |rows| { assert rows[i].id == x; }
    }
    forall x | x in Ids(rows) + {r.id} ensures x in Ids(s) {
      if x == r.id {
        assert s[|rows|].id == x;
      } else {
        var i :| 0 <= i < |rows| && rows[i].id == x;
        assert s[i].id == x;
      }
    }
  }

  /** Without duplicate keys, there are as many keys as rows. */
  lemma {:induction false} UniqueIdsCount(rows: seq<PostRecord>)
    requires UniqueIds(rows)
    ensures |Ids(rows)| == |rows|
    decreases |rows|
  {
    if |rows| > 0 {
      var init := rows[..|rows| - 1];
      var last := rows[|rows| - 1];
      assert rows == init + [last];
      UniqueIdsCount(init);
      IdsAppend(init, last);
      assert last.id !in Ids(init);
    }
  }

  // ---------------------------------------------------------------------------
  // Inserting

  /** `INSERT ... ON CONFLICT DO NOTHING` of one row. */
  function Insert(rows: seq<PostRecord>, r: PostRecord): seq<PostRecord> {
    if r.id in Ids(rows) then rows else rows + [r]
  }

  /** `executemany` of the same statement: the rows are inserted one after
      another, so of two batch rows with the same id the first one is kept. */
  function InsertAll(rows: seq<PostRecord>, batch: seq<PostRecord>): seq<PostRecord>
    decreases |batch|
  {
    if |batch| == 0 then rows else InsertAll(Insert(rows, batch[0]), batch[1..])
  }

  lemma {:induction false} InsertKeepsUnique(rows: seq<PostRecord>, r: PostRecord)
    requires UniqueIds(rows)
    ensures UniqueIds(Insert(rows, r))
    ensures Ids(Insert(rows, r)) == Ids(rows) + {r.id}
  {
    if r.id !in Ids(rows) {
      IdsAppend(rows, r);
      var s := rows + [r];
      forall i, j | 0 <= i < j < |s| ensures s[i].id != s[j].id {
        if j == |rows| {
          assert rows[i].id in Ids(rows);
        }
      }
    }
  }

  /** Inserting a batch keeps the key unique and stores exactly the old keys
      plus the batch's keys. */
  lemma {:induction false} InsertAllProperties(rows: seq<PostRecord>, batch: seq<PostRecord>)
    requires UniqueIds(rows)
    ensures UniqueIds(InsertAll(rows, batch))
    ensures Ids(InsertAll(rows, batch)) == Ids(rows) + Ids(batch)
    decreases |batch|
  {
    if |batch| > 0 {
      var next := Insert(rows, batch[0]);
      InsertKeepsUnique(rows, batch[0]);
      InsertAllProperties(next, batch[1..]);
      assert batch == [batch[0]] + batch[1..];
      IdsAppend([batch[0]], batch[0]);
      assert Ids(batch) == {batch[0].id} + Ids(batch[1..]) by {
        forall x | x in Ids(batch) ensures x in {batch[0].id} + Ids(batch[1..]) {
          var i :| 0 <= i < |batch| && batch[i].id == x;
          if i > 0 { assert batch[1..][i - 1].id == x; }
        }
        forall x | x in Ids(batch[1..]) ensures x in Ids(batch) {
          var i :| 0 <= i < |batch[1..]| && batch[1..][i].id == x;
          assert batch[i + 1].id == x;
        }
      }
    }
  }

  /** The table grows by one row per new key and by nothing else. */
  lemma {:induction false} InsertAllSize(rows: seq<PostRecord>, batch: seq<PostRecord>)
    requires UniqueIds(rows)
    ensures |InsertAll(rows, batch)| == |rows| + |Ids(batch) - Ids(rows)|
  {
    InsertAllProperties(rows, batch);
    UniqueIdsCount(rows);
    UniqueIdsCount(InsertAll(rows, batch));
    assert Ids(rows) + Ids(batch) == Ids(rows) + (Ids(batch) - Ids(rows));
  }

  /** Inserting a list is inserting its rows one at a time, in order. */
  lemma {:induction false} InsertAllConcat(rows: seq<PostRecord>, b1: seq<PostRecord>, b2: seq<PostRecord>)
    ensures InsertAll(rows, b1 + b2) == InsertAll(InsertAll(rows, b1), b2)
    decreases |b1|
  {
    if |b1| > 0 {
      assert (b1 + b2)[0] == b1[0];
      assert (b1 + b2)[1..] == b1[1..] + b2;
      InsertAllConcat(Insert(rows, b1[0]), b1[1..], b2);
    } else {
      assert b1 + b2 == b2;
    }
  }

  /** A row whose key is already stored changes nothing. */
  lemma {:induction false} InsertAllStoredKeys(rows: seq<PostRecord>, batch: seq<PostRecord>)
    requires forall i :: 0 <= i < |batch| ==> batch[i].id in Ids(rows)
    ensures InsertAll(rows, batch) == rows
    decreases |batch|
  {
    if |batch| > 0 {
      InsertAllStoredKeys(rows, batch[1..]);
    }
  }

  /** Inserting the same list twice stores what inserting it once stores. */
  lemma {:induction false} InsertAllIdempotent(rows: seq<PostRecord>, batch: seq<PostRecord>)
    requires UniqueIds(rows)
    ensures InsertAll(InsertAll(rows, batch), batch) == InsertAll(rows, batch)
  {
    InsertAllProperties(rows, batch);
    var once := InsertAll(rows, batch);
    forall i | 0 <= i < |batch| ensures batch[i].id in Ids(once) {
      assert batch[i].id in Ids(batch);
    }
    InsertAllStoredKeys(once, batch);
  }

  /** The earliest batch row with a new key is the one stored. */
  lemma {:induction false} InsertAllFirstWins(rows: seq<PostRecord>, batch: seq<PostRecord>, k: nat)
    requires k < |batch| && batch[k].id !in Ids(rows)
    requires forall j :: 0 <= j < k ==> batch[j].id != batch[k].id
    ensures batch[k] in InsertAll(rows, batch)
    decreases |batch|
  {
    var next := Insert(rows, batch[0]);
    if k == 0 {
      assert next == rows + [batch[0]];
      InsertAllKeepsPrefix(next, batch[1..]);
      assert InsertAll(rows, batch)[|rows|] == batch[0];
    } else {
      assert batch[k].id !in Ids(next) by {
        if batch[k].id in Ids(next) {
          if next != rows {
            IdsAppend(rows, batch[0]);
          }
        }
      }
      InsertAllFirstWins(next, batch[1..], k - 1);
    }
  }

  /** Every stored row was stored before or comes from the batch. */
  lemma {:induction false} InsertAllFrom(rows: seq<PostRecord>, batch: seq<PostRecord>)
    ensures forall r :: r in InsertAll(rows, batch) ==> r in rows || r in batch
    decreases |batch|
  {
    if |batch| > 0 {
      InsertAllFrom(Insert(rows, batch[0]), batch[1..]);
    }
  }

  /** The column limits hold after inserting rows that each respect them. */
  lemma {:induction false} InsertAllFits(rows: seq<PostRecord>, batch: seq<PostRecord>)
    requires AllFit(rows) && AllFit(batch)
    ensures AllFit(InsertAll(rows, batch))
  {
    InsertAllFrom(rows, batch);
    var out := InsertAll(rows, batch);
    forall i | 0 <= i < |out| ensures RowFits(out[i]) {
      assert out[i] in out;
    }
  }

  /** Stored rows are never overwritten or moved. */
  lemma {:induction false} InsertAllKeepsPrefix(rows: seq<PostRecord>, batch: seq<PostRecord>)
    ensures |rows| <= |InsertAll(rows, batch)| && InsertAll(rows, batch)[..|rows|] == rows
    decreases |batch|
  {
    if |batch| > 0 {
      var next := Insert(rows, batch[0]);
      InsertAllKeepsPrefix(next, batch[1..]);
      assert next[..|rows|] == rows;
    }
  }

  // ---------------------------------------------------------------------------
  // Selecting

  const SECONDS_PER_DAY := 86400

  /** The calendar day of a timestamp, counted in days since the epoch. */
  function DayOf(timestamp: int): int {
    timestamp / SECONDS_PER_DAY
  }

  /** The `WHERE` clauses the queries use. */
  datatype Filter =
    | ByCurrency(currency: Currency)
    | ByStatus(status: Status)
    | OnDay(day: int)
    | OnDayWithStatus(day: int, status: Status)
    | After(instant: int)

  predicate Keeps(f: Filter, r: PostRecord) {
    match f
    case ByCurrency(c) => r.currency == c
    case ByStatus(s) => r.status == s
    case OnDay(d) => DayOf(r.timestamp) == d
    case OnDayWithStatus(d, s) => DayOf(r.timestamp) == d && r.status == s
    case After(t) => r.timestamp > t
  }

  /** `SELECT * FROM Posts WHERE <f>`: exactly the stored rows the clause keeps. */
  function Select(rows: seq<PostRecord>, f: Filter): (out: seq<PostRecord>)
    ensures forall r :: r in out <==> r in rows && Keeps(f, r)
    ensures |out| <= |rows|
    decreases |rows|
  {
    if |rows| == 0 then []
    else if Keeps(f, rows[0]) then [rows[0]] + Select(rows[1..], f)
    else Select(rows[1..], f)
  }

  lemma {:induction false} IdsCons(r: PostRecord, rows: seq<PostRecord>)
    ensures Ids([r] + rows) == {r.id} + Ids(rows)
  {
    var s := [r] + rows;
    forall x | x in Ids(s) ensures x in {r.id} + Ids(rows) {
      var i :| 0 <= i < |s| && s[i].id == x;
      if i > 0 {
        assert s[i] == rows[i - 1];
      }
    }
    forall x | x in Ids(rows) ensures x in Ids(s) {
      var i :| 0 <= i < |rows| && rows[i].id == x;
      assert s[i + 1] == rows[i];
    }
    assert s[0] == r;
  }

  /** A query on a table with unique ids gives rows with unique ids, all stored ones. */
  lemma {:induction false} SelectKeepsUnique(rows: seq<PostRecord>, f: Filter)
    requires UniqueIds(rows)
    ensures UniqueIds(Select(rows, f)) && Ids(Select(rows, f)) <= Ids(rows)
    decreases |rows|
  {
    if |rows| > 0 {
      var tail := rows[1..];
      var rest := Select(tail, f);
      assert UniqueIds(tail) by {
        forall i, j | 0 <= i < j < |tail| ensures tail[i].id != tail[j].id {
          assert tail[i] == rows[i + 1] && tail[j] == rows[j + 1];
        }
      }
      SelectKeepsUnique(tail, f);
      assert rows == [rows[0]] + tail;
      IdsCons(rows[0], tail);
      forall j | 0 <= j < |tail| ensures tail[j].id != rows[0].id {
        assert tail[j] == rows[j + 1];
      }
      if Keeps(f, rows[0]) {
        var out := [rows[0]] + rest;
        IdsCons(rows[0], rest);
        forall i, j | 0 <= i < j < |out| ensures out[i].id != out[j].id {
          assert out[j] == rest[j - 1];
          if i == 0 {
            assert rest[j - 1].id in Ids(rest);
          } else {
            assert out[i] == rest[i - 1];
          }
        }
      }
    }
  }

  /** A query keeps the stored order: on a table stored as `a` then `b`, the
      rows from `a` come out first. */
  lemma {:induction false} SelectConcat(a: seq<PostRecord>, b: seq<PostRecord>, f: Filter)
    ensures Select(a + b, f) == Select(a, f) + Select(b, f)
    decreases |a|
  {
    if |a| > 0 {
      assert (a + b)[0] == a[0];
      assert (a + b)[1..] == a[1..] + b;
      SelectConcat(a[1..], b, f);
    } else {
      assert a + b == b;
    }
  }

  /** Querying the result of a wider query with a narrower clause gives the
      narrower query's rows, in the same order. */
  lemma {:induction false} SelectNarrower(rows: seq<PostRecord>, f: Filter, g: Filter)
    requires forall r :: Keeps(f, r) ==> Keeps(g, r)
    ensures Select(Select(rows, g), f) == Select(rows, f)
    decreases |rows|
  {
    if |rows| > 0 {
      SelectNarrower(rows[1..], f, g);
      if Keeps(g, rows[0]) {
        var rest := Select(rows[1..], g);
        assert ([rows[0]] + rest)[0] == rows[0];
        assert ([rows[0]] + rest)[1..] == rest;
      }
    }
  }

  /** The distinct rows of a sequence. */
  function Rows(rows: seq<PostRecord>): set<PostRecord> {
    set r | r in rows
  }

  /** Rows with distinct keys are distinct rows, so a table with a primary key
      holds as many different rows as it has rows. */
  lemma {:induction false} UniqueRowsCount(rows: seq<PostRecord>)
    requires UniqueIds(rows)
    ensures |Rows(rows)| == |rows|
    decreases |rows|
  {
    if |rows| > 0 {
      var init := rows[..|rows| - 1];
      var last := rows[|rows| - 1];
      assert rows == init + [last];
      assert UniqueIds(init);
      UniqueRowsCount(init);
      assert Rows(rows) == Rows(init) + {last};
      forall i | 0 <= i < |init| ensures init[i].id != last.id {
        assert init[i] == rows[i];
      }
    }
  }

  /** On a table with a primary key, a `count(*)` query counts every stored
      row its clause keeps exactly once. */
  lemma {:induction false} SelectCount(rows: seq<PostRecord>, f: Filter)
    requires UniqueIds(rows)
    ensures |Select(rows, f)| == |set r | r in rows && Keeps(f, r)|
  {
    var out := Select(rows, f);
    SelectKeepsUnique(rows, f);
    UniqueRowsCount(out);
    assert Rows(out) == set r | r in rows && Keeps(f, r);
  }

  /** Clamps a day offset into [0, MAX_DAYS_BACK], as `min(max(days, 0), 90)`. */
  const MAX_DAYS_BACK := 90

  function Clamp(days: int): (r: int)
    ensures 0 <= r <= MAX_DAYS_BACK
    ensures 0 <= days <= MAX_DAYS_BACK ==> r == days
    ensures days < 0 ==> r == 0
    ensures days > MAX_DAYS_BACK ==> r == MAX_DAYS_BACK
  {
    if days < 0 then 0 else if days > MAX_DAYS_BACK then MAX_DAYS_BACK else days
  }
}
