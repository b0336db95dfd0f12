/** The backend's access to the `Posts` table. The connection (credentials,
    connect-and-retry loop, cursor) is replaced by the table contents; the
    date the database reports as `CURRENT_DATE` is passed in as `today`, a day
    number on the same scale as `DayOf`. An insert that breaks a column limit
    raises and commits nothing: the methods report it as `ok == false`. */
module Db {
  import opened Classifier
  import opened PostTable

  class Database {
    var posts: seq<PostRecord>

    /** What the primary key and the column types guarantee. */
    ghost predicate Valid()
      reads this
    {
      UniqueIds(posts) && AllFit(posts)
    }

    /** Connecting finds whatever the table already holds. */
    constructor (stored: seq<PostRecord>)
      requires UniqueIds(stored) && AllFit(stored)
      ensures Valid() && posts == stored
    {
      posts := stored;
    }

    /** Drops and recreates the table: every stored row is gone. */
    method CreateTables()
      modifies this`posts
      ensures Valid() && posts == []
    {
      posts := [];
    }

    method InsertPost(p: Post) returns (ok: bool)
      requires Valid()
      modifies this`posts
      ensures Valid()
      ensures ok <==> RowFits(p.Record())
      ensures posts == if ok then Insert(old(posts), p.Record()) else old(posts)
    {
      var row := p.Record();
      if !RowFits(row) {
        return false;
      }
      InsertKeepsUnique(posts, row);
      posts := Insert(posts, row);
      ok := true;
    }

    /** Builds the row tuples in list order, then inserts them with one
        `executemany`; one row that breaks a limit aborts the whole batch. */
    method InsertPostList(pList: seq<Post>) returns (ok: bool)
      requires Valid()
      modifies this`posts
      ensures Valid()
      ensures ok <==> AllFit(Records(pList))
      ensures posts == if ok then InsertAll(old(posts), Records(pList)) else old(posts)
    {
      var l: seq<PostRecord> := [];
      var i := 0;
      while i < |pList|
        invariant 0 <= i <= |pList|
        invariant l == Records(pList[..i])
      {
        assert pList[..i + 1][..i] == pList[..i];
        l := l + [pList[i].Record()];
        i := i + 1;
      }
      assert pList[..i] == pList;
      if !AllFit(l) {
        return false;
      }
      InsertAllProperties(posts, l);
      InsertAllFits(posts, l);
      posts := InsertAll(posts, l);
      ok := true;
    }

    method GetAllPosts() returns (rows: seq<PostRecord>)
      ensures |rows| == |posts|
      ensures forall r :: r in rows <==> r in posts
    {
      rows := posts;
    }

    method GetPostsByCurrency(currency: Currency) returns (rows: seq<PostRecord>)
      requires Valid()
      ensures forall r :: r in rows <==> r in posts && r.currency == currency
      ensures UniqueIds(rows)
    {
      rows := Select(posts, ByCurrency(currency));
      SelectKeepsUnique(posts, ByCurrency(currency));
    }

    method GetPostsByStatus(status: Status) returns (rows: seq<PostRecord>)
      requires Valid()
      ensures forall r :: r in rows <==> r in posts && r.status == status
      ensures UniqueIds(rows)
    {
      rows := Select(posts, ByStatus(status));
      SelectKeepsUnique(posts, ByStatus(status));
    }

    /** The posts of one calendar day, `days` days before today, with `days`
        clamped into [0, 90]. */
    method GetPostsByTimestamp(days: int, today: int) returns (rows: seq<PostRecord>)
      requires Valid()
      ensures forall r :: r in rows <==> r in posts && DayOf(r.timestamp) == today - Clamp(days)
      ensures UniqueIds(rows)
    {
      var d := if days < 0 then 0 else days;
      d := if d > MAX_DAYS_BACK then MAX_DAYS_BACK else d;
      rows := Select(posts, OnDay(today - d));
      SelectKeepsUnique(posts, OnDay(today - d));
    }

    /** The number of requests posted on the day `day` days before today; the
        offset is not clamped. */
    method LoansRequestedOnDate(day: int, today: int) returns (count: nat)
      requires Valid()
      ensures count == |set r | r in posts && DayOf(r.timestamp) == today - day && r.status == REQ|
      ensures count <= |posts|
    {
      count := |Select(posts, OnDayWithStatus(today - day, REQ))|;
      SelectCount(posts, OnDayWithStatus(today - day, REQ));
      assert (set r | r in posts && Keeps(OnDayWithStatus(today - day, REQ), r))
          == (set r | r in posts && DayOf(r.timestamp) == today - day && r.status == REQ);
    }

    /** Like `GetPostsByTimestamp`, restricted to one status; only REQ and
        PAID are served, any other status gives no rows. */
    method GetPostsByStatusAndTimestamp(days: int, status: Status, today: int) returns (rows: seq<PostRecord>)
      requires Valid()
      ensures status == REQ || status == PAID ==>
        forall r :: r in rows <==> r in posts && DayOf(r.timestamp) == today - Clamp(days) && r.status == status
      ensures status != REQ && status != PAID ==> rows == []
      ensures UniqueIds(rows)
    {
      var d := if days < 0 then 0 else days;
      d := if d > MAX_DAYS_BACK then MAX_DAYS_BACK else d;
      if status == REQ {
        rows := Select(posts, OnDayWithStatus(today - d, REQ));
        SelectKeepsUnique(posts, OnDayWithStatus(today - d, REQ));
      } else if status == PAID {
        rows := Select(posts, OnDayWithStatus(today - d, PAID));
        SelectKeepsUnique(posts, OnDayWithStatus(today - d, PAID));
      } else {
        return [];
      }
    }
  }
}
