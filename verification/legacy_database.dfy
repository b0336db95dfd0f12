/** The older access layer (`src/db_api.py`): the same table and inserts as the
    backend's, connecting once without retrying, and with a single time query
    that only knows the windows of 1, 7 and 30 days ending at the database's
    `NOW()`, passed in as `now` (seconds, on the scale of the timestamps).
    Its row tuple reads `timestamp` and `isActive`, which the older `Post`
    class never sets, so its inserts take the backend's `Post`. */
module LegacyDb {
  import opened Classifier
  import opened PostTable

  /** The windows the query has a prepared statement for. */
  predicate KnownWindow(days: int) {
    days == 1 || days == 7 || days == 30
  }

  class LegacyDatabase {
    var posts: seq<PostRecord>

    ghost predicate Valid()
      reads this
    {
      UniqueIds(posts) && AllFit(posts)
    }

    constructor (stored: seq<PostRecord>)
      requires UniqueIds(stored) && AllFit(stored)
      ensures Valid() && posts == stored
    {
      posts := stored;
    }

    method CreateTables()
      modifies this`posts
      ensures Valid() && posts == []
    {
      posts := [];
    }

    method InsertPost(p: Post) returns (ok: bool)
      requires Valid()
      modifies this`posts
      ensures Valid()
      ensures ok <==> RowFits(p.Record())
      ensures posts == if ok then Insert(old(posts), p.Record()) else old(posts)
    {
      var row := p.Record();
      if !RowFits(row) {
        return false;
      }
      InsertKeepsUnique(posts, row);
      posts := Insert(posts, row);
      ok := true;
    }

    method InsertPostList(pList: seq<Post>) returns (ok: bool)
      requires Valid()
      modifies this`posts
      ensures Valid()
      ensures ok <==> AllFit(Records(pList))
      ensures posts == if ok then InsertAll(old(posts), Records(pList)) else old(posts)
    {
      var l: seq<PostRecord> := [];
      var i := 0;
      while i < |pList|
        invariant 0 <= i <= |pList|
        invariant l == Records(pList[..i])
      {
        assert pList[..i + 1][..i] == pList[..i];
        l := l + [pList[i].Record()];
        i := i + 1;
      }
      assert pList[..i] == pList;
      if !AllFit(l) {
        return false;
      }
      InsertAllProperties(posts, l);
      InsertAllFits(posts, l);
      posts := InsertAll(posts, l);
      ok := true;
    }

    // The three queries below are the same as `Db.Database`'s: both source
    // files carry their own copies.

    method GetAllPosts() returns (rows: seq<PostRecord>)
      ensures |rows| == |posts|
      ensures forall r :: r in rows <==> r in posts
    {
      rows := posts;
    }

    method GetPostsByCurrency(currency: Currency) returns (rows: seq<PostRecord>)
      requires Valid()
      ensures forall r :: r in rows <==> r in posts && r.currency == currency
      ensures UniqueIds(rows)
    {
      rows := Select(posts, ByCurrency(currency));
      SelectKeepsUnique(posts, ByCurrency(currency));
    }

    method GetPostsByStatus(status: Status) returns (rows: seq<PostRecord>)
      requires Valid()
      ensures forall r :: r in rows <==> r in posts && r.status == status
      ensures UniqueIds(rows)
    {
      rows := Select(posts, ByStatus(status));
      SelectKeepsUnique(posts, ByStatus(status));
    }

    /** Posts newer than `days` days before now, for 1, 7 or 30 days; any
        other window gives no rows. */
    method GetPostsByTimestamp(days: int, now: int) returns (rows: seq<PostRecord>)
      requires Valid()
      ensures KnownWindow(days) ==>
        forall r :: r in rows <==> r in posts && r.timestamp > now - days * SECONDS_PER_DAY
      ensures !KnownWindow(days) ==> rows == []
      ensures UniqueIds(rows)
    {
      match days {
        case 1 =>
          rows := Select(posts, After(now - 1 * SECONDS_PER_DAY));
          SelectKeepsUnique(posts, After(now - 1 * SECONDS_PER_DAY));
        case 7 =>
          rows := Select(posts, After(now - 7 * SECONDS_PER_DAY));
          SelectKeepsUnique(posts, After(now - 7 * SECONDS_PER_DAY));
        case 30 =>
          rows := Select(posts, After(now - 30 * SECONDS_PER_DAY));
          SelectKeepsUnique(posts, After(now - 30 * SECONDS_PER_DAY));
        case _ => return [];
      }
    }
  }

  /** The windows nest: the last day's rows are exactly the rows of the last
      week that are under a day old, and the last week's rows are exactly the
      rows of the last month that are under a week old, in stored order. */
  lemma {:induction false} WindowsNest(posts: seq<PostRecord>, now: int)
    ensures Select(Select(posts, After(now - 7 * SECONDS_PER_DAY)), After(now - 1 * SECONDS_PER_DAY))
      == Select(posts, After(now - 1 * SECONDS_PER_DAY))
    ensures Select(Select(posts, After(now - 30 * SECONDS_PER_DAY)), After(now - 7 * SECONDS_PER_DAY))
      == Select(posts, After(now - 7 * SECONDS_PER_DAY))
  {
    SelectNarrower(posts, After(now - 1 * SECONDS_PER_DAY), After(now - 7 * SECONDS_PER_DAY));
    SelectNarrower(posts, After(now - 7 * SECONDS_PER_DAY), After(now - 30 * SECONDS_PER_DAY));
  }
}
