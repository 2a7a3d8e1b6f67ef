/** `Storage` of src/storage.py: a handle on a database file whose `posts`
    table is created if absent, written by insert-or-ignore batches and read by
    the two queries. */
module Store {
  import opened Records
  import opened Table
  import opened Queries

  /** The database file. The `posts` table may not exist yet; once it does, its
      primary key keeps ids unique. */
  class Database {
    var hasPosts: bool
    var posts: seq<Row>

    ghost predicate Valid()
      reads this
    {
      UniqueIds(posts) && (!hasPosts ==> posts == [])
    }

    /** A fresh file without tables. */
    constructor ()
      ensures Valid() && !hasPosts && posts == []
    {
      hasPosts := false;
      posts := [];
    }
  }

  class Storage {
    const db: Database

    ghost predicate Valid()
      reads this, db
    {
      db.Valid() && db.hasPosts
    }

    /** Opens the file and makes sure the schema exists; rows already there are kept. */
    constructor (db: Database)
      requires db.Valid()
      modifies db
      ensures this.db == db && Valid()
      ensures db.posts == old(db.posts)
    {
      this.db := db;
      new;
      InitDb();
    }

    /** `_init_db`: `CREATE TABLE IF NOT EXISTS posts`. An existing table keeps its
        rows; a new one starts empty. Running it again changes nothing. */
    method InitDb()
      requires db.Valid()
      modifies db
      ensures Valid()
      ensures db.posts == old(db.posts)
      ensures old(db.hasPosts) ==> unchanged(db)
    {
      if !db.hasPosts {
        db.hasPosts := true;
        db.posts := [];
      }
    }

    /** `save`: every record is flattened and inserted unless its id is taken,
        in batch order. */
    method Save(records: seq<Record>)
      requires Valid()
      requires forall i :: 0 <= i < |records| ==> WellFormed(records[i])
      modifies db
      ensures Valid()
      ensures db.posts == InsertAll(old(db.posts), Flatten(records))
    {
      ghost var batch := Flatten(records);
      ghost var before := db.posts;
      var i := 0;
      while i < |records|
        invariant 0 <= i <= |records|
        invariant db.hasPosts
        invariant db.posts == InsertAll(before, batch[..i])
        invariant UniqueIds(db.posts)
      {
        var row := ToRow(records[i]);
        ghost var next := batch[..i + 1];
        assert next[..i] == batch[..i] && next[i] == row;
        assert InsertAll(before, next) == InsertOrIgnore(db.posts, row);
        InsertAllUnique(before, next);
        if row.id !in Ids(db.posts) {
          db.posts := db.posts + [row];
        }
        i := i + 1;
      }
      assert batch[..|records|] == batch;
    }

    /** `get_daily_counts(days)` at time `now`; reads only. */
    method GetDailyCounts(now: int, days: nat := 7) returns (counts: seq<DayCount>)
      requires Valid()
      ensures counts == DailyCounts(db.posts, now, days)
    {
      counts := DailyCounts(db.posts, now, days);
    }

    /** `get_top_posts(label, n)`; reads only. */
    method GetTopPosts(wanted: string, n: int := 5) returns (top: seq<TopPost>)
      requires Valid()
      ensures top == TopPosts(db.posts, wanted, n)
    {
      top := TopPosts(db.posts, wanted, n);
    }
  }

  /** Two handles on one file see the same rows: a second `Storage` keeps what the
      first saved, and saving through it obeys first-write-wins. */
  method ReopenKeepsRows(db: Database, first: seq<Record>, second: seq<Record>)
    requires db.Valid()
    requires forall i :: 0 <= i < |first| ==> WellFormed(first[i])
    requires forall i :: 0 <= i < |second| ==> WellFormed(second[i])
    modifies db
    ensures db.posts == InsertAll(InsertAll(old(db.posts), Flatten(first)), Flatten(second))
  {
    var a := new Storage(db);
    a.Save(first);
    var b := new Storage(db);
    b.Save(second);
  }
}
