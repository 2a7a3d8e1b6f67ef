/** The `posts` table of src/storage.py as a value: its rows in insertion order,
    how a record is flattened into a row, and the insert-or-ignore batch write. */
module Table {
  import opened Records
  import opened Text

  /** One row of `posts`. The two summary columns exist in the schema but no
      write path fills them. */
  datatype Row = Row(
    id: string,
    title: string,
    body: string,
    comments: string,
    createdUtc: int,
    permalink: string,
    sentiment: real,
    labelName: string,
    textSummary: Option<string>,
    commentSummary: Option<string>)

  /** True iff `v` is a score dictionary with a numeric `compound` entry. */
  predicate HasCompound(v: Value) {
    v.Dict? && "compound" in v.fields && v.fields["compound"].Num?
  }

  /** True iff `save` can flatten `r`: all eight fields it reads are present, with
      values of the kinds it converts. */
  predicate WellFormed(r: Record) {
    && HasStr(r, "id")
    && HasStr(r, "title")
    && HasStr(r, "body")
    && "comments" in r && r["comments"].StrList?
    && "created_utc" in r && r["created_utc"].Num?
    && HasStr(r, "permalink")
    && "sentiment" in r && HasCompound(r["sentiment"])
    && HasStr(r, "label")
  }

  /** Python's `int(x)` on a number: rounds toward zero. */
  function Truncate(x: real): (n: int)
    ensures 0.0 <= x ==> n as real <= x < n as real + 1.0
    ensures x < 0.0 ==> n as real - 1.0 < x <= n as real
  {
    if x >= 0.0 then x.Floor else -((-x).Floor)
  }

  /** The row `save` writes for a record. */
  function ToRow(r: Record): (row: Row)
    requires WellFormed(r)
    ensures row.id == r["id"].s && row.title == r["title"].s && row.body == r["body"].s
    ensures row.permalink == r["permalink"].s && row.labelName == r["label"].s
    ensures row.textSummary == None && row.commentSummary == None
    ensures row.comments == JoinLines(r["comments"].items)
    ensures row.createdUtc == Truncate(r["created_utc"].x)
    ensures 0.0 <= r["created_utc"].x ==> row.createdUtc as real <= r["created_utc"].x < row.createdUtc as real + 1.0
    ensures r["created_utc"].x < 0.0 ==> row.createdUtc as real - 1.0 < r["created_utc"].x <= row.createdUtc as real
    ensures row.sentiment == r["sentiment"].fields["compound"].x
  {
    Row(r["id"].s, r["title"].s, r["body"].s, JoinLines(r["comments"].items),
        Truncate(r["created_utc"].x), r["permalink"].s,
        r["sentiment"].fields["compound"].x, r["label"].s, None, None)
  }

  /** The stored comment blob splits back into the record's comments when there is
      at least one comment and none contains a newline. */
  lemma StoredCommentsRoundTrip(r: Record)
    requires WellFormed(r)
    requires |r["comments"].items| >= 1
    requires forall i :: 0 <= i < |r["comments"].items| ==> NoNewline(r["comments"].items[i])
    ensures SplitLines(ToRow(r).comments) == r["comments"].items
  {
    SplitJoin(r["comments"].items);
  }

  /** The rows `save` writes for a batch, in batch order. */
  function Flatten(records: seq<Record>): (rows: seq<Row>)
    requires forall i :: 0 <= i < |records| ==> WellFormed(records[i])
    ensures |rows| == |records|
    ensures forall i :: 0 <= i < |records| ==> rows[i] == ToRow(records[i])
  {
    seq(|records|, i requires 0 <= i < |records| => ToRow(records[i]))
  }

  /** The ids present in a table. */
  function Ids(t: seq<Row>): set<string> {
    set i | 0 <= i < |t| :: t[i].id
  }

  /** The primary-key constraint: no two rows share an id. */
  ghost predicate UniqueIds(t: seq<Row>) {
    forall i, j :: 0 <= i < j < |t| ==> t[i].id != t[j].id
  }

  /** The row stored under an id: the primary-key lookup in which first-write-wins
      is stated. */
  function Find(t: seq<Row>, id: string): (found: Option<Row>)
    ensures found.None? <==> id !in Ids(t)
    ensures found.Some? ==> found.value in t && found.value.id == id
    ensures found.Some? ==> exists i :: 0 <= i < |t| && t[i] == found.value &&
                              forall j :: 0 <= j < i ==> t[j].id != id
  {
    if t == [] then None
    else if t[0].id == id then Some(t[0])
    else
      var rest := Find(t[1..], id);
      assert Ids(t) == {t[0].id} + Ids(t[1..]) by {
        forall x | x in Ids(t) ensures x in {t[0].id} + Ids(t[1..]) {
          var i :| 0 <= i < |t| && t[i].id == x;
          if i > 0 { assert t[1..][i - 1].id == x; }
        }
        forall x | x in Ids(t[1..]) ensures x in Ids(t) {
          var i :| 0 <= i < |t[1..]| && t[1..][i].id == x;
          assert t[i + 1].id == x;
        }
      }
      if rest.Some? then
        assert exists i :: 0 <= i < |t| && t[i] == rest.value && forall j :: 0 <= j < i ==> t[j].id != id by {
          var k :| 0 <= k < |t[1..]| && t[1..][k] == rest.value && forall j :: 0 <= j < k ==> t[1..][j].id != id;
          assert t[k + 1] == rest.value;
          forall j | 0 <= j < k + 1 ensures t[j].id != id {
            if j > 0 { assert t[j] == t[1..][j - 1]; }
          }
        }
        rest
      else rest
  }

  /** One `INSERT OR IGNORE`: the row is appended unless its id is already taken. */
  function InsertOrIgnore(t: seq<Row>, row: Row): (r: seq<Row>)
    ensures |t| <= |r| <= |t| + 1 && r[..|t|] == t
    ensures Ids(r) == Ids(t) + {row.id}
  {
    if row.id in Ids(t) then t
    else
      IdsAppend(t, row);
      t + [row]
  }

  /** A whole `executemany` batch: the rows inserted-or-ignored one after another. */
  function InsertAll(t: seq<Row>, batch: seq<Row>): (r: seq<Row>)
    ensures |t| <= |r| <= |t| + |batch|
    decreases |batch|
  {
    if batch == [] then t
    else InsertOrIgnore(InsertAll(t, batch[..|batch| - 1]), batch[|batch| - 1])
  }

  lemma IdsAppend(t: seq<Row>, row: Row)
    ensures Ids(t + [row]) == Ids(t) + {row.id}
  {
    assert (t + [row])[|t|].id == row.id;
    forall x | x in Ids(t) ensures x in Ids(t + [row]) {
      var i :| 0 <= i < |t| && t[i].id == x;
      assert (t + [row])[i].id == x;
    }
  }

  /** A batch only appends: every row already in the table keeps its place and its
      contents, and an empty batch changes nothing. */
  lemma {:induction false} InsertAllExtends(t: seq<Row>, batch: seq<Row>)
    ensures |InsertAll(t, batch)| >= |t|
    ensures InsertAll(t, batch)[..|t|] == t
    ensures batch == [] ==> InsertAll(t, batch) == t
    decreases |batch|
  {
    if batch != [] {
      InsertAllExtends(t, batch[..|batch| - 1]);
      var prev := InsertAll(t, batch[..|batch| - 1]);
      assert InsertOrIgnore(prev, batch[|batch| - 1])[..|prev|] == prev;
    }
  }

  /** After a batch the table holds exactly the old ids and the batch's ids. */
  lemma {:induction false} InsertAllIds(t: seq<Row>, batch: seq<Row>)
    ensures Ids(InsertAll(t, batch)) == Ids(t) + Ids(batch)
    decreases |batch|
  {
    if batch != [] {
      var init := batch[..|batch| - 1];
      var last := batch[|batch| - 1];
      InsertAllIds(t, init);
      IdsAppend(InsertAll(t, init), last);
      assert init + [last] == batch;
      IdsAppend(init, last);
    }
  }

  /** A batch keeps the primary key unique. */
  lemma {:induction false} InsertAllUnique(t: seq<Row>, batch: seq<Row>)
    requires UniqueIds(t)
    ensures UniqueIds(InsertAll(t, batch))
    decreases |batch|
  {
    if batch != [] {
      var prev := InsertAll(t, batch[..|batch| - 1]);
      InsertAllUnique(t, batch[..|batch| - 1]);
      var last := batch[|batch| - 1];
      if last.id !in Ids(prev) {
        forall i | 0 <= i < |prev| ensures prev[i].id != last.id {
          assert prev[i].id in Ids(prev);
        }
      }
    }
  }

  /** First write wins: an id already in the table keeps its old row; an id new to
      the table gets the first row of the batch with that id; an id in neither is
      still absent. */
  lemma {:induction false} InsertAllFind(t: seq<Row>, batch: seq<Row>, id: string)
    ensures Find(InsertAll(t, batch), id) == (if id in Ids(t) then Find(t, id) else Find(batch, id))
    decreases |batch|
  {
    if batch != [] {
      var init := batch[..|batch| - 1];
      var last := batch[|batch| - 1];
      var prev := InsertAll(t, init);
      assert init + [last] == batch;
      InsertAllFind(t, init, id);
      InsertAllIds(t, init);
      FindAppend(init, last, id);
      if last.id in Ids(prev) {
        assert InsertAll(t, batch) == prev;
        if id !in Ids(t) && id !in Ids(init) {
          assert last.id != id;
        }
      } else {
        assert InsertAll(t, batch) == prev + [last];
        FindAppend(prev, last, id);
      }
    }
  }

  /** Appending a row does not change what an earlier id finds. */
  lemma {:induction false} FindAppend(t: seq<Row>, row: Row, id: string)
    ensures Find(t + [row], id) == if id in Ids(t) then Find(t, id) else if row.id == id then Some(row) else None
    decreases |t|
  {
    IdsAppend(t, row);
    if t == [] {
      assert [] + [row] == [row];
    } else {
      assert (t + [row])[1..] == t[1..] + [row];
      FindAppend(t[1..], row, id);
      if t[0].id != id {
        assert Ids(t) == {t[0].id} + Ids(t[1..]) by {
          forall x | x in Ids(t) ensures x in {t[0].id} + Ids(t[1..]) {
            var i :| 0 <= i < |t| && t[i].id == x;
            if i > 0 { assert t[1..][i - 1].id == x; }
          }
          forall x | x in Ids(t[1..]) ensures x in Ids(t) {
            var i :| 0 <= i < |t[1..]| && t[1..][i].id == x;
            assert t[i + 1].id == x;
          }
        }
      }
    }
  }

  /** A batch whose ids are all present already is a no-op. */
  lemma {:induction false} InsertAllKnown(t: seq<Row>, batch: seq<Row>)
    requires Ids(batch) <= Ids(t)
    ensures InsertAll(t, batch) == t
    decreases |batch|
  {
    if batch != [] {
      var init := batch[..|batch| - 1];
      var last := batch[|batch| - 1];
      assert init + [last] == batch;
      IdsAppend(init, last);
      InsertAllKnown(t, init);
    }
  }

  /** Saving the same batch twice gives the table that saving it once gives, and
      afterwards every id of the batch is present. */
  lemma InsertAllIdempotent(t: seq<Row>, batch: seq<Row>)
    ensures InsertAll(InsertAll(t, batch), batch) == InsertAll(t, batch)
    ensures Ids(batch) <= Ids(InsertAll(t, batch))
  {
    InsertAllIds(t, batch);
    InsertAllKnown(InsertAll(t, batch), batch);
  }

  /** The number of rows written is the number of distinct batch ids new to the table. */
  lemma {:induction false} InsertAllCount(t: seq<Row>, batch: seq<Row>)
    ensures |InsertAll(t, batch)| == |t| + |Ids(batch) - Ids(t)|
    decreases |batch|
  {
    if batch != [] {
      var init := batch[..|batch| - 1];
      var last := batch[|batch| - 1];
      var prev := InsertAll(t, init);
      assert init + [last] == batch;
      InsertAllCount(t, init);
      NewIdsStep(t, init, last);
      if last.id in Ids(prev) {
        assert InsertAll(t, batch) == prev;
      } else {
        assert InsertAll(t, batch) == prev + [last];
      }
    }
  }

  /** How one more batch row changes the set of ids new to the table. */
  lemma NewIdsStep(t: seq<Row>, init: seq<Row>, last: Row)
    ensures last.id in Ids(InsertAll(t, init)) ==> Ids(init + [last]) - Ids(t) == Ids(init) - Ids(t)
    ensures last.id !in Ids(InsertAll(t, init)) ==>
              |Ids(init + [last]) - Ids(t)| == |Ids(init) - Ids(t)| + 1
  {
    InsertAllIds(t, init);
    IdsAppend(init, last);
    var fresh0 := Ids(init) - Ids(t);
    if last.id !in Ids(InsertAll(t, init)) {
      assert last.id !in fresh0;
      assert Ids(init + [last]) - Ids(t) == fresh0 + {last.id};
    }
  }

  /** True iff neither summary column of any row is set. */
  predicate SummariesUnset(t: seq<Row>) {
    forall i :: 0 <= i < |t| ==> t[i].textSummary.None? && t[i].commentSummary.None?
  }

  /** Rows written by a batch carry no summaries, so a table whose summaries are all
      unset keeps them unset. */
  lemma {:induction false} InsertAllSummariesUnset(t: seq<Row>, records: seq<Record>)
    requires forall i :: 0 <= i < |records| ==> WellFormed(records[i])
    requires SummariesUnset(t)
    ensures SummariesUnset(InsertAll(t, Flatten(records)))
  {
    BatchSummariesUnset(t, Flatten(records));
  }

  lemma {:induction false} BatchSummariesUnset(t: seq<Row>, batch: seq<Row>)
    requires SummariesUnset(t) && SummariesUnset(batch)
    ensures SummariesUnset(InsertAll(t, batch))
    decreases |batch|
  {
    if batch != [] {
      BatchSummariesUnset(t, batch[..|batch| - 1]);
    }
  }
}
