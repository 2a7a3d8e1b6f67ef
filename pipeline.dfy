/** How the labeller's output meets the store: which labelled records `save`
    accepts, and what the stored rows then promise. */
module Pipeline {
  import opened Records
  import opened Analysis
  import opened Table
  import opened Queries

  /** A post with every field `save` needs before labelling adds `sentiment` and `label`. */
  predicate Saveable(p: Record) {
    && HasStr(p, "id") && HasText(p)
    && "comments" in p && p["comments"].StrList?
    && "created_utc" in p && p["created_utc"].Num?
    && HasStr(p, "permalink")
  }

  /** A labelled, otherwise complete post can be saved, and its row carries the
      compound score of its title-and-body text and the label that score implies. */
  lemma AnnotatedRecordIsSaveable(p: Record, scorer: string -> Scores)
    requires Saveable(p)
    ensures WellFormed(Annotate(p, scorer))
    ensures var row := ToRow(Annotate(p, scorer));
      && row.id == p["id"].s
      && row.sentiment == scorer(ScoredText(p)).compound
      && row.labelName == LabelOf(row.sentiment).Name()
  {
    var q := Annotate(p, scorer);
    assert q["sentiment"] == ScoresValue(scorer(ScoredText(p)));
  }

  /** A post as `fetch_posts` builds it has no `permalink`, so its labelled form is
      not something `save` can flatten. */
  lemma FetchedPostIsNotSaveable(p: Record, scorer: string -> Scores)
    requires HasText(p) && "permalink" !in p
    ensures !WellFormed(Annotate(p, scorer))
  {
  }

  /** Stored labels agree with the threshold rule on the stored score. */
  predicate LabelsConsistent(t: seq<Row>) {
    forall i :: 0 <= i < |t| ==> t[i].labelName == LabelOf(t[i].sentiment).Name()
  }

  /** Saving labelled records keeps every stored label consistent with its score. */
  lemma {:induction false} SaveKeepsLabelsConsistent(t: seq<Row>, batch: seq<Row>)
    requires LabelsConsistent(t) && LabelsConsistent(batch)
    ensures LabelsConsistent(InsertAll(t, batch))
    decreases |batch|
  {
    if batch != [] {
      SaveKeepsLabelsConsistent(t, batch[..|batch| - 1]);
    }
  }

  /** The rows of a labelled batch are label-consistent. */
  lemma AnnotatedBatchConsistent(posts: seq<Record>, scorer: string -> Scores, out: seq<Record>)
    requires |out| == |posts|
    requires forall i :: 0 <= i < |posts| ==> Saveable(posts[i]) && out[i] == Annotate(posts[i], scorer)
    ensures forall i :: 0 <= i < |out| ==> WellFormed(out[i])
    ensures LabelsConsistent(Flatten(out))
  {
    forall i | 0 <= i < |out| ensures WellFormed(out[i]) && ToRow(out[i]).labelName == LabelOf(ToRow(out[i]).sentiment).Name() {
      AnnotatedRecordIsSaveable(posts[i], scorer);
    }
  }

  /** On a label-consistent table, the day of any in-window post (that is, any day
      `get_daily_counts` reports) has counts that add up to all of that day's
      in-window posts, so at least one. */
  lemma ConsistentDaysAreNonEmpty(t: seq<Row>, now: int, days: nat, r: Row)
    requires LabelsConsistent(t)
    requires r in t && InWindow(r, now, days)
    ensures var c := Tally(Window(t, now, days), DayOf(r));
      && c.pos + c.neu + c.neg >= 1
      && c.pos + c.neu + c.neg == CountOn(Window(t, now, days), DayOf(r), LABEL_NAMES)
  {
    var w := Window(t, now, days);
    DailyTotals(w, DayOf(r));
    ConsistentLabelIsNamed(t, r);
    assert r in w;
  }

  /** Every row of a label-consistent table carries one of the three names. */
  lemma ConsistentLabelIsNamed(t: seq<Row>, r: Row)
    requires LabelsConsistent(t) && r in t
    ensures r.labelName in LABEL_NAMES
  {
    var k :| 0 <= k < |t| && t[k] == r;
    NameIsOneOfThree(LabelOf(r.sentiment), LabelOf(r.sentiment));
  }

  // ---------- the record used by tests/test_storage.py ----------

  /** The record the storage test saves: it has no `comments` and no `permalink`. */
  function StorageTestRecord(): Record {
    map["id" := Str("x1"), "created_utc" := Num(0.0), "title" := Str("t"), "body" := Str("b"),
        "sentiment" := Dict(map["compound" := Num(0.5)]), "label" := Str("Positive")]
  }

  /** As written, the test's record cannot be flattened: `save` would fail on it
      before writing anything. */
  lemma StorageTestRecordIsMalformed()
    ensures !WellFormed(StorageTestRecord())
  {
    assert "comments" !in StorageTestRecord();
  }

  /** The test's record completed with an empty comment list and a permalink. */
  function CompletedTestRecord(): Record {
    StorageTestRecord()["comments" := StrList([])]["permalink" := Str("")]
  }

  /** Saving the completed record into an empty table yields exactly one row, the
      outcome the test checks. */
  lemma CompletedTestRecordSavesOneRow()
    ensures WellFormed(CompletedTestRecord())
    ensures |InsertAll([], Flatten([CompletedTestRecord()]))| == 1
    ensures Find(InsertAll([], Flatten([CompletedTestRecord()])), "x1").Some?
  {
    var batch := Flatten([CompletedTestRecord()]);
    assert batch[..0] == [];
    assert batch[0].id == "x1";
    assert Ids([]) == {};
  }
}
