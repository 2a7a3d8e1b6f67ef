/** The sentiment labeller (src/analysis.py): each post is scored on its title
    and body by an external scorer, and the compound score is bucketed into one
    of three labels with fixed thresholds. */
module Analysis {
  import opened Records

  /** The three labels, ordered Negative < Neutral < Positive by `Rank`. */
  datatype Label = Positive | Neutral | Negative {

    /** The text stored in a record's `label` field. */
    function Name(): string {
      match this
      case Positive => "Positive"
      case Neutral => "Neutral"
      case Negative => "Negative"
    }

    function Rank(): int {
      match this
      case Negative => 0
      case Neutral => 1
      case Positive => 2
    }
  }

  /** The label names a record can carry after labelling. */
  const LABEL_NAMES: set<string> := {"Positive", "Neutral", "Negative"}

  /** Compound scores at or above this are Positive. */
  const POSITIVE_THRESHOLD: real := 0.05
  /** Compound scores at or below this are Negative. */
  const NEGATIVE_THRESHOLD: real := -0.05

  /** The three-way label of a compound score. */
  function LabelOf(compound: real): (l: Label)
    ensures l == Positive <==> compound >= POSITIVE_THRESHOLD
    ensures l == Negative <==> compound <= NEGATIVE_THRESHOLD
    ensures l == Neutral <==> NEGATIVE_THRESHOLD < compound < POSITIVE_THRESHOLD
  {
    if compound >= POSITIVE_THRESHOLD then Positive
    else if compound <= NEGATIVE_THRESHOLD then Negative
    else Neutral
  }

  /** A higher score never gets a lower label. */
  lemma LabelMonotone(a: real, b: real)
    requires a <= b
    ensures LabelOf(a).Rank() <= LabelOf(b).Rank()
  {
  }

  /** Every label is stored as exactly one of the three names, and distinct labels
      are stored as distinct names. */
  lemma NameIsOneOfThree(l: Label, k: Label)
    ensures l.Name() in LABEL_NAMES
    ensures l.Name() == k.Name() ==> l == k
  {
  }

  /** The scores the external scorer returns: the negative, neutral and positive
      proportions and the normalised compound score. */
  datatype Scores = Scores(neg: real, neu: real, pos: real, compound: real)

  /** The score dictionary as it is merged into a record. */
  function ScoresValue(sc: Scores): Value {
    Dict(map["neg" := Num(sc.neg), "neu" := Num(sc.neu), "pos" := Num(sc.pos),
             "compound" := Num(sc.compound)])
  }

  /** True iff a post has the two text fields the labeller reads. */
  predicate HasText(p: Record) {
    HasStr(p, "title") && HasStr(p, "body")
  }

  /** The text that is scored: the title, one space, then the body. */
  function ScoredText(p: Record): (t: string)
    requires HasText(p)
    ensures |t| == |p["title"].s| + 1 + |p["body"].s|
    ensures t[..|p["title"].s|] == p["title"].s
    ensures t[|p["title"].s|] == ' '
    ensures t[|p["title"].s| + 1..] == p["body"].s
  {
    p["title"].s + " " + p["body"].s
  }

  /** A post with its scores and its label merged in: every other field is kept,
      and `sentiment` and `label` are added or overwritten. */
  function Annotate(p: Record, scorer: string -> Scores): (q: Record)
    requires HasText(p)
    ensures q.Keys == p.Keys + {"sentiment", "label"}
    ensures forall k :: k in p && k != "sentiment" && k != "label" ==> q[k] == p[k]
    ensures q["sentiment"] == ScoresValue(scorer(ScoredText(p)))
    ensures q["label"].Str? && q["label"].s in LABEL_NAMES
    ensures q["label"] == Str(LabelOf(scorer(ScoredText(p)).compound).Name())
  {
    var scores := scorer(ScoredText(p));
    p["sentiment" := ScoresValue(scores)]["label" := Str(LabelOf(scores.compound).Name())]
  }

  /** `analyze_sentiments`: one annotated record per post, in input order. */
  method AnalyzeSentiments(posts: seq<Record>, scorer: string -> Scores) returns (out: seq<Record>)
    requires forall i :: 0 <= i < |posts| ==> HasText(posts[i])
    ensures |out| == |posts|
    ensures forall i :: 0 <= i < |posts| ==> out[i] == Annotate(posts[i], scorer)
  {
    out := [];
    for i := 0 to |posts|
      invariant |out| == i
      invariant forall j :: 0 <= j < i ==> out[j] == Annotate(posts[j], scorer)
    {
      out := out + [Annotate(posts[i], scorer)];
    }
  }

  /** Every record the labeller returns carries one of the three label names, and
      that label agrees with the threshold rule on the record's own compound score. */
  lemma {:induction false} AnalyzedLabelsConsistent(posts: seq<Record>, scorer: string -> Scores, out: seq<Record>)
    requires forall i :: 0 <= i < |posts| ==> HasText(posts[i])
    requires |out| == |posts|
    requires forall i :: 0 <= i < |posts| ==> out[i] == Annotate(posts[i], scorer)
    ensures forall i :: 0 <= i < |out| ==>
      && "label" in out[i] && "sentiment" in out[i]
      && out[i]["sentiment"].Dict? && "compound" in out[i]["sentiment"].fields
      && out[i]["sentiment"].fields["compound"].Num?
      && out[i]["label"] == Str(LabelOf(out[i]["sentiment"].fields["compound"].x).Name())
  {
    forall i | 0 <= i < |out|
      ensures "label" in out[i] && "sentiment" in out[i]
      ensures out[i]["sentiment"].Dict? && "compound" in out[i]["sentiment"].fields
      ensures out[i]["sentiment"].fields["compound"].Num?
      ensures out[i]["label"] == Str(LabelOf(out[i]["sentiment"].fields["compound"].x).Name())
    {
      var sc := scorer(ScoredText(posts[i]));
      assert out[i]["sentiment"] == ScoresValue(sc);
      assert ScoresValue(sc).fields["compound"] == Num(sc.compound);
    }
  }
}
