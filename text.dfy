/** Newline-joined text: the format in which a post's comment list is stored. */
module Text {

  /** True iff `x` contains no newline character. */
  predicate NoNewline(x: string) {
    forall i :: 0 <= i < |x| ==> x[i] != '\n'
  }

  /** The number of newline characters in `s`. */
  function NewlineCount(s: string): nat
    decreases |s|
  {
    if s == [] then 0 else (if s[0] == '\n' then 1 else 0) + NewlineCount(s[1..])
  }

  lemma {:induction false} NewlineCountConcat(a: string, b: string)
    ensures NewlineCount(a + b) == NewlineCount(a) + NewlineCount(b)
    decreases |a|
  {
    if a == [] {
      assert a + b == b;
    } else {
      assert (a + b)[1..] == a[1..] + b;
      NewlineCountConcat(a[1..], b);
    }
  }

  lemma {:induction false} NoNewlineCount(x: string)
    requires NoNewline(x)
    ensures NewlineCount(x) == 0
    decreases |x|
  {
    if x != [] {
      NoNewlineCount(x[1..]);
    }
  }

  /** The string `"\n".join(items)`: it starts with the first item and, when no item
      holds a newline itself, has exactly one newline between neighbours. */
  function JoinLines(items: seq<string>): (s: string)
    ensures |items| >= 1 ==> items[0] <= s
    ensures (forall i :: 0 <= i < |items| ==> NoNewline(items[i])) ==>
              NewlineCount(s) == if |items| == 0 then 0 else |items| - 1
    decreases |items|
  {
    if |items| == 0 then ""
    else if |items| == 1 then
      (if NoNewline(items[0]) then NoNewlineCount(items[0]); items[0] else items[0])
    else
      var rest := JoinLines(items[1..]);
      NewlineCountConcat(items[0], "\n");
      NewlineCountConcat(items[0] + "\n", rest);
      if NoNewline(items[0]) then NoNewlineCount(items[0]); items[0] + "\n" + rest
      else items[0] + "\n" + rest
  }

  /** The pieces of `s` between newlines (`s.split("\n")`); there is always at least one. */
  function SplitLines(s: string): (parts: seq<string>)
    ensures |parts| >= 1
    decreases |s|
  {
    if s == [] then [""]
    else if s[0] == '\n' then [""] + SplitLines(s[1..])
    else
      var rest := SplitLines(s[1..]);
      [[s[0]] + rest[0]] + rest[1..]
  }

  /** A line without newlines splits to itself. */
  lemma {:induction false} SplitSingle(x: string)
    requires NoNewline(x)
    ensures SplitLines(x) == [x]
  {
    if x != [] {
      SplitSingle(x[1..]);
      assert [x[0]] + x[1..] == x;
    }
  }

  /** Splitting `x + "\n" + t` peels off `x` when `x` has no newline. */
  lemma {:induction false} SplitAfterLine(x: string, t: string)
    requires NoNewline(x)
    ensures SplitLines(x + "\n" + t) == [x] + SplitLines(t)
  {
    if x == [] {
      assert x + "\n" + t == "\n" + t;
      assert ("\n" + t)[1..] == t;
    } else {
      var s := x + "\n" + t;
      assert s[0] == x[0];
      assert s[1..] == x[1..] + "\n" + t;
      SplitAfterLine(x[1..], t);
      assert [x[0]] + x[1..] == x;
    }
  }

  /** The stored comment blob gives back the comment list, provided the list is
      non-empty and no comment itself contains a newline. */
  lemma {:induction false} SplitJoin(items: seq<string>)
    requires |items| >= 1
    requires forall i :: 0 <= i < |items| ==> NoNewline(items[i])
    ensures SplitLines(JoinLines(items)) == items
    decreases |items|
  {
    if |items| == 1 {
      SplitSingle(items[0]);
    } else {
      SplitJoin(items[1..]);
      SplitAfterLine(items[0], JoinLines(items[1..]));
      assert [items[0]] + items[1..] == items;
    }
  }

  /** Both preconditions of SplitJoin are needed: the empty list and the list of one
      empty comment are stored alike, and so are a two-line comment and two comments. */
  lemma JoinLinesLosesStructure()
    ensures JoinLines([]) == JoinLines([""])
    ensures JoinLines(["a\nb"]) == JoinLines(["a", "b"])
  {
  }
}
