/** Joining texts with a separator and splitting them again. */
module SeparatedText {
  import opened Options

  /** The parts before and after the first `sep`, if there is one. */
  function SplitFirst(s: string, sep: char): Option<(string, string)> {
    if s == "" then None
    else if s[0] == sep then Some(("", s[1..]))
    else
      match SplitFirst(s[1..], sep)
      case None => None
      case Some(parts) => Some(([s[0]] + parts.0, parts.1))
  }

  lemma {:induction false} SplitFirstOfPair(a: string, sep: char, b: string)
    requires sep !in a
    ensures SplitFirst(a + [sep] + b, sep) == Some((a, b))
  {
    var s := a + [sep] + b;
    if a == "" {
      assert s[0] == sep && s[1..] == b;
    } else {
      assert s[1..] == a[1..] + [sep] + b;
      SplitFirstOfPair(a[1..], sep, b);
      assert [a[0]] + a[1..] == a;
    }
  }

  lemma {:induction false} SplitFirstWithout(s: string, sep: char)
    requires sep !in s
    ensures SplitFirst(s, sep) == None
  {
    if s != "" {
      SplitFirstWithout(s[1..], sep);
    }
  }

  lemma {:induction false} SplitFirstIsShorter(s: string, sep: char)
    ensures SplitFirst(s, sep).Some? ==> |SplitFirst(s, sep).value.1| < |s|
  {
    if s != "" && s[0] != sep {
      SplitFirstIsShorter(s[1..], sep);
    }
  }

  function Join(xs: seq<string>, sep: char): string {
    if xs == [] then "" else if |xs| == 1 then xs[0] else xs[0] + [sep] + Join(xs[1..], sep)
  }

  function Split(s: string, sep: char): seq<string>
    decreases |s|
  {
    match SplitFirst(s, sep)
    case None => [s]
    case Some(parts) =>
      SplitFirstIsShorter(s, sep);
      [parts.0] + Split(parts.1, sep)
  }

  /** Reads a flag's list: an empty text is the empty list. */
  function SplitList(s: string, sep: char): seq<string> {
    if s == "" then [] else Split(s, sep)
  }

  lemma {:induction false} SplitOfJoin(xs: seq<string>, sep: char)
    requires xs != [] && forall i :: 0 <= i < |xs| ==> sep !in xs[i]
    ensures Split(Join(xs, sep), sep) == xs
  {
    if |xs| == 1 {
      SplitFirstWithout(xs[0], sep);
    } else {
      SplitFirstOfPair(xs[0], sep, Join(xs[1..], sep));
      SplitOfJoin(xs[1..], sep);
    }
  }

  /** A list of separator-free texts survives printing, except the list of one empty text. */
  lemma {:induction false} ListRoundTrip(xs: seq<string>, sep: char)
    requires forall i :: 0 <= i < |xs| ==> sep !in xs[i]
    ensures SplitList(Join(xs, sep), sep) == xs <==> xs != [""]
  {
    if xs != [] {
      SplitOfJoin(xs, sep);
    }
    if |xs| > 1 {
      assert sep in Join(xs, sep);
    }
  }
}
