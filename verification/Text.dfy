/** Splitting and joining strings. */
module Text {

  /** How far it is to the first `c`, or to the end. */
  function Reach(s: string, c: char): (n: nat)
    ensures n <= |s|
    ensures n < |s| ==> s[n] == c
    ensures c !in s[..n]
  {
    if s == [] || s[0] == c then 0
    else
      var n := 1 + Reach(s[1..], c);
      assert s[..n] == [s[0]] + s[1..][..n - 1];
      n
  }

  /** The parts between the occurrences of `c`; one more than there are occurrences. */
  function Split(s: string, c: char): seq<string>
    decreases |s|
  {
    var n := Reach(s, c);
    if n == |s| then [s] else [s[..n]] + Split(s[n + 1..], c)
  }

  function Join(parts: seq<string>, separator: string): string {
    if parts == [] then []
    else if |parts| == 1 then parts[0]
    else parts[0] + separator + Join(parts[1..], separator)
  }

  lemma {:induction false} ReachOf(part: string, rest: string, c: char)
    requires c !in part
    requires rest == [] || rest[0] == c
    ensures Reach(part + rest, c) == |part|
  {
    if part == [] {
      assert part + rest == rest;
    } else {
      ReachOf(part[1..], rest, c);
      assert (part + rest)[1..] == part[1..] + rest;
    }
  }

  /** Splitting undoes joining. */
  lemma {:induction false} SplitOfJoin(parts: seq<string>, c: char)
    requires parts != [] && forall i :: 0 <= i < |parts| ==> c !in parts[i]
    ensures Split(Join(parts, [c]), c) == parts
  {
    if |parts| == 1 {
      ReachOf(parts[0], [], c);
      assert parts[0] + [] == parts[0];
    } else {
      var rest := Join(parts[1..], [c]);
      var text := Join(parts, [c]);
      assert text == parts[0] + ([c] + rest);
      ReachOf(parts[0], [c] + rest, c);
      assert text[..|parts[0]|] == parts[0] && text[|parts[0]| + 1..] == rest;
      SplitOfJoin(parts[1..], c);
    }
  }

  /** Joining undoes splitting, and no part holds the separator. */
  lemma {:induction false} JoinOfSplit(s: string, c: char)
    ensures Split(s, c) != [] && Join(Split(s, c), [c]) == s
    ensures forall i :: 0 <= i < |Split(s, c)| ==> c !in Split(s, c)[i]
    decreases |s|
  {
    var n := Reach(s, c);
    if n < |s| {
      JoinOfSplit(s[n + 1..], c);
      assert Split(s, c)[1..] == Split(s[n + 1..], c);
      assert s == s[..n] + [c] + s[n + 1..];
    } else {
      assert s[..n] == s;
    }
  }
}
