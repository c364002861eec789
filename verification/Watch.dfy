/** Waiting for a CI workflow: reading the pipeline table, and deciding when everything is done. */
module Watch {
  import opened Text

  datatype Pipeline = Pipeline(id: string, name: string, state: string)

  // ----- fields -----

  predicate IsSpace(c: char) {
    var code := c as int;
    || 9 <= code <= 13 || code == 0x20 || code == 0x85 || code == 0xA0
    || code == 0x1680 || 0x2000 <= code <= 0x200A || code == 0x2028 || code == 0x2029
    || code == 0x202F || code == 0x205F || code == 0x3000
  }

  predicate Blank(s: string) {
    forall i :: 0 <= i < |s| ==> IsSpace(s[i])
  }

  predicate Word(s: string) {
    s != [] && forall i :: 0 <= i < |s| ==> !IsSpace(s[i])
  }

  function WordLength(s: string): (n: nat)
    ensures n <= |s|
    ensures s != [] && !IsSpace(s[0]) ==> n > 0
  {
    if s == [] || IsSpace(s[0]) then 0 else 1 + WordLength(s[1..])
  }

  /** The maximal runs of characters that are not spaces. */
  function Fields(s: string): seq<string>
    decreases |s|
  {
    if s == [] then []
    else if IsSpace(s[0]) then Fields(s[1..])
    else [s[..WordLength(s)]] + Fields(s[WordLength(s)..])
  }

  function Dashes(s: string): nat {
    if s == [] then 0 else (if s[0] == '-' then 1 else 0) + Dashes(s[1..])
  }

  predicate IsUUID(s: string) {
    |s| == 36 && Dashes(s) == 4
  }

  // ----- the table -----

  /** A line of the table: id, name, creation date, creation time, state. Other lines give nothing. */
  function ParseLine(line: string): seq<Pipeline> {
    var fields := Fields(line);
    var n := |fields|;
    if n < 5 || !IsUUID(fields[0]) then []
    else [Pipeline(fields[0], Join(fields[1..n - 3], " "), fields[n - 1])]
  }

  function ParseLines(lines: seq<string>): seq<Pipeline> {
    if lines == [] then [] else ParseLines(lines[..|lines| - 1]) + ParseLine(lines[|lines| - 1])
  }

  method ParseWatchPipelines(output: string) returns (pipelines: seq<Pipeline>)
    ensures pipelines == ParseLines(Split(output, '\n'))
  {
    pipelines := [];
    var lines := Split(output, '\n');
    for i := 0 to |lines|
      invariant pipelines == ParseLines(lines[..i])
    {
      assert lines[..i + 1][..i] == lines[..i];
      var fields := Fields(lines[i]);
      if |fields| < 5 || !IsUUID(fields[0]) {
        continue;
      }
      var pipeline := Pipeline(fields[0], Join(fields[1..|fields| - 3], " "), fields[|fields| - 1]);
      pipelines := pipelines + [pipeline];
    }
    assert lines[..|lines|] == lines;
  }

  // ----- printing and reading back -----

  /** Words with blanks before, between and after them. */
  function Spaced(words: seq<string>, blanks: seq<string>): string
    requires |blanks| == |words| + 1
  {
    if words == [] then blanks[0] else blanks[0] + words[0] + Spaced(words[1..], blanks[1..])
  }

  ghost predicate Printable(words: seq<string>, blanks: seq<string>) {
    && |blanks| == |words| + 1
    && (forall i :: 0 <= i < |words| ==> Word(words[i]))
    && (forall i :: 0 <= i < |blanks| ==> Blank(blanks[i]))
    && (forall i :: 0 < i < |words| ==> blanks[i] != [])
  }

  lemma {:induction false} SkipBlank(blank: string, rest: string)
    requires Blank(blank)
    ensures Fields(blank + rest) == Fields(rest)
  {
    if blank == [] {
      assert blank + rest == rest;
    } else {
      SkipBlank(blank[1..], rest);
      assert (blank + rest)[1..] == blank[1..] + rest;
    }
  }

  lemma {:induction false} WordLengthOf(word: string, rest: string)
    requires forall i :: 0 <= i < |word| ==> !IsSpace(word[i])
    requires rest == [] || IsSpace(rest[0])
    ensures WordLength(word + rest) == |word|
  {
    if word == [] {
      assert word + rest == rest;
    } else {
      WordLengthOf(word[1..], rest);
      assert (word + rest)[1..] == word[1..] + rest;
    }
  }

  lemma TakeWord(word: string, rest: string)
    requires Word(word)
    requires rest == [] || IsSpace(rest[0])
    ensures Fields(word + rest) == [word] + Fields(rest)
  {
    WordLengthOf(word, rest);
    assert (word + rest)[..|word|] == word && (word + rest)[|word|..] == rest;
  }

  /** Words printed with any spacing are read back. */
  lemma {:induction false} FieldsOfSpaced(words: seq<string>, blanks: seq<string>)
    requires Printable(words, blanks)
    ensures Fields(Spaced(words, blanks)) == words
  {
    if words == [] {
      SkipBlank(blanks[0], []);
      assert blanks[0] + [] == blanks[0];
    } else {
      var rest := Spaced(words[1..], blanks[1..]);
      assert words[1..] == [] ==> rest == blanks[1];
      assert words[1..] != [] ==> rest == blanks[1] + words[1] + Spaced(words[1..][1..], blanks[1..][1..]);
      assert rest == [] || IsSpace(rest[0]);
      assert Spaced(words, blanks) == blanks[0] + (words[0] + rest);
      SkipBlank(blanks[0], words[0] + rest);
      TakeWord(words[0], rest);
      FieldsOfSpaced(words[1..], blanks[1..]);
    }
  }

  datatype Row = Row(id: string, name: seq<string>, date: string, time: string, state: string)

  function RowWords(row: Row): seq<string> {
    [row.id] + row.name + [row.date, row.time, row.state]
  }

  /** A row of the table, however it is spaced, is read back as its id, its name with single spaces,
      and its state. */
  lemma RowReadsBack(row: Row, blanks: seq<string>)
    requires IsUUID(row.id) && row.name != []
    requires Printable(RowWords(row), blanks)
    ensures ParseLine(Spaced(RowWords(row), blanks)) == [Pipeline(row.id, Join(row.name, " "), row.state)]
  {
    FieldsOfSpaced(RowWords(row), blanks);
    var words := RowWords(row);
    assert words[1..|words| - 3] == row.name;
  }

  /** The characters that separate fields. */
  lemma SpacesAre(c: char)
    ensures IsSpace(c) <==> c as int in {
      0x09, 0x0A, 0x0B, 0x0C, 0x0D, 0x20, 0x85, 0xA0, 0x1680, 0x2000, 0x2001, 0x2002, 0x2003, 0x2004, 0x2005,
      0x2006, 0x2007, 0x2008, 0x2009, 0x200A, 0x2028, 0x2029, 0x202F, 0x205F, 0x3000}
  {
  }

  lemma {:induction false} DashesAreCounted(s: string)
    ensures Dashes(s) == multiset(s)['-']
  {
    if s != [] {
      DashesAreCounted(s[1..]);
      assert s == [s[0]] + s[1..];
    }
  }

  /** Which lines are rows: those of five words or more of which the first has 36 characters, four of
      them dashes. The words before the last three make the name. */
  lemma RowExactly(words: seq<string>, blanks: seq<string>)
    requires Printable(words, blanks)
    ensures ParseLine(Spaced(words, blanks)) ==
      var n := |words|;
      if n >= 5 && |words[0]| == 36 && multiset(words[0])['-'] == 4
      then [Pipeline(words[0], Join(words[1..n - 3], " "), words[n - 1])]
      else []
  {
    FieldsOfSpaced(words, blanks);
    if words != [] {
      DashesAreCounted(words[0]);
    }
  }

  /** A line of the command's output: a row, or anything that does not begin with an id. */
  datatype Line = Entry(row: Row, blanks: seq<string>) | Heading(text: string)

  ghost predicate Proper(line: Line) {
    match line
    case Entry(row, blanks) =>
      && IsUUID(row.id) && row.name != []
      && Printable(RowWords(row), blanks)
      && '\n' !in Spaced(RowWords(row), blanks)
    case Heading(text) =>
      && '\n' !in text
      && (Fields(text) == [] || !IsUUID(Fields(text)[0]))
  }

  ghost function Shown(line: Line): string
    requires Proper(line)
  {
    match line
    case Entry(row, blanks) => Spaced(RowWords(row), blanks)
    case Heading(text) => text
  }

  ghost function AllShown(table: seq<Line>): seq<string>
    requires forall i :: 0 <= i < |table| ==> Proper(table[i])
  {
    seq(|table|, i requires 0 <= i < |table| && Proper(table[i]) => Shown(table[i]))
  }

  function Held(table: seq<Line>): seq<Pipeline> {
    if table == [] then []
    else
      var line := table[|table| - 1];
      Held(table[..|table| - 1])
      + (if line.Entry? then [Pipeline(line.row.id, Join(line.row.name, " "), line.row.state)] else [])
  }

  lemma {:induction false} ShownReadsBack(table: seq<Line>)
    requires forall i :: 0 <= i < |table| ==> Proper(table[i])
    ensures ParseLines(AllShown(table)) == Held(table)
  {
    if table != [] {
      var n := |table| - 1;
      var shown := AllShown(table);
      ShownReadsBack(table[..n]);
      assert shown[..n] == AllShown(table[..n]);
      if table[n].Entry? {
        RowReadsBack(table[n].row, table[n].blanks);
      }
      assert ParseLine(shown[n]) == Held(table)[|Held(table[..n])|..];
    }
  }

  /** The printed table gives back the id, name and state of its rows, in order, and nothing else. */
  lemma TableReadsBack(table: seq<Line>)
    requires table != [] && forall i :: 0 <= i < |table| ==> Proper(table[i])
    ensures ParseLines(Split(Join(AllShown(table), "\n"), '\n')) == Held(table)
  {
    SplitOfJoin(AllShown(table), '\n');
    ShownReadsBack(table);
  }

  // ----- the polling loop -----

  /** One turn of the loop: whether the deadline has passed, and the table it would read. */
  datatype Poll = Poll(late: bool, pipelines: seq<Pipeline>)

  datatype End = Confirmed(at: nat) | TimedOut(at: nat) | StillWaiting

  predicate Done(poll: Poll) {
    poll.pipelines != [] && forall i :: 0 <= i < |poll.pipelines| ==> poll.pipelines[i].state == "DONE"
  }

  /** Poll `k` finds all pipelines done, as poll `j` did with the same number of pipelines, and every
      poll in between was empty. */
  ghost predicate ConfirmedBy(polls: seq<Poll>, j: nat, k: nat) {
    && j < k < |polls|
    && polls[j].pipelines != [] && (forall i :: 0 <= i < |polls[j].pipelines| ==> polls[j].pipelines[i].state == "DONE")
    && polls[k].pipelines != [] && (forall i :: 0 <= i < |polls[k].pipelines| ==> polls[k].pipelines[i].state == "DONE")
    && |polls[j].pipelines| == |polls[k].pipelines|
    && (forall i :: j < i < k ==> polls[i].pipelines == [])
  }

  ghost predicate Confirms(polls: seq<Poll>, k: nat) {
    exists j: nat :: ConfirmedBy(polls, j, k)
  }

  method AllDone(pipelines: seq<Pipeline>) returns (allDone: bool)
    ensures allDone <==> forall i :: 0 <= i < |pipelines| ==> pipelines[i].state == "DONE"
  {
    allDone := true;
    for i := 0 to |pipelines|
      invariant allDone <==> forall k :: 0 <= k < i ==> pipelines[k].state == "DONE"
    {
      if pipelines[i].state != "DONE" {
        allDone := false;
      }
    }
  }

  /** The count kept after `k` polls: that of the last poll that was not empty, if it was all done. */
  function Remembered(polls: seq<Poll>, k: nat): int
    requires k <= |polls|
  {
    if k == 0 then -1
    else if polls[k - 1].pipelines == [] then Remembered(polls, k - 1)
    else if Done(polls[k - 1]) then |polls[k - 1].pipelines|
    else -1
  }

  ghost predicate LastDone(polls: seq<Poll>, j: nat, k: nat, count: nat)
    requires k <= |polls|
  {
    && j < k
    && Done(polls[j])
    && |polls[j].pipelines| == count
    && (forall i :: j < i < k ==> polls[i].pipelines == [])
  }

  lemma {:induction false} RememberedMeans(polls: seq<Poll>, k: nat, count: nat)
    requires k <= |polls|
    ensures Remembered(polls, k) == count <==> exists j: nat :: LastDone(polls, j, k, count)
  {
    if k == 0 {
    } else if polls[k - 1].pipelines == [] {
      RememberedMeans(polls, k - 1, count);
      if j: nat :| LastDone(polls, j, k, count) {
        assert LastDone(polls, j, k - 1, count);
      }
      var before := k - 1;
      if j: nat :| LastDone(polls, j, before, count) {
        assert LastDone(polls, j, k, count);
      }
    } else {
      if Remembered(polls, k) == count {
        assert LastDone(polls, k - 1, k, count);
      }
      if j: nat :| LastDone(polls, j, k, count) {
        assert j == k - 1;
      }
    }
  }

  /** The one number kept is enough to recognise a confirmation. */
  lemma RememberedConfirms(polls: seq<Poll>, k: nat)
    requires k < |polls|
    ensures Confirms(polls, k) <==> Done(polls[k]) && Remembered(polls, k) == |polls[k].pipelines|
  {
    var count := |polls[k].pipelines|;
    RememberedMeans(polls, k, count);
    if Done(polls[k]) && Remembered(polls, k) == count {
      var j: nat :| LastDone(polls, j, k, count);
      assert ConfirmedBy(polls, j, k);
    }
    if j: nat :| ConfirmedBy(polls, j, k) {
      assert LastDone(polls, j, k, count);
    }
  }

  /** The loop ends with success exactly at the first confirming poll, unless the deadline passes
      first. */
  method WatchPolls(polls: seq<Poll>) returns (end: End)
    ensures match end
      case Confirmed(at) =>
        && at < |polls| && Confirms(polls, at)
        && (forall i :: 0 <= i <= at ==> !polls[i].late)
        && (forall i :: 0 <= i < at ==> !Confirms(polls, i))
      case TimedOut(at) =>
        && at < |polls| && polls[at].late
        && (forall i :: 0 <= i < at ==> !polls[i].late && !Confirms(polls, i))
      case StillWaiting => forall i :: 0 <= i < |polls| ==> !polls[i].late && !Confirms(polls, i)
  {
    var confirmedCount := -1;
    for k := 0 to |polls|
      invariant confirmedCount == Remembered(polls, k)
      invariant forall i :: 0 <= i < k ==> !polls[i].late && !Confirms(polls, i)
    {
      if polls[k].late {
        return TimedOut(k);
      }
      RememberedConfirms(polls, k);
      var pipelines := polls[k].pipelines;
      if |pipelines| > 0 {
        var allDone := AllDone(pipelines);
        if allDone {
          if confirmedCount == |pipelines| {
            return Confirmed(k);
          }
          confirmedCount := |pipelines|;
        } else {
          confirmedCount := -1;
        }
      }
    }
    return StillWaiting;
  }

  /** Two polls that are not consecutive: the second confirms the first over an empty one between. */
  lemma EmptyPollBetween(p: Pipeline)
    requires p.state == "DONE"
    ensures var polls := [Poll(false, [p]), Poll(false, []), Poll(false, [p])];
      Confirms(polls, 2) && !Confirms(polls, 1) && !Confirms(polls, 0)
  {
    var polls := [Poll(false, [p]), Poll(false, []), Poll(false, [p])];
    assert ConfirmedBy(polls, 0, 2);
  }
}
