/** From a snapshot to the published list of top servers, and from its bytes back to the list. */
module TopServers {
  import opened Common
  import opened LittleEndian
  import opened CruncherModel
  import CC = CruncherCut
  import opened ServerBatch

  const TOP_SERVERS_COUNT: nat := 10000
  const TOP_SERVERS_VERSION: nat := 1
  const MAX_SERVER_ADDRESS_LENGTH: nat := 64

  // ----- first occurrences -----

  /** The elements of `s` without repetitions, each where it first appears. */
  function Distinct(s: seq<ServerId>): seq<ServerId> {
    if s == [] then []
    else
      var front, last := s[..|s| - 1], s[|s| - 1];
      if last in front then Distinct(front) else Distinct(front) + [last]
  }

  function Flatten(ranked: seq<seq<ServerId>>): seq<ServerId> {
    if ranked == [] then [] else Flatten(ranked[..|ranked| - 1]) + ranked[|ranked| - 1]
  }

  function Top(ranked: seq<seq<ServerId>>, limit: nat): seq<ServerId> {
    var distinct := Distinct(Flatten(ranked));
    if |distinct| <= limit then distinct else distinct[..limit]
  }

  /** `x` occurs in `s`, and first at `i`. */
  ghost predicate FirstAt(s: seq<ServerId>, x: ServerId, i: nat) {
    i < |s| && s[i] == x && x !in s[..i]
  }

  lemma {:induction false} DistinctElements(s: seq<ServerId>, x: ServerId)
    ensures x in Distinct(s) <==> x in s
  {
    if s != [] {
      DistinctElements(s[..|s| - 1], x);
      assert s == s[..|s| - 1] + [s[|s| - 1]];
    }
  }

  lemma {:induction false} DistinctUnique(s: seq<ServerId>)
    ensures forall i, j :: 0 <= i < j < |Distinct(s)| ==> Distinct(s)[i] != Distinct(s)[j]
  {
    if s != [] {
      DistinctUnique(s[..|s| - 1]);
      DistinctElements(s[..|s| - 1], s[|s| - 1]);
    }
  }

  lemma {:induction false} DistinctSize(s: seq<ServerId>)
    ensures |Distinct(s)| == |Elements(s)|
  {
    if s == [] {
      assert Elements(s) == {};
    } else {
      var front, last := s[..|s| - 1], s[|s| - 1];
      DistinctSize(front);
      assert s == front + [last];
      assert Elements(s) == Elements(front) + {last};
      if last in front {
        assert Elements(s) == Elements(front);
      } else {
        assert last !in Elements(front);
      }
    }
  }

  lemma {:induction false} DistinctOfPrefix(s: seq<ServerId>, n: nat)
    requires n <= |s|
    ensures Distinct(s[..n]) <= Distinct(s)
  {
    if n == |s| {
      assert s[..n] == s;
    } else {
      var front := s[..|s| - 1];
      DistinctOfPrefix(front, n);
      assert front[..n] == s[..n];
    }
  }

  /** Distinct elements come in the order of their first occurrences. */
  lemma {:induction false} DistinctInOrder(s: seq<ServerId>, i: nat, j: nat, p: nat, q: nat)
    requires i < j < |Distinct(s)|
    requires FirstAt(s, Distinct(s)[i], p) && FirstAt(s, Distinct(s)[j], q)
    ensures p < q
  {
    var front, last := s[..|s| - 1], s[|s| - 1];
    var x, y := Distinct(s)[i], Distinct(s)[j];
    assert s == front + [last];
    if j < |Distinct(front)| {
      DistinctElements(front, x);
      DistinctElements(front, y);
      FirstAtInPrefix(s, x, p);
      FirstAtInPrefix(s, y, q);
      DistinctInOrder(front, i, j, p, q);
    } else {
      assert y == last && x == Distinct(front)[i];
      DistinctElements(front, x);
      FirstAtInPrefix(s, x, p);
    }
  }

  lemma FirstAtInPrefix(s: seq<ServerId>, x: ServerId, p: nat)
    requires FirstAt(s, x, p)
    requires x in s[..|s| - 1]
    ensures FirstAt(s[..|s| - 1], x, p)
  {
    if p == |s| - 1 {
      assert false;
    }
    assert s[..|s| - 1][..p] == s[..p];
  }

  /** The top list has no repetitions, is as long as the limit and the number of distinct servers
      allow, and lists servers by first occurrence: every server it leaves out first occurs after
      every server it holds. */
  lemma TopListIsFirstOccurrences(ranked: seq<seq<ServerId>>, limit: nat)
    ensures var all, top := Flatten(ranked), Top(ranked, limit);
      && (forall i, j :: 0 <= i < j < |top| ==> top[i] != top[j])
      && |top| == (if |Elements(all)| <= limit then |Elements(all)| else limit)
      && (forall i, j, p, q :: 0 <= i < j < |top| && FirstAt(all, top[i], p) && FirstAt(all, top[j], q) ==> p < q)
      && (forall i, x, p, q :: 0 <= i < |top| && x !in top && FirstAt(all, top[i], p) && FirstAt(all, x, q) ==> p < q)
  {
    var all, top := Flatten(ranked), Top(ranked, limit);
    var distinct := Distinct(all);
    DistinctUnique(all);
    DistinctSize(all);
    forall i, j, p, q | 0 <= i < j < |distinct| && FirstAt(all, distinct[i], p) && FirstAt(all, distinct[j], q)
      ensures p < q
    {
      DistinctInOrder(all, i, j, p, q);
    }
    forall i, x, p, q | 0 <= i < |top| && x !in top && FirstAt(all, top[i], p) && FirstAt(all, x, q) ensures p < q {
      DistinctElements(all, x);
      assert x in distinct;
      var j :| 0 <= j < |distinct| && distinct[j] == x;
      assert j >= |top|;
      DistinctInOrder(all, i, j, p, q);
    }
  }

  // The order in terms of the buckets.

  /** `x` is in bucket `b` at rank `k`, and neither in a bucket before nor at a rank before. */
  ghost predicate FirstIn(ranked: seq<seq<ServerId>>, x: ServerId, b: nat, k: nat) {
    && b < |ranked| && k < |ranked[b]| && ranked[b][k] == x
    && (forall m :: 0 <= m < k ==> ranked[b][m] != x)
    && (forall c, m :: 0 <= c < b && 0 <= m < |ranked[c]| ==> ranked[c][m] != x)
  }

  /** How many servers the buckets before `b` hold. */
  function Before(ranked: seq<seq<ServerId>>, b: nat): nat
    requires b <= |ranked|
  {
    if b == 0 then 0 else Before(ranked, b - 1) + |ranked[b - 1]|
  }

  lemma {:induction false} BeforeGrows(ranked: seq<seq<ServerId>>, a: nat, b: nat)
    requires a < b <= |ranked|
    ensures Before(ranked, a) + |ranked[a]| <= Before(ranked, b)
  {
    if a + 1 < b {
      BeforeGrows(ranked, a, b - 1);
    }
  }

  lemma {:induction false} BeforeOfPrefix(ranked: seq<seq<ServerId>>, n: nat, b: nat)
    requires b <= n <= |ranked|
    ensures Before(ranked[..n], b) == Before(ranked, b)
  {
    if b > 0 {
      BeforeOfPrefix(ranked, n, b - 1);
    }
  }

  lemma {:induction false} FlattenAt(ranked: seq<seq<ServerId>>, b: nat, k: nat)
    requires b < |ranked| && k < |ranked[b]|
    ensures |Flatten(ranked)| == Before(ranked, |ranked|)
    ensures Before(ranked, b) + k < |Flatten(ranked)| && Flatten(ranked)[Before(ranked, b) + k] == ranked[b][k]
    decreases |ranked|
  {
    var n := |ranked| - 1;
    FlattenLength(ranked);
    FlattenLength(ranked[..n]);
    BeforeOfPrefix(ranked, n, n);
    BeforeGrows(ranked, b, n + 1);
    if b < n {
      FlattenAt(ranked[..n], b, k);
      BeforeOfPrefix(ranked, n, b);
    }
  }

  lemma {:induction false} FlattenLength(ranked: seq<seq<ServerId>>)
    ensures |Flatten(ranked)| == Before(ranked, |ranked|)
  {
    if ranked != [] {
      FlattenLength(ranked[..|ranked| - 1]);
      BeforeOfPrefix(ranked, |ranked| - 1, |ranked| - 1);
    }
  }

  lemma {:induction false} Located(ranked: seq<seq<ServerId>>, n: nat, p: nat) returns (b: nat, k: nat)
    requires n <= |ranked| && p < Before(ranked, n)
    ensures b < n && k < |ranked[b]| && p == Before(ranked, b) + k
  {
    if p < Before(ranked, n - 1) {
      b, k := Located(ranked, n - 1, p);
    } else {
      b, k := n - 1, p - Before(ranked, n - 1);
    }
  }

  lemma FirstInIsFirstAt(ranked: seq<seq<ServerId>>, x: ServerId, b: nat, k: nat)
    requires FirstIn(ranked, x, b, k)
    ensures FirstAt(Flatten(ranked), x, Before(ranked, b) + k)
  {
    var all, at := Flatten(ranked), Before(ranked, b) + k;
    FlattenAt(ranked, b, k);
    forall p | 0 <= p < at ensures all[p] != x {
      var c, m := Located(ranked, |ranked|, p);
      FlattenAt(ranked, c, m);
      if c > b {
        BeforeGrows(ranked, b, c);
      }
    }
  }

  /** Of two listed servers the one from the earlier bucket comes first, and of two from one bucket the one
      with the lower rank. */
  lemma TopInBucketOrder(
      ranked: seq<seq<ServerId>>, limit: nat, i: nat, j: nat, b: nat, k: nat, c: nat, m: nat)
    requires i < j < |Top(ranked, limit)|
    requires FirstIn(ranked, Top(ranked, limit)[i], b, k) && FirstIn(ranked, Top(ranked, limit)[j], c, m)
    ensures b < c || (b == c && k < m)
  {
    TopListIsFirstOccurrences(ranked, limit);
    FirstInIsFirstAt(ranked, Top(ranked, limit)[i], b, k);
    FirstInIsFirstAt(ranked, Top(ranked, limit)[j], c, m);
    if c < b {
      BeforeGrows(ranked, c, b);
    }
  }

  /** The merge loop: buckets in order, servers in rank order, stopping as soon as the list is full. */
  method MergeTop(ranked: seq<seq<ServerId>>, limit: nat) returns (top: seq<ServerId>)
    requires limit > 0
    ensures top == Top(ranked, limit)
  {
    var seen: set<ServerId> := {};
    top := [];
    ghost var all := Flatten(ranked);
    assert ranked[..0] == [];
    for i := 0 to |ranked|
      invariant top == Distinct(Flatten(ranked[..i])) && |top| < limit
      invariant SameServers(seen, top)
    {
      ghost var before := Flatten(ranked[..i]);
      assert ranked[..i + 1][..i] == ranked[..i];
      assert Flatten(ranked[..i + 1]) == before + ranked[i];
      var full: bool;
      ghost var read: nat;
      seen, top, full, read := MergeBucket(seen, top, ranked[i], limit, before);
      if full {
        FlattenPrefix(ranked, i + 1);
        assert before + ranked[i][..read] <= before + ranked[i];
        FullListIsTop(all, before + ranked[i][..read], ranked, limit);
        return;
      }
      assert ranked[i][..|ranked[i]|] == ranked[i];
    }
    assert ranked[..|ranked|] == ranked;
  }

  lemma DistinctStep(before: seq<ServerId>, bucket: seq<ServerId>, j: nat)
    requires j < |bucket|
    ensures var top := Distinct(before + bucket[..j]);
      Distinct(before + bucket[..j + 1]) == if bucket[j] in top then top else top + [bucket[j]]
  {
    var front, key := before + bucket[..j], bucket[j];
    DistinctElements(front, key);
    assert before + bucket[..j + 1] == front + [key];
    assert (front + [key])[..|front|] == front;
  }

  ghost predicate SameServers(seen: set<ServerId>, top: seq<ServerId>) {
    forall x :: x in seen <==> x in top
  }

  /** One bucket, until the list is full. */
  method MergeBucket(seen: set<ServerId>, top: seq<ServerId>, bucket: seq<ServerId>, limit: nat,
      ghost before: seq<ServerId>)
      returns (seen': set<ServerId>, top': seq<ServerId>, full: bool, ghost read: nat)
    requires top == Distinct(before) && |top| < limit && SameServers(seen, top)
    ensures read <= |bucket| && top' == Distinct(before + bucket[..read])
    ensures SameServers(seen', top')
    ensures if full then |top'| == limit else |top'| < limit && read == |bucket|
  {
    seen', top', full, read := seen, top, false, 0;
    assert before + bucket[..0] == before;
    for j := 0 to |bucket|
      invariant read == j && top' == Distinct(before + bucket[..j]) && |top'| < limit
      invariant SameServers(seen', top')
    {
      var key := bucket[j];
      read := j + 1;
      DistinctStep(before, bucket, j);
      if key !in seen' {
        seen' := seen' + {key};
        top' := top' + [key];
        if |top'| >= limit {
          full := true;
          return;
        }
      }
    }
  }

  lemma {:induction false} FlattenPrefix(ranked: seq<seq<ServerId>>, i: nat)
    requires i <= |ranked|
    ensures Flatten(ranked[..i]) <= Flatten(ranked)
  {
    if i == |ranked| {
      assert ranked[..i] == ranked;
    } else {
      FlattenPrefix(ranked[..|ranked| - 1], i);
      assert ranked[..|ranked| - 1][..i] == ranked[..i];
    }
  }

  lemma FullListIsTop(all: seq<ServerId>, part: seq<ServerId>, ranked: seq<seq<ServerId>>, limit: nat)
    requires all == Flatten(ranked) && part <= all
    requires |Distinct(part)| == limit
    ensures Distinct(part) == Top(ranked, limit)
  {
    assert all[..|part|] == part;
    DistinctOfPrefix(all, |part|);
  }

  // ----- the list of a snapshot -----

  /** The buckets of a snapshot as the sorted sets hand them out. Every server of a bucket has the
      bucket's own index for a score, so rank order is ascending server id. */
  ghost predicate RanksOf(ranked: seq<seq<ServerId>>, taken: seq<set<ServerId>>) {
    && |ranked| == |taken|
    && (forall b :: 0 <= b < |ranked| ==> Elements(ranked[b]) == taken[b])
    && (forall b, i, j :: 0 <= b < |ranked| && 0 <= i < j < |ranked[b]| ==> ranked[b][i] < ranked[b][j])
  }

  lemma {:induction false} FlattenElements(ranked: seq<seq<ServerId>>, x: ServerId)
    ensures x in Flatten(ranked) <==> exists b :: 0 <= b < |ranked| && x in ranked[b]
  {
    if ranked != [] {
      var front := ranked[..|ranked| - 1];
      FlattenElements(front, x);
      assert forall b :: 0 <= b < |front| ==> front[b] == ranked[b];
    }
  }

  /** Some bucket was given `x` in generation `g`. */
  ghost predicate GivenIn(s: State, g: nat, x: ServerId) {
    exists b :: 0 <= b < |s.channels| && x in CC.Logged(s.log, b, g)
  }

  /** A published list speaks of one generation: every server in it was given to some bucket in that
      generation, and when they fit it holds all of them. */
  lemma TopListOfOneGeneration(states: seq<State>, steps: seq<Step>, i: nat, k: nat, ranked: seq<seq<ServerId>>)
      returns (g: nat)
    requires IsRun(states, steps)
    requires i < |states|
    requires k < |states[i].snapshots| && states[i].snapshots[k].Merging?
    requires RanksOf(ranked, states[i].snapshots[k].taken)
    ensures var s, top := states[i], Top(ranked, TOP_SERVERS_COUNT);
      && g < |s.cuts|
      && |top| <= 10000
      && (forall x :: x in top ==> GivenIn(s, g, x))
      && (|Elements(Flatten(ranked))| <= 10000 ==>
            forall x :: GivenIn(s, g, x) ==> x in top)
  {
    CC.RunIsCutting(states, steps, i);
    var s, all, top := states[i], Flatten(ranked), Top(ranked, TOP_SERVERS_COUNT);
    var taken := s.snapshots[k].taken;
    g :| 0 <= g < |s.cuts| && s.cuts[g] == taken;
    assert CC.IsCut(s.log, taken, g);
    forall b, x | 0 <= b < |s.channels| ensures x in CC.Logged(s.log, b, g) <==> x in ranked[b] {
      assert Elements(ranked[b]) == taken[b];
    }
    forall x | x in top ensures GivenIn(s, g, x) {
      assert x in Distinct(all);
      DistinctElements(all, x);
      FlattenElements(ranked, x);
      var b :| 0 <= b < |ranked| && x in ranked[b];
      assert x in CC.Logged(s.log, b, g);
    }
    DistinctSize(all);
    forall x | GivenIn(s, g, x) ensures x in Distinct(all) {
      DistinctElements(all, x);
      FlattenElements(ranked, x);
    }
  }

  // ----- publishing -----

  function EncodeTop(top: seq<ServerId>): seq<byte> {
    Encode(8, TOP_SERVERS_VERSION) + Encode(4, |top|) + EncodeIds(top)
  }

  /** The encoder: a buffer with room for an address per server, of which only the written part is
      published. */
  method PublishTop(top: seq<ServerId>) returns (published: seq<byte>)
    requires |top| <= TOP_SERVERS_COUNT
    ensures published == EncodeTop(top)
  {
    var data := new byte[8 + 4 + |top| * MAX_SERVER_ADDRESS_LENGTH](_ => 0);
    WriteHeader(data, TOP_SERVERS_VERSION, |top|);
    WriteIds(data, 12, top);
    published := data[..12 + 8 * |top|];
  }

  /** The published bytes: the version, the number of servers and the servers, each word lowest byte
      first. */
  lemma PublishedBytes(top: seq<ServerId>)
    ensures var data := EncodeTop(top);
      && |data| == 12 + 8 * |top|
      && data[..8] == [1, 0, 0, 0, 0, 0, 0, 0]
      && Digits(data, 8, 4, |top|)
      && IdsAt(data, 12, top)
  {
    EncodeIsWord(4, |top|);
    VersionWord();
    EncodeIdsLength(top);
    TopBytes(EncodeTop(top), Encode(8, TOP_SERVERS_VERSION), Encode(4, |top|), top);
  }

  lemma TopBytes(data: seq<byte>, version: seq<byte>, count: seq<byte>, top: seq<ServerId>)
    requires data == version + count + EncodeIds(top) && |version| == 8 && IsWord(count, 4, |top|)
    ensures Holds(data, 0, version) && Digits(data, 8, 4, |top|) && IdsAt(data, 12, top)
  {
    HoldsThree(data, version, count, EncodeIds(top));
    HeldWord(data, 8, count, 4, |top|);
    AllIdBytes(data, 12, top);
  }

  method WriteHeader(data: array<byte>, version: nat, count: nat)
    requires data.Length >= 12
    modifies data
    ensures data[..12] == Encode(8, version) + Encode(4, count)
  {
    Write(data, 0, 8, version);
    assert data[..8] == data[..][..8];
    Write(data, 8, 4, count);
    assert data[..12] == data[..][..12];
  }

  method WriteIds(data: array<byte>, start: nat, ids: seq<ServerId>)
    requires start + 8 * |ids| <= data.Length
    modifies data
    ensures data[..start + 8 * |ids|] == old(data[..start]) + EncodeIds(ids)
  {
    var index := start;
    assert ids[..0] == [];
    for i := 0 to |ids|
      invariant index == start + 8 * i
      invariant data[..index] == old(data[..start]) + EncodeIds(ids[..i])
    {
      Write(data, index, 8, ids[i]);
      assert data[..index + 8] == data[..][..index + 8];
      index := index + 8;
      IdsSnoc(ids, i);
    }
    assert ids[..|ids|] == ids;
  }

  lemma {:induction false} IdsSnoc(ids: seq<ServerId>, i: nat)
    requires i < |ids|
    ensures EncodeIds(ids[..i + 1]) == EncodeIds(ids[..i]) + Encode(ID_BYTES, ids[i])
    decreases i
  {
    if i == 0 {
      assert ids[..1][1..] == [] && ids[..0] == [];
    } else {
      IdsSnoc(ids[1..], i - 1);
      assert ids[..i + 1][1..] == ids[1..][..i];
      assert ids[..i][1..] == ids[1..][..i - 1];
    }
  }

  /** The portal's reader. A server that cannot be read stays zero. */
  function DecodeTop(data: seq<byte>): Option<seq<ServerId>> {
    if |data| < 12 || Decode(data[..8]) != TOP_SERVERS_VERSION then None
    else Some(seq(Decode(data[8..12]), i requires 0 <= i => ServerAt(data, i)))
  }

  function ServerAt(data: seq<byte>, i: nat): ServerId {
    match Read(data, 12 + 8 * i, 8)
    case Some(id) => id
    case None => 0
  }

  method WatchTop(data: seq<byte>) returns (servers: Option<seq<ServerId>>)
    ensures servers == DecodeTop(data)
  {
    if |data| < 8 + 4 {
      return None;
    }
    var version := Decode(data[..8]);
    if version != TOP_SERVERS_VERSION {
      return None;
    }
    var numTopServers := Decode(data[8..12]);
    var ids := new ServerId[numTopServers](_ => 0);
    var index := 12;
    for i := 0 to numTopServers
      invariant index <= 12 + 8 * i && index <= |data|
      invariant index < 12 + 8 * i ==> index <= |data| < index + 8
      invariant forall k :: 0 <= k < i ==> ids[k] == ServerAt(data, k)
      invariant forall k :: i <= k < numTopServers ==> ids[k] == 0
    {
      var id := Read(data, index, 8);
      if id.Some? {
        ids[i] := id.value;
        index := index + 8;
      }
    }
    assert ids[..] == seq(numTopServers, i requires 0 <= i => ServerAt(data, i));
    servers := Some(ids[..]);
  }

  /** What the reader makes of any bytes: nothing unless they begin with the version and have room for a
      count; else as many servers as the count says, zero where the bytes run out. */
  lemma DecodeTopExactly(data: seq<byte>, i: nat)
    ensures DecodeTop(data).Some? <==> |data| >= 12 && data[..8] == [1, 0, 0, 0, 0, 0, 0, 0]
    ensures DecodeTop(data).Some? ==> |DecodeTop(data).value| == Decode(data[8..12])
    ensures DecodeTop(data).Some? && i < |DecodeTop(data).value| ==>
      DecodeTop(data).value[i] == if 20 + 8 * i <= |data| then Decode(data[12 + 8 * i..20 + 8 * i]) else 0
  {
    if |data| >= 12 {
      VersionWord();
      WordBounds();
      EncodeThenDecode(8, 1);
      DecodeThenEncode(data[..8]);
    }
  }

  lemma {:induction false} ServerReadsBack(prefix: seq<byte>, ids: seq<ServerId>, i: nat)
    requires IdsFit(ids) && i < |ids|
    ensures Read(prefix + EncodeIds(ids), |prefix| + 8 * i, 8) == Some(ids[i])
    decreases i
  {
    WordBounds();
    var head := Encode(ID_BYTES, ids[0]);
    if i == 0 {
      ReadAfterPrefix(prefix, ID_BYTES, ids[0], EncodeIds(ids[1..]));
      assert prefix + EncodeIds(ids) == prefix + head + EncodeIds(ids[1..]);
    } else {
      ServerReadsBack(prefix + head, ids[1..], i - 1);
      assert prefix + EncodeIds(ids) == (prefix + head) + EncodeIds(ids[1..]);
    }
  }

  lemma TopHeaderReadsBack(top: seq<ServerId>)
    requires |top| < U32
    ensures var data := EncodeTop(top);
      |data| >= 12 && Decode(data[..8]) == TOP_SERVERS_VERSION && Decode(data[8..12]) == |top|
  {
    WordBounds();
    var version, count := Encode(8, TOP_SERVERS_VERSION), Encode(4, |top|);
    EncodeThenDecode(8, TOP_SERVERS_VERSION);
    EncodeThenDecode(4, |top|);
    assert EncodeTop(top)[..8] == version;
    assert EncodeTop(top)[8..12] == count;
  }

  /** The portal reads back the list the cruncher published. */
  lemma PublishedListReadsBack(top: seq<ServerId>)
    requires |top| <= TOP_SERVERS_COUNT && IdsFit(top)
    ensures DecodeTop(EncodeTop(top)) == Some(top)
  {
    TopHeaderReadsBack(top);
    var header := Encode(8, TOP_SERVERS_VERSION) + Encode(4, |top|);
    forall i | 0 <= i < |top| ensures ServerAt(EncodeTop(top), i) == top[i] {
      ServerReadsBack(header, top, i);
    }
    assert seq(|top|, i requires 0 <= i => ServerAt(EncodeTop(top), i)) == top;
  }
}
