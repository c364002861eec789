/** The portal's side of the server batch: messages grouped by score bucket and written into a
    buffer that is allocated before anything is written. */
module BatchWriter {
  import opened Common
  import opened LittleEndian
  import opened CruncherModel
  import opened ServerBatch

  const NUM_BUCKETS: nat := 1000

  datatype Message = Message(serverId: ServerId, score: nat)

  function BucketOf(m: Message): (b: nat)
    ensures b < NUM_BUCKETS
  {
    if m.score < NUM_BUCKETS - 1 then m.score else NUM_BUCKETS - 1
  }

  /** The server ids of one bucket, in message order. */
  function Group(messages: seq<Message>, b: nat): Batch {
    if messages == [] then []
    else
      var last := messages[|messages| - 1];
      Group(messages[..|messages| - 1], b) + if BucketOf(last) == b then [last.serverId] else []
  }

  function Groups(messages: seq<Message>): (lists: seq<Batch>)
    ensures |lists| == NUM_BUCKETS
  {
    seq(NUM_BUCKETS, b requires 0 <= b => Group(messages, b))
  }

  /** The buffer is sized for one id per bucket, however many messages there are. */
  function BufferSize(): nat {
    8 + COUNT_BYTES * NUM_BUCKETS + ID_BYTES * NUM_BUCKETS
  }

  // ----- sizes -----

  function Total(lists: seq<Batch>): nat {
    if lists == [] then 0 else |lists[0]| + Total(lists[1..])
  }

  lemma {:induction false} EncodedLength(lists: seq<Batch>)
    ensures |EncodeLists(lists)| == COUNT_BYTES * |lists| + ID_BYTES * Total(lists)
  {
    if lists != [] {
      EncodeIdsLength(lists[0]);
      EncodedLength(lists[1..]);
    }
  }

  lemma {:induction false} TotalUpdate(lists: seq<Batch>, b: nat, batch: Batch)
    requires b < |lists|
    ensures Total(lists[b := batch]) == Total(lists) - |lists[b]| + |batch|
  {
    if b == 0 {
      assert lists[0 := batch][1..] == lists[1..];
    } else {
      assert lists[b := batch][1..] == lists[1..][b - 1 := batch];
      TotalUpdate(lists[1..], b - 1, batch);
    }
  }

  lemma {:induction false} TotalOfEmpty(lists: seq<Batch>)
    requires forall b :: 0 <= b < |lists| ==> lists[b] == []
    ensures Total(lists) == 0
  {
    if lists != [] {
      TotalOfEmpty(lists[1..]);
    }
  }

  /** Grouping keeps every message once. */
  lemma {:induction false} GroupsKeepAll(messages: seq<Message>)
    ensures Total(Groups(messages)) == |messages|
  {
    if messages == [] {
      TotalOfEmpty(Groups(messages));
    } else {
      var front, last := messages[..|messages| - 1], messages[|messages| - 1];
      var b := BucketOf(last);
      GroupsKeepAll(front);
      var updated := Groups(front)[b := Group(front, b) + [last.serverId]];
      forall c | 0 <= c < NUM_BUCKETS ensures Groups(messages)[c] == updated[c] {
        assert Groups(messages)[c] == Group(messages, c);
      }
      assert Groups(messages) == updated;
      TotalUpdate(Groups(front), b, Group(front, b) + [last.serverId]);
    }
  }

  lemma {:induction false} EncodeListsSplit(lists: seq<Batch>, i: nat)
    requires i <= |lists|
    ensures EncodeLists(lists) == EncodeLists(lists[..i]) + EncodeLists(lists[i..])
  {
    if i == 0 {
      assert lists[..0] == [] && lists[0..] == lists;
    } else {
      var head := Encode(COUNT_BYTES, |lists[0]|) + EncodeIds(lists[0]);
      EncodeListsSplit(lists[1..], i - 1);
      assert lists[..i][1..] == lists[1..][..i - 1];
      assert lists[1..][i - 1..] == lists[i..];
      assert EncodeLists(lists[..i]) == head + EncodeLists(lists[..i][1..]);
    }
  }

  lemma {:induction false} EncodeIdsSplit(ids: Batch, i: nat)
    requires i <= |ids|
    ensures EncodeIds(ids) == EncodeIds(ids[..i]) + EncodeIds(ids[i..])
  {
    if i == 0 {
      assert ids[..0] == [] && ids[0..] == ids;
    } else {
      EncodeIdsSplit(ids[1..], i - 1);
      assert ids[..i][1..] == ids[1..][..i - 1];
      assert ids[1..][i - 1..] == ids[i..];
    }
  }

  // ----- writing -----

  method GroupMessages(messages: seq<Message>) returns (lists: seq<Batch>)
    ensures lists == Groups(messages)
  {
    var batch := new Batch[NUM_BUCKETS](_ => []);
    for k := 0 to |messages|
      invariant forall b :: 0 <= b < NUM_BUCKETS ==> batch[b] == Group(messages[..k], b)
    {
      assert messages[..k + 1][..k] == messages[..k];
      var b := BucketOf(messages[k]);
      batch[b] := batch[b] + [messages[k].serverId];
    }
    assert messages[..|messages|] == messages;
    lists := batch[..];
  }

  /** Writes one value, or reports that the buffer has no room for it (a panic in the original). */
  method Put(data: array<byte>, index: nat, width: nat, value: nat) returns (fits: bool)
    requires index <= data.Length
    modifies data
    ensures fits <==> index + width <= data.Length
    ensures fits ==> data[..index + width] == old(data[..index]) + Encode(width, value)
  {
    fits := index + width <= data.Length;
    if fits {
      Write(data, index, width, value);
      assert data[..index + width] == data[..][..index + width];
    }
  }

  /** One turn: id `j` after those before it. */
  method PutId(data: array<byte>, start: nat, ids: Batch, j: nat, ghost opening: seq<byte>) returns (fits: bool)
    requires j < |ids| && start == |opening| + ID_BYTES * j <= data.Length
    requires data[..start] == opening + EncodeIds(ids[..j])
    modifies data
    ensures fits <==> start + ID_BYTES <= data.Length
    ensures fits ==> data[..start + ID_BYTES] == opening + EncodeIds(ids[..j + 1])
  {
    fits := Put(data, start, ID_BYTES, ids[j]);
    EncodeIdsSplit(ids[..j + 1], j);
    assert ids[..j + 1][..j] == ids[..j] && ids[..j + 1][j..] == [ids[j]];
    assert EncodeIds([ids[j]]) == Encode(ID_BYTES, ids[j]) + EncodeIds([]);
  }

  method PutList(data: array<byte>, start: nat, ids: Batch) returns (fits: bool, index: nat)
    requires start <= data.Length
    modifies data
    ensures fits <==> start + COUNT_BYTES + ID_BYTES * |ids| <= data.Length
    ensures fits ==> index == start + COUNT_BYTES + ID_BYTES * |ids|
    ensures fits ==> data[..index] == old(data[..start]) + Encode(COUNT_BYTES, |ids|) + EncodeIds(ids)
  {
    index := start;
    fits := Put(data, index, COUNT_BYTES, |ids|);
    if !fits {
      return;
    }
    index := index + COUNT_BYTES;
    ghost var opening := data[..index];
    assert ids[..0] == [];
    for j := 0 to |ids|
      invariant index == start + COUNT_BYTES + ID_BYTES * j <= data.Length
      invariant data[..index] == opening + EncodeIds(ids[..j])
    {
      fits := PutId(data, index, ids, j, opening);
      if !fits {
        return;
      }
      index := index + ID_BYTES;
    }
    assert ids[..|ids|] == ids;
  }

  /** One turn: list `i` after those before it. */
  method PutNext(data: array<byte>, start: nat, lists: seq<Batch>, i: nat, ghost header: seq<byte>)
      returns (fits: bool, index: nat)
    requires i < |lists| && start == |header| + |EncodeLists(lists[..i])| <= data.Length
    requires data[..start] == header + EncodeLists(lists[..i])
    modifies data
    ensures fits <==> |header| + |EncodeLists(lists[..i + 1])| <= data.Length
    ensures fits ==> index == |header| + |EncodeLists(lists[..i + 1])|
    ensures fits ==> data[..index] == header + EncodeLists(lists[..i + 1])
  {
    ListsSnoc(lists, i);
    EncodeIdsLength(lists[i]);
    fits, index := PutList(data, start, lists[i]);
  }

  /** The lists after the header, or nothing when they do not fit the buffer. */
  method PutLists(data: array<byte>, lists: seq<Batch>) returns (fits: bool, index: nat)
    requires data.Length >= 8
    modifies data
    ensures fits <==> 8 + |EncodeLists(lists)| <= data.Length
    ensures fits ==> index == 8 + |EncodeLists(lists)|
    ensures fits ==> data[..index] == old(data[..8]) + EncodeLists(lists)
  {
    index, fits := 8, true;
    ghost var header := data[..8];
    assert lists[..0] == [];
    for i := 0 to |lists|
      invariant fits
      invariant index == 8 + |EncodeLists(lists[..i])| <= data.Length
      invariant data[..index] == header + EncodeLists(lists[..i])
    {
      fits, index := PutNext(data, index, lists, i, header);
      if !fits {
        ListsSnoc(lists, i);
        return;
      }
    }
    assert lists[..|lists|] == lists;
  }

  /** One more list adds its count and its ids, and nothing after it makes the whole shorter. */
  lemma ListsSnoc(lists: seq<Batch>, i: nat)
    requires i < |lists|
    ensures EncodeLists(lists[..i + 1])
      == EncodeLists(lists[..i]) + Encode(COUNT_BYTES, |lists[i]|) + EncodeIds(lists[i])
    ensures |EncodeLists(lists[..i + 1])| <= |EncodeLists(lists)|
  {
    EncodeListsSplit(lists[..i + 1], i);
    assert lists[..i + 1][..i] == lists[..i] && lists[..i + 1][i..] == [lists[i]];
    assert EncodeLists([lists[i]]) == Encode(COUNT_BYTES, |lists[i]|) + EncodeIds(lists[i]) + EncodeLists([]);
    EncodeListsSplit(lists, i + 1);
  }

  /** What the portal posts. It gets a body out exactly when there are no more messages than
      buckets; with one more the write runs off the end of the buffer. */
  method SendBatch(messages: seq<Message>) returns (posted: Option<seq<byte>>)
    ensures posted.Some? <==> |messages| <= 1000
    ensures posted.Some? ==> posted.value == Encode(8, BATCH_VERSION) + EncodeLists(Groups(messages))
  {
    var lists := GroupMessages(messages);
    var data := new byte[BufferSize()](_ => 0);
    Write(data, 0, 8, BATCH_VERSION);
    assert data[..8] == data[..][..8] == Encode(8, BATCH_VERSION);
    var fits, index := PutLists(data, lists);
    GroupsKeepAll(messages);
    EncodedLength(lists);
    posted := if fits then Some(data[..index]) else None;
  }

  lemma {:induction false} GroupFits(messages: seq<Message>, b: nat)
    requires forall i :: 0 <= i < |messages| ==> messages[i].serverId < U64
    ensures IdsFit(Group(messages, b)) && |Group(messages, b)| <= |messages|
  {
    if messages != [] {
      GroupFits(messages[..|messages| - 1], b);
    }
  }

  /** Bucket `b` is for the servers with that score, the last one for all from 999 on. */
  predicate For(m: Message, b: nat) {
    m.score == b < 999 || b == 999 <= m.score
  }

  /** How many of the first `k` messages are for bucket `b`. */
  function CountFor(messages: seq<Message>, k: nat, b: nat): nat
    requires k <= |messages|
  {
    if k == 0 then 0
    else CountFor(messages, k - 1, b) + if For(messages[k - 1], b) then 1 else 0
  }

  lemma {:induction false} GroupLength(messages: seq<Message>, k: nat, b: nat)
    requires k <= |messages|
    ensures |Group(messages[..k], b)| == CountFor(messages, k, b)
  {
    if k > 0 {
      GroupLength(messages, k - 1, b);
      assert messages[..k][..k - 1] == messages[..k - 1];
    }
  }

  /** Every message is in the group of its own bucket, after exactly those sent to it before. */
  lemma {:induction false} GroupAt(messages: seq<Message>, k: nat, b: nat)
    requires k < |messages| && For(messages[k], b)
    ensures CountFor(messages, k, b) < |Group(messages, b)| == CountFor(messages, |messages|, b)
    ensures Group(messages, b)[CountFor(messages, k, b)] == messages[k].serverId
    decreases |messages|
  {
    var n := |messages| - 1;
    GroupLength(messages, |messages|, b);
    assert messages[..|messages|] == messages;
    if k == n {
      GroupLength(messages, n, b);
    } else {
      GroupAt(messages[..n], k, b);
      CountForPrefix(messages, n, k, b);
    }
  }

  lemma {:induction false} CountForPrefix(messages: seq<Message>, n: nat, k: nat, b: nat)
    requires k <= n <= |messages|
    ensures CountFor(messages[..n], k, b) == CountFor(messages, k, b)
  {
    if k > 0 {
      CountForPrefix(messages, n, k - 1, b);
    }
  }

  lemma VersionReadsBack(body: seq<byte>)
    ensures Versioned(Encode(8, BATCH_VERSION) + body, body)
  {
    WordBounds();
    EncodeThenDecode(8, BATCH_VERSION);
    var header := Encode(8, BATCH_VERSION);
    assert (header + body)[..8] == header;
  }

  /** A send to bucket `b` holds the server of message `k` after those of the messages before it. */
  ghost predicate IsDelivered(messages: seq<Message>, k: nat, b: nat, deliveries: seq<Delivery>)
    requires k < |messages|
  {
    exists batch ::
      && Delivery(b, batch) in deliveries
      && CountFor(messages, k, b) < |batch| == CountFor(messages, |messages|, b)
      && batch[CountFor(messages, k, b)] == messages[k].serverId
  }

  lemma GroupsAreDelivered(messages: seq<Message>)
    ensures forall k, b :: 0 <= k < |messages| && For(messages[k], b) ==>
      IsDelivered(messages, k, b, Deliveries(Groups(messages), 0))
  {
    forall k, b | 0 <= k < |messages| && For(messages[k], b)
      ensures IsDelivered(messages, k, b, Deliveries(Groups(messages), 0))
    {
      GroupAt(messages, k, b);
      DeliveriesAre(Groups(messages), 0, Delivery(b, Group(messages, b)));
    }
  }

  /** Every body the portal manages to post is accepted by the cruncher, which sends each bucket
      exactly its messages in order. */
  lemma PostedBatchIsDelivered(messages: seq<Message>)
    requires |messages| <= 1000
    requires forall i :: 0 <= i < |messages| ==> messages[i].serverId < U64
    ensures Parse(Encode(8, BATCH_VERSION) + EncodeLists(Groups(messages)), NUM_BUCKETS)
            == Verdict(true, Deliveries(Groups(messages), 0))
    ensures forall k, b :: 0 <= k < |messages| && For(messages[k], b) ==>
      IsDelivered(messages, k, b, Deliveries(Groups(messages), 0))
  {
    GroupsAreDelivered(messages);
    var lists := Groups(messages);
    var body := EncodeLists(lists);
    forall b | 0 <= b < |lists| ensures |lists[b]| < U32 && IdsFit(lists[b]) {
      GroupFits(messages, b);
    }
    VersionReadsBack(body);
    assert body + [] == body;
    AcceptsExactlyEncodings(Encode(8, BATCH_VERSION) + body, NUM_BUCKETS);
    assert FitsWire(lists) && Versioned(Encode(8, BATCH_VERSION) + body, EncodeLists(lists) + []);
  }
}
