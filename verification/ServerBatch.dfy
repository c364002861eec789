/** The body of a server batch request: how the cruncher reads it and how the portal writes it. */
module ServerBatch {
  import opened LittleEndian
  import opened CruncherModel

  const BATCH_VERSION: nat := 1
  const ID_BYTES: nat := 8
  const COUNT_BYTES: nat := 4

  /** The handler's answer, and the channel sends it made before it answered. */
  datatype Verdict = Verdict(accepted: bool, deliveries: seq<Delivery>)

  // ----- the format -----

  function EncodeIds(ids: Batch): seq<byte> {
    if ids == [] then [] else Encode(ID_BYTES, ids[0]) + EncodeIds(ids[1..])
  }

  function EncodeLists(lists: seq<Batch>): seq<byte> {
    if lists == [] then []
    else Encode(COUNT_BYTES, |lists[0]|) + EncodeIds(lists[0]) + EncodeLists(lists[1..])
  }

  /** A request with the batch version, and what follows it. */
  predicate Versioned(request: seq<byte>, body: seq<byte>) {
    |request| >= 8 && Decode(request[..8]) == BATCH_VERSION && request[8..] == body
  }

  /** One send per list that is not empty; `first` is the bucket of the first list. */
  function Deliveries(lists: seq<Batch>, first: nat): seq<Delivery> {
    if lists == [] then []
    else (if lists[0] == [] then [] else [Delivery(first, lists[0])]) + Deliveries(lists[1..], first + 1)
  }

  predicate IdsFit(ids: Batch) {
    forall i :: 0 <= i < |ids| ==> ids[i] < U64
  }

  predicate FitsWire(lists: seq<Batch>) {
    forall i :: 0 <= i < |lists| ==> |lists[i]| < U32 && IdsFit(lists[i])
  }

  /** No list can be read here: the count is cut off, or claims more ids than there are bytes. */
  predicate Stuck(rest: seq<byte>) {
    |rest| < COUNT_BYTES || Decode(rest[..COUNT_BYTES]) > (|rest| - COUNT_BYTES) / ID_BYTES
  }

  // ----- the format, byte by byte -----

  /** Where list `b` begins. */
  function Offset(lists: seq<Batch>, b: nat): nat
    requires b <= |lists|
  {
    if b == 0 then 0 else Offset(lists, b - 1) + 4 + 8 * |lists[b - 1]|
  }

  /** Every id takes eight bytes. */
  lemma {:induction false} IdBytes(data: seq<byte>, start: nat, ids: Batch, i: nat)
    requires i < |ids| && Holds(data, start, EncodeIds(ids))
    ensures Digits(data, start + 8 * i, 8, ids[i])
    decreases i
  {
    HoldsBoth(data, start, Encode(ID_BYTES, ids[0]), EncodeIds(ids[1..]));
    if i == 0 {
      DigitsOf(data, start, 8, ids[0]);
    } else {
      IdBytes(data, start + 8, ids[1..], i - 1);
    }
  }

  ghost predicate IdsAt(data: seq<byte>, start: nat, ids: Batch) {
    forall i :: 0 <= i < |ids| ==> Digits(data, start + 8 * i, 8, ids[i])
  }

  lemma AllIdBytes(data: seq<byte>, start: nat, ids: Batch)
    requires Holds(data, start, EncodeIds(ids))
    ensures IdsAt(data, start, ids)
  {
    forall i | 0 <= i < |ids| ensures Digits(data, start + 8 * i, 8, ids[i]) {
      IdBytes(data, start, ids, i);
    }
  }

  /** A list is a count of four bytes and then its ids. */
  ghost predicate ListAt(data: seq<byte>, start: nat, ids: Batch) {
    Digits(data, start, 4, |ids|) && IdsAt(data, start + 4, ids)
  }

  lemma OneListBytes(data: seq<byte>, start: nat, count: seq<byte>, ids: Batch)
    requires IsWord(count, 4, |ids|) && Holds(data, start, count + EncodeIds(ids))
    ensures ListAt(data, start, ids)
  {
    HoldsBoth(data, start, count, EncodeIds(ids));
    AllIdBytes(data, start + 4, ids);
    HeldWord(data, start, count, 4, |ids|);
  }

  lemma {:induction false} OffsetOfRest(lists: seq<Batch>, b: nat)
    requires 0 < b <= |lists|
    ensures Offset(lists, b) == 4 + 8 * |lists[0]| + Offset(lists[1..], b - 1)
    decreases b
  {
    if b > 1 {
      OffsetOfRest(lists, b - 1);
    }
  }

  /** The whole format: every list where the lengths of those before it put it. */
  lemma {:induction false} ListBytes(data: seq<byte>, start: nat, lists: seq<Batch>, b: nat)
    requires b < |lists| && Holds(data, start, EncodeLists(lists))
    ensures ListAt(data, start + Offset(lists, b), lists[b])
    decreases b
  {
    var head := Encode(COUNT_BYTES, |lists[0]|) + EncodeIds(lists[0]);
    HoldsBoth(data, start, head, EncodeLists(lists[1..]));
    if b == 0 {
      EncodeIsWord(COUNT_BYTES, |lists[0]|);
      OneListBytes(data, start, Encode(COUNT_BYTES, |lists[0]|), lists[0]);
    } else {
      EncodeIdsLength(lists[0]);
      ListBytes(data, start + |head|, lists[1..], b - 1);
      OffsetOfRest(lists, b);
    }
  }

  // ----- reading -----

  function TakeIds(bytes: seq<byte>, count: nat): (ids: Batch)
    requires ID_BYTES * count <= |bytes|
    ensures |ids| == count
    decreases count
  {
    if count == 0 then [] else [Decode(bytes[..ID_BYTES])] + TakeIds(bytes[ID_BYTES..], count - 1)
  }

  /** The list that opens the bytes, and the bytes after it. */
  function FirstList(rest: seq<byte>): Batch
    requires !Stuck(rest)
  {
    TakeIds(rest[COUNT_BYTES..], Decode(rest[..COUNT_BYTES]))
  }

  function AfterFirstList(rest: seq<byte>): seq<byte>
    requires !Stuck(rest)
  {
    rest[COUNT_BYTES + ID_BYTES * Decode(rest[..COUNT_BYTES])..]
  }

  /** `rest` is the part of the body that has not been read yet. */
  function ParseRest(rest: seq<byte>, bucket: nat, buckets: nat): Verdict
    requires bucket <= buckets
    decreases buckets - bucket
  {
    if bucket == buckets then Verdict(true, [])
    else if Stuck(rest) then Verdict(false, [])
    else
      var batch := FirstList(rest);
      var others := ParseRest(AfterFirstList(rest), bucket + 1, buckets);
      Verdict(others.accepted, (if batch == [] then [] else [Delivery(bucket, batch)]) + others.deliveries)
  }

  function Parse(request: seq<byte>, buckets: nat): Verdict {
    if |request| < 8 || Decode(request[..8]) != BATCH_VERSION then Verdict(false, [])
    else ParseRest(request[8..], 0, buckets)
  }

  method HandleServerBatch(request: seq<byte>, buckets: nat) returns (verdict: Verdict)
    ensures verdict == Parse(request, buckets)
  {
    if |request| < 8 {
      return Verdict(false, []);
    }
    var version := Decode(request[..8]);
    if version != BATCH_VERSION {
      return Verdict(false, []);
    }
    verdict := HandleBody(request[8..], buckets);
  }

  method HandleBody(body: seq<byte>, buckets: nat) returns (verdict: Verdict)
    ensures verdict == ParseRest(body, 0, buckets)
  {
    var index: nat := 0;
    var sent: seq<Delivery> := [];
    ghost var whole := ParseRest(body, 0, buckets);
    assert body[index..] == body;
    for j := 0 to buckets
      invariant index <= |body|
      invariant whole == Prepend(sent, ParseRest(body[index..], j, buckets))
    {
      ghost var rest := body[index..];
      var ok: bool, batch: Batch;
      ok, batch, index := ReadList(body, index);
      if !ok {
        assert ParseRest(rest, j, buckets) == Verdict(false, []);
        return Verdict(false, sent);
      }
      ParseRestStep(rest, j, buckets, sent);
      if |batch| > 0 {
        sent := sent + [Delivery(j, batch)];
      }
    }
    return Verdict(true, sent);
  }

  function Prepend(sent: seq<Delivery>, verdict: Verdict): Verdict {
    verdict.(deliveries := sent + verdict.deliveries)
  }

  lemma ParseRestStep(rest: seq<byte>, bucket: nat, buckets: nat, sent: seq<Delivery>)
    requires bucket < buckets && !Stuck(rest)
    ensures Prepend(sent, ParseRest(rest, bucket, buckets))
         == Prepend(if FirstList(rest) == [] then sent else sent + [Delivery(bucket, FirstList(rest))],
                    ParseRest(AfterFirstList(rest), bucket + 1, buckets))
  {
  }

  /** One turn of the handler's loop: the count, the check against the remaining body, the ids. */
  method ReadList(body: seq<byte>, start: nat) returns (ok: bool, batch: Batch, index: nat)
    requires start <= |body|
    ensures ok <==> !Stuck(body[start..])
    ensures ok ==> batch == FirstList(body[start..])
    ensures index <= |body|
    ensures ok ==> body[index..] == AfterFirstList(body[start..])
  {
    ghost var rest := body[start..];
    ok, batch, index := false, [], start;
    var numUpdates := Read(body, index, COUNT_BYTES);
    if numUpdates.None? {
      return;
    }
    assert rest[..COUNT_BYTES] == body[index..index + COUNT_BYTES];
    index := index + COUNT_BYTES;
    if numUpdates.value > (|body| - index) / ID_BYTES {
      return;
    }
    assert rest[COUNT_BYTES..] == body[index..];
    batch, index := ReadBatch(body, index, numUpdates.value);
    ok := true;
  }

  method ReadBatch(body: seq<byte>, start: nat, count: nat) returns (batch: Batch, index: nat)
    requires start + ID_BYTES * count <= |body|
    ensures batch == TakeIds(body[start..], count)
    ensures index == start + ID_BYTES * count
  {
    var ids := new ServerId[count](_ => 0);
    index := start;
    for i := 0 to count
      invariant index == start + ID_BYTES * i
      invariant TakeIds(body[start..], count) == ids[..i] + TakeIds(body[index..], count - i)
    {
      var id := Read(body, index, ID_BYTES);
      assert id.Some?;
      assert body[index..][..ID_BYTES] == body[index..index + ID_BYTES];
      assert body[index..][ID_BYTES..] == body[index + ID_BYTES..];
      ids[i] := id.value;
      index := index + ID_BYTES;
      assert ids[..i + 1] == ids[..i] + [id.value];
    }
    batch := ids[..];
  }

  // ----- what the reader accepts -----

  lemma {:induction false} EncodeIdsLength(ids: Batch)
    ensures |EncodeIds(ids)| == ID_BYTES * |ids|
  {
    if ids != [] {
      EncodeIdsLength(ids[1..]);
    }
  }

  /** Ids read from any bytes encode back to those bytes. */
  lemma {:induction false} TakeThenEncodeIds(bytes: seq<byte>, count: nat)
    requires ID_BYTES * count <= |bytes|
    ensures EncodeIds(TakeIds(bytes, count)) == bytes[..ID_BYTES * count]
    ensures IdsFit(TakeIds(bytes, count))
    decreases count
  {
    if count > 0 {
      WordBounds();
      TakeThenEncodeIds(bytes[ID_BYTES..], count - 1);
      DecodeThenEncode(bytes[..ID_BYTES]);
    }
  }

  lemma {:induction false} EncodeThenTakeIds(ids: Batch, suffix: seq<byte>)
    requires IdsFit(ids)
    ensures |EncodeIds(ids)| == ID_BYTES * |ids|
    ensures TakeIds(EncodeIds(ids) + suffix, |ids|) == ids
    decreases |ids|
  {
    EncodeIdsLength(ids);
    if ids != [] {
      WordBounds();
      var head := Encode(ID_BYTES, ids[0]);
      var bytes := EncodeIds(ids) + suffix;
      assert bytes[..ID_BYTES] == head;
      assert bytes[ID_BYTES..] == EncodeIds(ids[1..]) + suffix;
      EncodeThenTakeIds(ids[1..], suffix);
      EncodeThenDecode(ID_BYTES, ids[0]);
    }
  }

  /** Bytes that are not stuck open with the encoding of one list. */
  lemma OpeningList(rest: seq<byte>)
    requires !Stuck(rest)
    ensures |FirstList(rest)| < U32 && IdsFit(FirstList(rest))
    ensures rest == Encode(COUNT_BYTES, |FirstList(rest)|) + EncodeIds(FirstList(rest)) + AfterFirstList(rest)
  {
    WordBounds();
    var count := Decode(rest[..COUNT_BYTES]);
    DecodeThenEncode(rest[..COUNT_BYTES]);
    TakeThenEncodeIds(rest[COUNT_BYTES..], count);
  }

  /** Whatever the bytes, the sends are exactly those of the lists that open them, up to the first
      list that cannot be read; they are accepted exactly when every bucket was read. */
  lemma {:induction false} ParseReadsLists(rest: seq<byte>, bucket: nat, buckets: nat)
      returns (lists: seq<Batch>, tail: seq<byte>)
    requires bucket <= buckets
    ensures FitsWire(lists)
    ensures rest == EncodeLists(lists) + tail
    ensures |lists| <= buckets - bucket
    ensures |lists| < buckets - bucket ==> Stuck(tail)
    ensures ParseRest(rest, bucket, buckets) == Verdict(|lists| == buckets - bucket, Deliveries(lists, bucket))
    decreases buckets - bucket
  {
    if bucket == buckets || Stuck(rest) {
      lists, tail := [], rest;
    } else {
      OpeningList(rest);
      var ids := FirstList(rest);
      var others: seq<Batch>;
      others, tail := ParseReadsLists(AfterFirstList(rest), bucket + 1, buckets);
      lists := [ids] + others;
      assert lists[1..] == others;
      assert EncodeLists(lists) == Encode(COUNT_BYTES, |ids|) + EncodeIds(ids) + EncodeLists(others);
    }
  }

  lemma CountReadsBack(count: nat, tail: seq<byte>)
    requires count < U32
    ensures Decode((Encode(COUNT_BYTES, count) + tail)[..COUNT_BYTES]) == count
  {
    WordBounds();
    assert (Encode(COUNT_BYTES, count) + tail)[..COUNT_BYTES] == Encode(COUNT_BYTES, count);
    EncodeThenDecode(COUNT_BYTES, count);
  }

  lemma ListReadsBack(ids: Batch, tail: seq<byte>)
    requires |ids| < U32 && IdsFit(ids)
    ensures var rest := Encode(COUNT_BYTES, |ids|) + (EncodeIds(ids) + tail);
      !Stuck(rest) && FirstList(rest) == ids && AfterFirstList(rest) == tail
  {
    CountReadsBack(|ids|, EncodeIds(ids) + tail);
    ListAfterCount(Encode(COUNT_BYTES, |ids|), ids, tail);
  }

  lemma Slices(count: seq<byte>, bytes: seq<byte>, tail: seq<byte>)
    ensures var rest := count + (bytes + tail);
      rest[..|count|] == count && rest[|count|..] == bytes + tail && rest[|count| + |bytes|..] == tail
  {
  }

  lemma RoomForIds(count: nat, more: nat)
    ensures (ID_BYTES * count + more) / ID_BYTES >= count
  {
  }

  lemma ListAfterCount(count: seq<byte>, ids: Batch, tail: seq<byte>)
    requires |count| == COUNT_BYTES && IdsFit(ids)
    requires Decode((count + (EncodeIds(ids) + tail))[..COUNT_BYTES]) == |ids|
    ensures var rest := count + (EncodeIds(ids) + tail);
      !Stuck(rest) && FirstList(rest) == ids && AfterFirstList(rest) == tail
  {
    EncodeThenTakeIds(ids, tail);
    Slices(count, EncodeIds(ids), tail);
    RoomForIds(|ids|, |tail|);
  }

  /** Lists read back from what was written, however many there are and whatever follows them. */
  lemma {:induction false} ParseOfLists(lists: seq<Batch>, tail: seq<byte>, bucket: nat, buckets: nat)
    requires FitsWire(lists)
    requires |lists| + bucket <= buckets
    requires |lists| + bucket < buckets ==> Stuck(tail)
    ensures ParseRest(EncodeLists(lists) + tail, bucket, buckets)
            == Verdict(|lists| + bucket == buckets, Deliveries(lists, bucket))
    decreases |lists|
  {
    if lists == [] {
      assert EncodeLists(lists) + tail == tail;
    } else {
      var others := EncodeLists(lists[1..]) + tail;
      assert EncodeLists(lists) + tail == Encode(COUNT_BYTES, |lists[0]|) + (EncodeIds(lists[0]) + others);
      ListReadsBack(lists[0], others);
      ParseOfLists(lists[1..], tail, bucket + 1, buckets);
    }
  }

  /** A request is accepted exactly when it is the version followed by one list per bucket, with
      anything after that; the sends are then those of the lists. */
  lemma AcceptsExactlyEncodings(request: seq<byte>, buckets: nat)
    ensures Parse(request, buckets).accepted <==>
      exists lists, tail :: FitsWire(lists) && |lists| == buckets && Versioned(request, EncodeLists(lists) + tail)
    ensures forall lists, tail ::
      FitsWire(lists) && |lists| == buckets && Versioned(request, EncodeLists(lists) + tail) ==>
        Parse(request, buckets).deliveries == Deliveries(lists, 0)
  {
    if Parse(request, buckets).accepted {
      var lists, tail := ParseReadsLists(request[8..], 0, buckets);
      assert Versioned(request, EncodeLists(lists) + tail);
    }
    forall lists, tail | FitsWire(lists) && |lists| == buckets && Versioned(request, EncodeLists(lists) + tail)
      ensures Parse(request, buckets) == Verdict(true, Deliveries(lists, 0))
    {
      ParseOfLists(lists, tail, 0, buckets);
    }
  }

  /** The first eight bytes of a request that is not refused for its version. */
  lemma VersionBytes(request: seq<byte>, buckets: nat)
    ensures |request| >= 8 && request[..8] == [1, 0, 0, 0, 0, 0, 0, 0] ==>
      Parse(request, buckets) == ParseRest(request[8..], 0, buckets)
    ensures |request| < 8 || request[..8] != [1, 0, 0, 0, 0, 0, 0, 0] ==> Parse(request, buckets) == Verdict(false, [])
  {
    if |request| >= 8 {
      VersionWord();
      WordBounds();
      EncodeThenDecode(8, 1);
      DecodeThenEncode(request[..8]);
    }
  }

  lemma VersionWord()
    ensures Encode(8, 1) == [1, 0, 0, 0, 0, 0, 0, 0]
  {
    ZeroBytes(7);
    assert Encode(8, 1) == [1] + Encode(7, 0);
  }

  lemma {:induction false} ZeroBytes(width: nat)
    ensures forall k :: 0 <= k < width ==> Encode(width, 0)[k] == 0
  {
    if width > 0 {
      ZeroBytes(width - 1);
    }
  }

  /** An accepted request, byte by byte: the version, then one list per bucket. The sends are, in the
      order of the buckets, one for each list that is not empty. */
  lemma AcceptedBytes(request: seq<byte>, buckets: nat) returns (lists: seq<Batch>)
    requires Parse(request, buckets).accepted
    ensures |lists| == buckets && |request| >= 8 && request[..8] == [1, 0, 0, 0, 0, 0, 0, 0]
    ensures forall b :: 0 <= b < buckets ==> ListAt(request, 8 + Offset(lists, b), lists[b])
    ensures forall d :: d in Parse(request, buckets).deliveries <==>
      d.bucket < buckets && lists[d.bucket] != [] && d.batch == lists[d.bucket]
    ensures BucketsAscend(Parse(request, buckets).deliveries)
  {
    VersionBytes(request, buckets);
    var tail: seq<byte>;
    lists, tail := ParseReadsLists(request[8..], 0, buckets);
    assert request[8..][..|EncodeLists(lists)|] == EncodeLists(lists);
    assert Holds(request, 8, EncodeLists(lists));
    forall b | 0 <= b < buckets ensures ListAt(request, 8 + Offset(lists, b), lists[b]) {
      ListBytes(request, 8, lists, b);
    }
    forall d ensures
      d in Deliveries(lists, 0) <==> d.bucket < buckets && lists[d.bucket] != [] && d.batch == lists[d.bucket]
    {
      DeliveriesAre(lists, 0, d);
    }
    DeliveriesAscend(lists, 0);
  }

  ghost predicate BucketsAscend(deliveries: seq<Delivery>) {
    forall i, j :: 0 <= i < j < |deliveries| ==> deliveries[i].bucket < deliveries[j].bucket
  }

  lemma {:induction false} DeliveriesAre(lists: seq<Batch>, first: nat, d: Delivery)
    ensures d in Deliveries(lists, first) <==>
      first <= d.bucket < first + |lists| && lists[d.bucket - first] != [] && d.batch == lists[d.bucket - first]
  {
    if lists != [] {
      var rest := Deliveries(lists[1..], first + 1);
      DeliveriesAre(lists[1..], first + 1, d);
      if lists[0] == [] {
        assert Deliveries(lists, first) == rest;
      } else {
        assert Deliveries(lists, first) == [Delivery(first, lists[0])] + rest;
      }
      if d.bucket > first {
        assert first + 1 <= d.bucket < first + |lists| ==> lists[1..][d.bucket - first - 1] == lists[d.bucket - first];
      }
    }
  }

  lemma {:induction false} DeliveriesAscend(lists: seq<Batch>, first: nat)
    ensures BucketsAscend(Deliveries(lists, first))
  {
    if lists != [] {
      var rest := Deliveries(lists[1..], first + 1);
      DeliveriesAscend(lists[1..], first + 1);
      forall i | 0 <= i < |rest| ensures rest[i].bucket > first {
        DeliveriesAre(lists[1..], first + 1, rest[i]);
      }
    }
  }

  /** A refused request has sent exactly the batches of the buckets before the one it broke off at. */
  lemma RefusedAfterPrefix(request: seq<byte>, buckets: nat) returns (lists: seq<Batch>, tail: seq<byte>)
    requires !Parse(request, buckets).accepted
    ensures |lists| <= buckets && FitsWire(lists)
    ensures Parse(request, buckets).deliveries == Deliveries(lists, 0)
    ensures lists == [] || (|lists| < buckets && Versioned(request, EncodeLists(lists) + tail) && Stuck(tail))
  {
    lists, tail := [], [];
    if |request| >= 8 && Decode(request[..8]) == BATCH_VERSION {
      lists, tail := ParseReadsLists(request[8..], 0, buckets);
    }
  }

  function Updates(deliveries: seq<Delivery>): nat {
    if deliveries == [] then 0 else |deliveries[0].batch| + Updates(deliveries[1..])
  }

  lemma {:induction false} UpdatesOfLists(lists: seq<Batch>, first: nat)
    ensures ID_BYTES * Updates(Deliveries(lists, first)) <= |EncodeLists(lists)|
  {
    if lists != [] {
      UpdatesOfLists(lists[1..], first + 1);
      EncodeIdsLength(lists[0]);
      if lists[0] != [] {
        assert Deliveries(lists, first)[1..] == Deliveries(lists[1..], first + 1);
      } else {
        assert Deliveries(lists, first) == Deliveries(lists[1..], first + 1);
      }
    }
  }

  /** However large the counts a body claims, the ids allocated for it fit in the body. */
  lemma AllocationIsBounded(request: seq<byte>, buckets: nat)
    ensures ID_BYTES * Updates(Parse(request, buckets).deliveries) <= |request|
  {
    if |request| >= 8 && Decode(request[..8]) == BATCH_VERSION {
      var lists, tail := ParseReadsLists(request[8..], 0, buckets);
      UpdatesOfLists(lists, 0);
    }
  }
}
