/** Choosing the relays a client should ping: near the player first, then near the server. */
module ClientRelays {
  import opened Common
  import opened StableSort

  /** A position on the globe; distances between positions are whole kilometers. */
  datatype Place = Place(latitude: real, longitude: real)

  datatype Relay = Relay(id: nat, address: nat, place: Place)

  /** A relay with the distance it is being sorted by. */
  datatype Entry = Entry(relay: Relay, distance: int)

  /** The arguments that are the same for all relays. `distance` is the great circle distance and
      `detour` says that going through a place is too much slower than going direct. A negative
      maximum is never reached. */
  datatype Query = Query(
    max: int,
    threshold: int,
    source: Place,
    dest: Place,
    distance: (Place, Place) -> int,
    detour: Place -> bool)
  {
    function FromSource(r: Relay): int {
      distance(source, r.place)
    }

    function FromDest(r: Relay): int {
      distance(dest, r.place)
    }

    predicate Eligible(r: Relay) {
      !detour(r.place)
    }

    predicate Near(r: Relay) {
      FromSource(r) <= threshold
    }

    /** Nearest to the source first, then lowest id. */
    predicate SourceOrder(r: Relay, s: Relay) {
      FromSource(r) < FromSource(s) || (FromSource(r) == FromSource(s) && r.id < s.id)
    }

    /** Nearest to the destination first, then in source order. */
    predicate DestOrder(r: Relay, s: Relay) {
      FromDest(r) < FromDest(s) || (FromDest(r) == FromDest(s) && SourceOrder(r, s))
    }
  }

  ghost function SourceOrderOf(q: Query): (Relay, Relay) -> bool {
    (r, s) => q.SourceOrder(r, s)
  }

  ghost function DestOrderOf(q: Query): (Relay, Relay) -> bool {
    (r, s) => q.DestOrder(r, s)
  }

  predicate DistinctIds(relays: seq<Relay>) {
    forall i, j :: 0 <= i < j < |relays| ==> relays[i].id != relays[j].id
  }

  function Set(relays: seq<Relay>): set<Relay> {
    set r | r in relays
  }

  // ----- what the loops compute -----

  /** One selection loop: stop when full or at the first relay out of reach, skip detours. */
  function Pick(q: Query, reach: Relay -> bool, chosen: map<nat, Relay>, relays: seq<Relay>): map<nat, Relay>
    decreases |relays|
  {
    if relays == [] || |chosen| == q.max || !reach(relays[0]) then chosen
    else if !q.Eligible(relays[0]) then Pick(q, reach, chosen, relays[1..])
    else Pick(q, reach, chosen[relays[0].id := relays[0]], relays[1..])
  }

  function NearOf(q: Query): Relay -> bool {
    r => q.Near(r)
  }

  function Anywhere(): Relay -> bool {
    _ => true
  }

  function BySource(q: Query, relays: seq<Relay>): seq<Relay> {
    Sort(Sort(relays, (r: Relay) => r.id), (r: Relay) => q.FromSource(r))
  }

  function ByDest(q: Query, relays: seq<Relay>): seq<Relay> {
    Sort(BySource(q, relays), (r: Relay) => q.FromDest(r))
  }

  function NearSource(q: Query, relays: seq<Relay>): map<nat, Relay> {
    Pick(q, NearOf(q), map[], BySource(q, relays))
  }

  function Chosen(q: Query, relays: seq<Relay>): map<nat, Relay> {
    var first := NearSource(q, relays);
    if |first| == q.max then first else Pick(q, Anywhere(), first, ByDest(q, relays))
  }

  // ----- what they should compute -----

  /** How many relays of `pool` come before `r`. */
  ghost function RankIn(pool: set<Relay>, order: (Relay, Relay) -> bool, r: Relay): nat {
    |set p | p in pool && order(p, r)|
  }

  /** The first `count` relays of the pool; all of them when `count` is negative. */
  ghost function Least(pool: set<Relay>, order: (Relay, Relay) -> bool, count: int): set<Relay> {
    set r | r in pool && (count < 0 || RankIn(pool, order, r) < count)
  }

  ghost function EligibleOf(q: Query, all: set<Relay>): set<Relay> {
    set r | r in all && q.Eligible(r)
  }

  ghost function NearPool(q: Query, all: set<Relay>): set<Relay> {
    set r | r in EligibleOf(q, all) && q.Near(r)
  }

  /** Eligible relays within the threshold of the source, nearest first. */
  ghost function FirstChoice(q: Query, all: set<Relay>): set<Relay> {
    Least(NearPool(q, all), SourceOrderOf(q), q.max)
  }

  /** The places that are left go to the other eligible relays, nearest to the destination first. */
  ghost function Declared(q: Query, all: set<Relay>): set<Relay> {
    var first := FirstChoice(q, all);
    first + Least(EligibleOf(q, all) - first, DestOrderOf(q), if q.max < 0 then -1 else q.max - |first|)
  }

  // ----- the sorts -----

  lemma SortKeepsSet(s: seq<Relay>, key: Relay -> int)
    ensures Set(Sort(s, key)) == Set(s)
  {
    SortPermutes(s, key);
    assert forall r :: r in Sort(s, key) <==> r in multiset(Sort(s, key));
    assert forall r :: r in s <==> r in multiset(s);
  }

  /** Three stable sorts give the two lexicographic orders. */
  lemma SortsAreOrders(q: Query, relays: seq<Relay>)
    requires DistinctIds(relays)
    ensures Set(BySource(q, relays)) == Set(relays) == Set(ByDest(q, relays))
    ensures Ordered(BySource(q, relays), SourceOrderOf(q))
    ensures Ordered(ByDest(q, relays), DestOrderOf(q))
  {
    var id := (r: Relay) => r.id;
    var source := (r: Relay) => q.FromSource(r);
    var dest := (r: Relay) => q.FromDest(r);
    var different := (r: Relay, s: Relay) => r.id != s.id;
    var lower := (r: Relay, s: Relay) => r.id < s.id;
    var nearer := (r: Relay, s: Relay) => q.SourceOrder(r, s);
    assert Ordered(relays, different);
    SortLexOrdered(relays, id, different);
    SortKeepsSet(relays, id);
    assert Ordered(Sort(relays, id), lower);
    SortLexOrdered(Sort(relays, id), source, lower);
    SortKeepsSet(Sort(relays, id), source);
    assert Ordered(BySource(q, relays), nearer);
    SortLexOrdered(BySource(q, relays), dest, nearer);
    SortKeepsSet(BySource(q, relays), dest);
  }

  /** In any strict order, the same relays with the same distinct ids. */
  lemma OrderedIdsDistinct(relays: seq<Relay>, t: seq<Relay>, order: (Relay, Relay) -> bool)
    requires DistinctIds(relays) && Set(t) == Set(relays)
    requires Ordered(t, order) && forall r :: !order(r, r)
    ensures DistinctIds(t)
  {
    forall i, j | 0 <= i < j < |t| ensures t[i].id != t[j].id {
      assert t[i] in Set(t) && t[j] in Set(t);
      assert t[i] in relays && t[j] in relays;
      assert order(t[i], t[j]);
    }
  }

  // ----- one selection loop takes the first of the fresh relays -----

  /** The relays a selection loop would add if there were no maximum. */
  function Fresh(q: Query, reach: Relay -> bool, chosen: map<nat, Relay>, relays: seq<Relay>): seq<Relay> {
    if relays == [] then []
    else if q.Eligible(relays[0]) && reach(relays[0]) && relays[0].id !in chosen then
      [relays[0]] + Fresh(q, reach, chosen, relays[1..])
    else Fresh(q, reach, chosen, relays[1..])
  }

  function Take(q: Query, chosen: map<nat, Relay>, relays: seq<Relay>): seq<Relay> {
    if q.max < 0 || |relays| <= q.max - |chosen| then relays
    else if q.max < |chosen| then []
    else relays[..q.max - |chosen|]
  }

  function Add(chosen: map<nat, Relay>, relays: seq<Relay>): map<nat, Relay>
    decreases |relays|
  {
    if relays == [] then chosen else Add(chosen[relays[0].id := relays[0]], relays[1..])
  }

  /** Every id stands for the relay that has it. */
  ghost predicate Consistent(chosen: map<nat, Relay>, relays: seq<Relay>) {
    && (forall id :: id in chosen ==> chosen[id].id == id)
    && (forall i :: 0 <= i < |relays| && relays[i].id in chosen ==> chosen[relays[i].id] == relays[i])
  }

  lemma {:induction false} FreshIsSelected(q: Query, reach: Relay -> bool, chosen: map<nat, Relay>,
      relays: seq<Relay>, r: Relay)
    ensures r in Fresh(q, reach, chosen, relays) <==> r in relays && q.Eligible(r) && reach(r) && r.id !in chosen
  {
    if relays != [] {
      FreshIsSelected(q, reach, chosen, relays[1..], r);
      assert relays == [relays[0]] + relays[1..];
    }
  }

  lemma {:induction false} FreshIgnores(q: Query, reach: Relay -> bool, chosen: map<nat, Relay>, relays: seq<Relay>,
      extra: Relay)
    requires forall i :: 0 <= i < |relays| ==> relays[i].id != extra.id
    ensures Fresh(q, reach, chosen[extra.id := extra], relays) == Fresh(q, reach, chosen, relays)
  {
    if relays != [] {
      FreshIgnores(q, reach, chosen, relays[1..], extra);
    }
  }

  lemma {:induction false} FreshOutOfReach(q: Query, reach: Relay -> bool, chosen: map<nat, Relay>, relays: seq<Relay>)
    requires forall i :: 0 <= i < |relays| ==> !reach(relays[i])
    ensures Fresh(q, reach, chosen, relays) == []
  {
    if relays != [] {
      FreshOutOfReach(q, reach, chosen, relays[1..]);
    }
  }

  lemma {:induction false} PickTakesFresh(q: Query, reach: Relay -> bool, chosen: map<nat, Relay>, relays: seq<Relay>)
    requires DistinctIds(relays) && Consistent(chosen, relays)
    requires forall i, j :: 0 <= i < j < |relays| && reach(relays[j]) ==> reach(relays[i])
    requires q.max < 0 || |chosen| <= q.max
    ensures Pick(q, reach, chosen, relays) == Add(chosen, Take(q, chosen, Fresh(q, reach, chosen, relays)))
    decreases |relays|
  {
    if relays == [] || |chosen| == q.max {
    } else if !reach(relays[0]) {
      FreshOutOfReach(q, reach, chosen, relays);
    } else {
      var r, rest := relays[0], relays[1..];
      if !q.Eligible(r) {
        PickTakesFresh(q, reach, chosen, rest);
      } else if r.id in chosen {
        assert chosen[r.id := r] == chosen;
        PickTakesFresh(q, reach, chosen, rest);
      } else {
        var more := chosen[r.id := r];
        assert more.Keys == chosen.Keys + {r.id};
        assert |more| == |chosen| + 1;
        PickTakesFresh(q, reach, more, rest);
        FreshIgnores(q, reach, chosen, rest, r);
        TakeCons(q, chosen, r, Fresh(q, reach, chosen, rest));
      }
    }
  }

  lemma TakeCons(q: Query, chosen: map<nat, Relay>, r: Relay, rest: seq<Relay>)
    requires r.id !in chosen && (q.max < 0 || |chosen| < q.max)
    requires |chosen[r.id := r]| == |chosen| + 1
    ensures Take(q, chosen, [r] + rest) == [r] + Take(q, chosen[r.id := r], rest)
  {
  }

  predicate Has(chosen: map<nat, Relay>, r: Relay) {
    r.id in chosen && chosen[r.id] == r
  }

  lemma {:induction false} AddSize(chosen: map<nat, Relay>, relays: seq<Relay>)
    requires DistinctIds(relays)
    requires forall i :: 0 <= i < |relays| ==> relays[i].id !in chosen
    ensures |Add(chosen, relays)| == |chosen| + |relays|
    decreases |relays|
  {
    if relays != [] {
      var r := relays[0];
      var more := chosen[r.id := r];
      assert more.Keys == chosen.Keys + {r.id};
      AddSize(more, relays[1..]);
    }
  }

  lemma {:induction false} AddHolds(chosen: map<nat, Relay>, relays: seq<Relay>, r: Relay)
    requires DistinctIds(relays)
    requires forall id :: id in chosen ==> chosen[id].id == id
    requires forall i :: 0 <= i < |relays| ==> relays[i].id !in chosen
    ensures Has(Add(chosen, relays), r) <==> Has(chosen, r) || r in relays
    ensures forall id :: id in Add(chosen, relays) ==> Add(chosen, relays)[id].id == id
    decreases |relays|
  {
    if relays != [] {
      AddHolds(chosen[relays[0].id := relays[0]], relays[1..], r);
      assert relays == [relays[0]] + relays[1..];
    }
  }

  // ----- the first of an ordered sequence are its least -----

  lemma {:induction false} SetSize(s: seq<Relay>)
    requires forall i, j :: 0 <= i < j < |s| ==> s[i] != s[j]
    ensures |Set(s)| == |s|
  {
    if s != [] {
      var front, last := s[..|s| - 1], s[|s| - 1];
      SetSize(front);
      assert s == front + [last];
      assert Set(s) == Set(front) + {last} && last !in Set(front);
    } else {
      assert Set(s) == {};
    }
  }

  ghost predicate StrictlyOrdered(t: seq<Relay>, order: (Relay, Relay) -> bool) {
    forall i, j :: 0 <= i < j < |t| ==> order(t[i], t[j]) && !order(t[j], t[i]) && t[i] != t[j]
  }

  lemma RankIsIndex(t: seq<Relay>, order: (Relay, Relay) -> bool, i: nat)
    requires StrictlyOrdered(t, order) && i < |t|
    requires !order(t[i], t[i])
    ensures RankIn(Set(t), order, t[i]) == i
  {
    assert (set p | p in Set(t) && order(p, t[i])) == Set(t[..i]) by {
      forall p | p in Set(t) && order(p, t[i]) ensures p in t[..i] {
        var j :| 0 <= j < |t| && t[j] == p;
        assert j < i;
        assert t[..i][j] == p;
      }
      forall p | p in t[..i] ensures order(p, t[i]) {
        var j :| 0 <= j < i && t[..i][j] == p;
        assert t[j] == p;
      }
    }
    SetSize(t[..i]);
  }

  lemma FirstAreLeast(t: seq<Relay>, order: (Relay, Relay) -> bool, n: nat)
    requires StrictlyOrdered(t, order) && n <= |t|
    requires forall r :: !order(r, r)
    ensures Set(t[..n]) == Least(Set(t), order, n)
    ensures |Set(t[..n])| == n
  {
    forall r | r in Set(t) ensures r in Set(t[..n]) <==> RankIn(Set(t), order, r) < n {
      var i :| 0 <= i < |t| && t[i] == r;
      RankIsIndex(t, order, i);
      if i < n {
        assert t[..n][i] == r;
      }
    }
    SetSize(t[..n]);
  }

  lemma {:induction false} FreshOrdered(q: Query, reach: Relay -> bool, chosen: map<nat, Relay>, relays: seq<Relay>,
      order: (Relay, Relay) -> bool)
    requires StrictlyOrdered(relays, order)
    ensures StrictlyOrdered(Fresh(q, reach, chosen, relays), order)
  {
    if relays != [] {
      FreshOrdered(q, reach, chosen, relays[1..], order);
      forall r | r in Fresh(q, reach, chosen, relays[1..])
        ensures order(relays[0], r) && !order(r, relays[0]) && relays[0] != r
      {
        FreshIsSelected(q, reach, chosen, relays[1..], r);
        var i :| 0 <= i < |relays[1..]| && relays[1..][i] == r;
        assert relays[i + 1] == r;
      }
    }
  }

  /** The relays a selection loop may add, and how many of them; negative means all. */
  ghost function Pool(q: Query, reach: Relay -> bool, chosen: map<nat, Relay>, all: set<Relay>): set<Relay> {
    set r | r in all && q.Eligible(r) && reach(r) && r.id !in chosen
  }

  ghost function Room(q: Query, chosen: map<nat, Relay>): int {
    if q.max < 0 then -1 else q.max - |chosen|
  }

  function Limited(size: nat, room: int): nat {
    if room < 0 || size <= room then size else room
  }

  lemma FreshIsPool(q: Query, reach: Relay -> bool, chosen: map<nat, Relay>, relays: seq<Relay>)
    ensures Set(Fresh(q, reach, chosen, relays)) == Pool(q, reach, chosen, Set(relays))
  {
    forall r ensures r in Fresh(q, reach, chosen, relays) <==> r in Pool(q, reach, chosen, Set(relays)) {
      FreshIsSelected(q, reach, chosen, relays, r);
    }
  }

  lemma TakeIsLeast(q: Query, chosen: map<nat, Relay>, t: seq<Relay>, order: (Relay, Relay) -> bool)
    requires StrictlyOrdered(t, order) && forall r :: !order(r, r)
    requires q.max < 0 || |chosen| <= q.max
    ensures Set(Take(q, chosen, t)) == Least(Set(t), order, Room(q, chosen))
    ensures |Take(q, chosen, t)| == |Set(Take(q, chosen, t))| == Limited(|Set(t)|, Room(q, chosen))
  {
    SetSize(t);
    if q.max < 0 || |t| <= q.max - |chosen| {
      LeastOfAll(t, order, Room(q, chosen));
    } else {
      FirstAreLeast(t, order, q.max - |chosen|);
    }
  }

  /** What one selection loop adds, said without the loop: the least of the fresh relays, as many as
      there is room for. */
  lemma PickAddsLeast(q: Query, reach: Relay -> bool, chosen: map<nat, Relay>, relays: seq<Relay>,
      order: (Relay, Relay) -> bool)
    requires DistinctIds(relays) && Consistent(chosen, relays)
    requires StrictlyOrdered(relays, order) && forall r :: !order(r, r)
    requires forall i, j :: 0 <= i < j < |relays| && reach(relays[j]) ==> reach(relays[i])
    requires q.max < 0 || |chosen| <= q.max
    ensures var result := Pick(q, reach, chosen, relays);
      var pool := Pool(q, reach, chosen, Set(relays));
      var added := Least(pool, order, Room(q, chosen));
      && (forall r :: Has(result, r) <==> Has(chosen, r) || r in added)
      && (forall id :: id in result ==> result[id].id == id)
      && |result| == |chosen| + |added|
      && |added| == Limited(|pool|, Room(q, chosen))
  {
    var result := Pick(q, reach, chosen, relays);
    var t := Fresh(q, reach, chosen, relays);
    var taken := Take(q, chosen, t);
    PickTakesFresh(q, reach, chosen, relays);
    FreshOrdered(q, reach, chosen, relays, order);
    FreshIsPool(q, reach, chosen, relays);
    TakeIsLeast(q, chosen, t, order);
    FreshIdsDistinct(q, reach, chosen, relays);
    AddSize(chosen, taken);
    forall r ensures Has(result, r) <==> Has(chosen, r) || r in taken {
      AddHolds(chosen, taken, r);
    }
    forall id | id in result ensures result[id].id == id {
      AddHolds(chosen, taken, result[id]);
    }
  }

  /** With room for everything, the least are everything. */
  lemma LeastOfAll(t: seq<Relay>, order: (Relay, Relay) -> bool, count: int)
    requires StrictlyOrdered(t, order) && forall r :: !order(r, r)
    requires count < 0 || |t| <= count
    ensures Least(Set(t), order, count) == Set(t)
  {
    forall r | r in Set(t) ensures count < 0 || RankIn(Set(t), order, r) < count {
      var i :| 0 <= i < |t| && t[i] == r;
      RankIsIndex(t, order, i);
    }
  }

  lemma {:induction false} FreshIdsDistinct(q: Query, reach: Relay -> bool, chosen: map<nat, Relay>, relays: seq<Relay>)
    requires DistinctIds(relays)
    ensures var t := Fresh(q, reach, chosen, relays);
      DistinctIds(t) && forall i :: 0 <= i < |t| ==> t[i].id !in chosen
  {
    if relays != [] {
      var t := Fresh(q, reach, chosen, relays[1..]);
      FreshIdsDistinct(q, reach, chosen, relays[1..]);
      forall i | 0 <= i < |t| ensures t[i].id != relays[0].id {
        FreshIsSelected(q, reach, chosen, relays[1..], t[i]);
        assert t[i] in t;
        var j :| 0 <= j < |relays[1..]| && relays[1..][j] == t[i];
        assert relays[j + 1] == t[i];
      }
    }
  }

  // ----- the selection is the declared one -----

  lemma SameIdSameRelay(relays: seq<Relay>, r: Relay, s: Relay)
    requires DistinctIds(relays)
    requires r in relays && s in relays && r.id == s.id
    ensures r == s
  {
    var i :| 0 <= i < |relays| && relays[i] == r;
    var j :| 0 <= j < |relays| && relays[j] == s;
  }

  lemma NearSourceIsFirstChoice(q: Query, relays: seq<Relay>)
    requires DistinctIds(relays)
    ensures var m := NearSource(q, relays);
      && (forall r :: Has(m, r) <==> r in FirstChoice(q, Set(relays)))
      && (forall id :: id in m ==> m[id].id == id)
      && |m| == |FirstChoice(q, Set(relays))|
      && |m| == Limited(|NearPool(q, Set(relays))|, if q.max < 0 then -1 else q.max)
  {
    var all, t := Set(relays), BySource(q, relays);
    SortsAreOrders(q, relays);
    OrderedIdsDistinct(relays, t, SourceOrderOf(q));
    PickAddsLeast(q, NearOf(q), map[], t, SourceOrderOf(q));
    assert Pool(q, NearOf(q), map[], all) == NearPool(q, all);
    LeastIgnoresSign(Pool(q, NearOf(q), map[], all), SourceOrderOf(q), Room(q, map[]), q.max);
  }

  lemma LeastIgnoresSign(pool: set<Relay>, order: (Relay, Relay) -> bool, a: int, b: int)
    requires a == b || (a < 0 && b < 0)
    ensures Least(pool, order, a) == Least(pool, order, b)
  {
  }

  lemma LeftoverPool(q: Query, relays: seq<Relay>, t: seq<Relay>, m: map<nat, Relay>, first: set<Relay>)
    requires DistinctIds(relays)
    requires forall r :: Has(m, r) <==> r in first
    requires forall id :: id in m ==> m[id].id == id
    requires first <= Set(relays) == Set(t)
    ensures Pool(q, Anywhere(), m, Set(relays)) == EligibleOf(q, Set(relays)) - first
    ensures Consistent(m, t)
  {
    forall r | r in relays && r.id in m ensures m[r.id] == r {
      assert Has(m, m[r.id]);
      SameIdSameRelay(relays, r, m[r.id]);
    }
    forall i | 0 <= i < |t| && t[i].id in m ensures m[t[i].id] == t[i] {
      assert t[i] in Set(t);
    }
  }

  /** For distinct ids the relays returned are exactly the declared ones, each under its own id, and
      there are as many as the maximum and the number of eligible relays allow. */
  lemma ChosenIsDeclared(q: Query, relays: seq<Relay>)
    requires DistinctIds(relays)
    ensures var m, all := Chosen(q, relays), Set(relays);
      && (forall r :: Has(m, r) <==> r in Declared(q, all))
      && (forall id :: id in m ==> m[id].id == id)
      && FirstChoice(q, all) <= Declared(q, all) <= EligibleOf(q, all)
      && |m| == Limited(|EligibleOf(q, all)|, if q.max < 0 then -1 else q.max)
  {
    var all, t := Set(relays), ByDest(q, relays);
    var m, first, eligible := NearSource(q, relays), FirstChoice(q, all), EligibleOf(q, all);
    NearSourceIsFirstChoice(q, relays);
    SubsetSize(first, eligible);
    if |m| == q.max {
      assert Least(eligible - first, DestOrderOf(q), 0) == {};
    } else {
      SortsAreOrders(q, relays);
      OrderedIdsDistinct(relays, t, DestOrderOf(q));
      LeftoverPool(q, relays, t, m, first);
      PickAddsLeast(q, Anywhere(), m, t, DestOrderOf(q));
      assert |eligible - first| == |eligible| - |first|;
    }
  }

  /** In a total order a lower rank comes first. */
  lemma LowerRankIsBefore(pool: set<Relay>, order: (Relay, Relay) -> bool, r: Relay, s: Relay)
    requires order(r, s) || order(s, r)
    requires forall p :: order(p, s) && order(s, r) ==> order(p, r)
    requires RankIn(pool, order, r) < RankIn(pool, order, s)
    ensures order(r, s)
  {
    if order(s, r) {
      SubsetSize((set p | p in pool && order(p, s)), (set p | p in pool && order(p, r)));
    }
  }

  lemma RankIsBelowSize(pool: set<Relay>, order: (Relay, Relay) -> bool, r: Relay)
    requires r in pool && !order(r, r)
    ensures RankIn(pool, order, r) < |pool|
  {
    var before := set p | p in pool && order(p, r);
    SubsetSize(before + {r}, pool);
  }

  lemma ProperSubsetSize(a: set<Relay>, b: set<Relay>, s: Relay)
    requires a <= b && s in b && s !in a
    ensures |a| < |b|
  {
    SubsetSize(a + {s}, b);
  }

  /** If a near relay is left out of the first choice, that choice fills all places. */
  lemma FirstChoiceIsFull(q: Query, relays: seq<Relay>, s: Relay)
    requires DistinctIds(relays) && s in NearPool(q, Set(relays)) && s !in FirstChoice(q, Set(relays))
    ensures |FirstChoice(q, Set(relays))| == q.max && Declared(q, Set(relays)) == FirstChoice(q, Set(relays))
  {
    var all := Set(relays);
    var first := FirstChoice(q, all);
    NearSourceIsFirstChoice(q, relays);
    ProperSubsetSize(first, NearPool(q, all), s);
    assert Least(EligibleOf(q, all) - first, DestOrderOf(q), 0) == {};
  }

  lemma SkippedNear(q: Query, relays: seq<Relay>, r: Relay, s: Relay)
    requires DistinctIds(relays) && r in relays && s in relays
    requires r in Declared(q, Set(relays)) && s in NearPool(q, Set(relays)) && s !in Declared(q, Set(relays))
    ensures q.Near(r) && q.SourceOrder(r, s)
  {
    FirstChoiceIsFull(q, relays, s);
    if r.id == s.id {
      SameIdSameRelay(relays, r, s);
    }
    LowerRankIsBefore(NearPool(q, Set(relays)), SourceOrderOf(q), r, s);
  }

  lemma SkippedFar(q: Query, relays: seq<Relay>, r: Relay, s: Relay)
    requires DistinctIds(relays) && r in relays && s in relays && !q.Near(r)
    requires r in Declared(q, Set(relays)) && s in EligibleOf(q, Set(relays)) && s !in Declared(q, Set(relays))
    ensures q.DestOrder(r, s)
  {
    if r.id == s.id {
      SameIdSameRelay(relays, r, s);
    }
    LowerRankIsBefore(EligibleOf(q, Set(relays)) - FirstChoice(q, Set(relays)), DestOrderOf(q), r, s);
  }

  lemma FullWhenSkipping(q: Query, all: set<Relay>, s: Relay)
    requires s in EligibleOf(q, all) && s !in Declared(q, all)
    requires FirstChoice(q, all) <= EligibleOf(q, all)
    ensures 0 <= q.max < |EligibleOf(q, all)|
  {
    var eligible, first := EligibleOf(q, all), FirstChoice(q, all);
    assert q.max >= 0;
    RankIsBelowSize(eligible - first, DestOrderOf(q), s);
    assert |eligible - first| == |eligible| - |first|;
  }

  lemma SkippedByDistance(q: Query, relays: seq<Relay>, r: Relay, s: Relay)
    requires DistinctIds(relays) && r in relays && s in relays && !q.detour(s.place)
    requires r in Declared(q, Set(relays)) && s !in Declared(q, Set(relays))
    ensures var rs, ss := q.distance(q.source, r.place), q.distance(q.source, s.place);
      var rd, sd := q.distance(q.dest, r.place), q.distance(q.dest, s.place);
      if ss <= q.threshold then rs < ss || (rs == ss && r.id < s.id)
      else rs <= q.threshold || rd < sd || (rd == sd && (rs < ss || (rs == ss && r.id < s.id)))
  {
    if q.Near(s) {
      SkippedNear(q, relays, r, s);
    } else if !q.Near(r) {
      SkippedFar(q, relays, r, s);
    }
  }

  /** Why a relay that would have done is not chosen, in terms of distances only. The choice is full, and:
      if the relay is within the threshold of the source, every chosen relay is nearer to the source, or as
      near with a lower id; if not, every chosen relay beyond the threshold is nearer to the destination,
      or as near and then nearer to the source, or as near again with a lower id. */
  lemma NotChosenExactly(q: Query, relays: seq<Relay>, r: Relay, s: Relay)
    requires DistinctIds(relays) && r in relays && s in relays
    requires Has(Chosen(q, relays), r)
    ensures !q.detour(r.place)
    ensures !q.detour(s.place) && !Has(Chosen(q, relays), s) ==>
      && |Chosen(q, relays)| == q.max
      && var rs, ss := q.distance(q.source, r.place), q.distance(q.source, s.place);
      var rd, sd := q.distance(q.dest, r.place), q.distance(q.dest, s.place);
      if ss <= q.threshold then rs < ss || (rs == ss && r.id < s.id)
      else rs <= q.threshold || rd < sd || (rd == sd && (rs < ss || (rs == ss && r.id < s.id)))
  {
    ChosenIsDeclared(q, relays);
    assert r in Declared(q, Set(relays));
    if !q.detour(s.place) && !Has(Chosen(q, relays), s) {
      assert s in EligibleOf(q, Set(relays)) && s !in Declared(q, Set(relays));
      FullWhenSkipping(q, Set(relays), s);
      SkippedByDistance(q, relays, r, s);
    }
  }

  lemma MapsWithSameRelays(m: map<nat, Relay>, n: map<nat, Relay>)
    requires forall id :: id in m ==> m[id].id == id
    requires forall id :: id in n ==> n[id].id == id
    requires forall r :: Has(m, r) <==> Has(n, r)
    ensures m == n
  {
    forall id | id in m ensures id in n && n[id] == m[id] {
      assert Has(m, m[id]);
    }
    forall id | id in n ensures id in m {
      assert Has(n, n[id]);
    }
  }

  /** The order the relays are given in makes no difference. */
  lemma ChosenIgnoresOrder(q: Query, relays: seq<Relay>, shuffled: seq<Relay>)
    requires DistinctIds(relays)
    requires multiset(shuffled) == multiset(relays)
    ensures Chosen(q, shuffled) == Chosen(q, relays)
  {
    assert Set(shuffled) == Set(relays) by {
      assert forall r :: r in shuffled <==> r in multiset(shuffled);
      assert forall r :: r in relays <==> r in multiset(relays);
    }
    ShuffledIdsDistinct(relays, shuffled);
    ChosenIsDeclared(q, relays);
    ChosenIsDeclared(q, shuffled);
    MapsWithSameRelays(Chosen(q, shuffled), Chosen(q, relays));
  }

  lemma {:induction false} DistinctCount(s: seq<Relay>, r: Relay)
    requires DistinctIds(s)
    ensures multiset(s)[r] <= 1
  {
    if s != [] {
      var front, last := s[..|s| - 1], s[|s| - 1];
      DistinctCount(front, r);
      assert s == front + [last];
      if r == last {
        assert r !in front;
        assert r !in multiset(front);
      }
    }
  }

  lemma CountsTwice(s: seq<Relay>, i: nat, j: nat)
    requires i < j < |s| && s[i] == s[j]
    ensures multiset(s)[s[i]] >= 2
  {
    assert s == s[..j] + s[j..];
    assert s[i] == s[..j][i] && s[j] == s[j..][0];
    assert s[i] in multiset(s[..j]) && s[i] in multiset(s[j..]);
  }

  lemma ShuffledIdsDistinct(relays: seq<Relay>, shuffled: seq<Relay>)
    requires DistinctIds(relays)
    requires multiset(shuffled) == multiset(relays)
    ensures DistinctIds(shuffled)
  {
    forall i, j | 0 <= i < j < |shuffled| ensures shuffled[i].id != shuffled[j].id {
      var r, s := shuffled[i], shuffled[j];
      assert r in multiset(shuffled) && s in multiset(shuffled);
      if r.id == s.id {
        SameIdSameRelay(relays, r, s);
        DistinctCount(relays, r);
        CountsTwice(shuffled, i, j);
      }
    }
  }
}
