/** Finding out which seller hosts a server: the pattern search over whois output, and a cache that
    concurrent requests share. */
module Autodetect {
  import opened Common
  import opened Text

  // ----- the location in a datacenter name -----

  const PREFIX: string := "unity."

  predicate Lower(c: char) {
    'a' <= c <= 'z'
  }

  function Letters(s: string): (n: nat)
    ensures n <= |s|
    ensures forall i :: 0 <= i < n ==> Lower(s[i])
    ensures n < |s| ==> !Lower(s[n])
  {
    if s == [] || !Lower(s[0]) then 0 else 1 + Letters(s[1..])
  }

  /** The letters after the prefix; nothing may follow on another line. */
  function Location(datacenter: string): Option<string> {
    if !(PREFIX <= datacenter) || '\n' in datacenter then None
    else
      var rest := datacenter[|PREFIX|..];
      if Letters(rest) == 0 then None else Some(rest[..Letters(rest)])
  }

  /** A location is found exactly in a name on one line that has the prefix, then the location, then
      something that does not go on with a letter. */
  lemma LocationIs(datacenter: string, location: string)
    ensures Location(datacenter) == Some(location) <==>
      && location != [] && (forall i :: 0 <= i < |location| ==> 'a' <= location[i] <= 'z')
      && "unity." + location <= datacenter && '\n' !in datacenter
      && (6 + |location| < |datacenter| ==> !('a' <= datacenter[6 + |location|] <= 'z'))
  {
    if PREFIX + location <= datacenter {
      PrefixOfPrefix(PREFIX, location, datacenter);
    }
    if PREFIX <= datacenter {
      var rest := datacenter[|PREFIX|..];
      assert datacenter == PREFIX + rest;
      if PREFIX + location <= datacenter {
        assert datacenter[..|PREFIX + location|] == PREFIX + location;
        assert rest[..|location|] == location;
      }
      if location <= rest {
        assert PREFIX + location <= datacenter;
      }
    }
  }

  lemma PrefixOfPrefix(a: string, b: string, s: string)
    requires a + b <= s
    ensures a <= s
  {
    assert s[..|a|] == (a + b)[..|a|] == a;
  }

  function Key(location: string, address: string): string {
    PREFIX + location + ":" + address
  }

  /** Locations hold no colon, so a key tells location and address. */
  lemma KeysTellApart(a: string, b: string, location: string, address: string)
    requires forall i :: 0 <= i < |a| ==> Lower(a[i])
    requires forall i :: 0 <= i < |location| ==> Lower(location[i])
    requires Key(a, b) == Key(location, address)
    ensures a == location && b == address
  {
    assert Key(a, b)[|PREFIX|..] == a + ":" + b;
    assert Key(location, address)[|PREFIX|..] == location + ":" + address;
    assert a + ":" + b == a + (":" + b) && location + ":" + address == location + (":" + address);
    ReachOf(a, ":" + b, ':');
    ReachOf(location, ":" + address, ':');
    assert (a + ":" + b)[..|a|] == a && (location + ":" + address)[..|location|] == location;
    assert (a + ":" + b)[|a| + 1..] == b && (location + ":" + address)[|location| + 1..] == address;
  }

  // ----- the pattern search -----

  predicate Contains(text: string, word: string) {
    exists i :: 0 <= i <= |text| && word <= text[i..]
  }

  /** A pattern is a word and a seller with a comma between; anything else matches nothing. */
  predicate Matches(pattern: string, text: string) {
    |Split(pattern, ',')| == 2 && Contains(text, Split(pattern, ',')[0])
  }

  function SellerOf(pattern: string): string {
    if |Split(pattern, ',')| == 2 then Split(pattern, ',')[1] else ""
  }

  /** The seller of the first pattern that matches. */
  function Seller(patterns: seq<string>, text: string): string {
    if patterns == [] then ""
    else if Matches(patterns[0], text) then SellerOf(patterns[0])
    else Seller(patterns[1..], text)
  }

  ghost predicate FirstMatch(patterns: seq<string>, i: nat, text: string)
    requires i < |patterns|
  {
    Matches(patterns[i], text) && forall k :: 0 <= k < i ==> !Matches(patterns[k], text)
  }

  lemma {:induction false} SellerIsOfFirstMatch(patterns: seq<string>, text: string)
    ensures forall i :: 0 <= i < |patterns| && FirstMatch(patterns, i, text) ==>
      Seller(patterns, text) == SellerOf(patterns[i])
    ensures (forall i :: 0 <= i < |patterns| ==> !Matches(patterns[i], text)) ==> Seller(patterns, text) == ""
  {
    if patterns != [] {
      SellerIsOfFirstMatch(patterns[1..], text);
      forall i | 0 <= i < |patterns| && FirstMatch(patterns, i, text)
        ensures Seller(patterns, text) == SellerOf(patterns[i])
      {
        if i > 0 {
          assert FirstMatch(patterns[1..], i - 1, text);
        }
      }
    }
  }

  // A pattern with one comma is a word and a seller.

  ghost predicate Names(pattern: string, word: string, seller: string) {
    pattern == word + "," + seller && ',' !in word && ',' !in seller
  }

  ghost predicate Within(text: string, word: string) {
    exists before, after :: text == before + word + after
  }

  lemma ContainsIsWithin(text: string, word: string)
    ensures Contains(text, word) <==> Within(text, word)
  {
    if i :| 0 <= i <= |text| && word <= text[i..] {
      assert text == text[..i] + word + text[i..][|word|..];
    }
    if before, after :| text == before + word + after {
      assert text[|before|..] == word + after;
    }
  }

  lemma NamesSplit(pattern: string, word: string, seller: string)
    requires Names(pattern, word, seller)
    ensures Split(pattern, ',') == [word, seller]
  {
    assert Join([word, seller], ",") == pattern;
    SplitOfJoin([word, seller], ',');
  }

  lemma MatchesExactly(pattern: string, text: string)
    ensures Matches(pattern, text) <==> exists word, seller :: Names(pattern, word, seller) && Within(text, word)
  {
    if Matches(pattern, text) {
      var parts := Split(pattern, ',');
      JoinOfSplit(pattern, ',');
      assert pattern == parts[0] + "," + parts[1];
      ContainsIsWithin(text, parts[0]);
      assert Names(pattern, parts[0], parts[1]);
    }
    if word, seller :| Names(pattern, word, seller) && Within(text, word) {
      NamesSplit(pattern, word, seller);
      ContainsIsWithin(text, word);
    }
  }

  /** The search names the seller behind the comma of the first pattern whose word is in the text. */
  lemma SellerNamedFirst(patterns: seq<string>, text: string, i: nat, word: string, seller: string)
    requires i < |patterns| && Names(patterns[i], word, seller) && Within(text, word)
    requires forall k, w, t :: 0 <= k < i && Names(patterns[k], w, t) ==> !Within(text, w)
    ensures Seller(patterns, text) == seller
  {
    forall k | 0 <= k <= i ensures Matches(patterns[k], text) <==> k == i {
      MatchesExactly(patterns[k], text);
    }
    assert FirstMatch(patterns, i, text);
    SellerIsOfFirstMatch(patterns, text);
    NamesSplit(patterns[i], word, seller);
  }

  lemma NoSellerNamed(patterns: seq<string>, text: string)
    requires forall k, w, t :: 0 <= k < |patterns| && Names(patterns[k], w, t) ==> !Within(text, w)
    ensures Seller(patterns, text) == ""
  {
    forall k | 0 <= k < |patterns| ensures !Matches(patterns[k], text) {
      MatchesExactly(patterns[k], text);
    }
    SellerIsOfFirstMatch(patterns, text);
  }

  method FindSeller(patterns: seq<string>, text: string) returns (seller: string)
    ensures seller == Seller(patterns, text)
  {
    seller := "";
    for i := 0 to |patterns|
      invariant Seller(patterns[i..], text) == Seller(patterns, text)
      invariant seller == ""
    {
      var values := Split(patterns[i], ',');
      if |values| == 2 && Contains(text, values[0]) {
        seller := values[1];
        break;
      }
    }
  }

  /** What a whois server says, in lower case. */
  datatype Whois = Failed | Output(text: string)

  /** The second whois server is asked only when the first names no seller. */
  function Detect(patterns: seq<string>, first: Whois, second: Whois): Option<string> {
    if first.Failed? then None
    else if Seller(patterns, first.text) != "" then Some(Seller(patterns, first.text))
    else if second.Failed? || Seller(patterns, second.text) == "" then None
    else Some(Seller(patterns, second.text))
  }

  /** The first server's answer decides if it names a seller; the second's counts only if the first
      answered and named none; and nothing is found if the server whose turn it is fails. */
  lemma DetectExactly(patterns: seq<string>, first: Whois, second: Whois, seller: string)
    ensures Detect(patterns, first, second) == Some(seller) <==>
      && seller != "" && first.Output?
      && (|| Seller(patterns, first.text) == seller
          || (Seller(patterns, first.text) == "" && second.Output? && Seller(patterns, second.text) == seller))
  {
  }

  function Value(seller: string, location: string): string {
    seller + "." + location
  }

  /** One request at a time. */
  class Service {
    const patterns: seq<string>
    var cache: map<string, string>

    constructor (patterns: seq<string>)
      ensures this.patterns == patterns && cache == map[]
    {
      this.patterns := patterns;
      cache := map[];
    }

    /** Asks the whois servers in turn until one names a seller. */
    method AskWhois(answers: seq<Whois>) returns (seller: Option<string>)
      requires |answers| == 2
      ensures seller == Detect(patterns, answers[0], answers[1])
      ensures answers[0].Failed? ==> seller == None
      ensures answers[0].Output? && Seller(patterns, answers[0].text) != "" ==>
        seller == Some(Seller(patterns, answers[0].text))
      ensures answers[0].Output? && Seller(patterns, answers[0].text) == "" ==>
        seller == if answers[1].Failed? || Seller(patterns, answers[1].text) == "" then None
                  else Some(Seller(patterns, answers[1].text))
    {
      for iteration := 0 to 2
        invariant forall k :: 0 <= k < iteration ==> answers[k].Output? && Seller(patterns, answers[k].text) == ""
      {
        if answers[iteration].Failed? {
          return None;
        }
        var found := FindSeller(patterns, answers[iteration].text);
        if found != "" {
          return Some(found);
        }
      }
      return None;
    }

    method Handle(datacenter: string, address: string, first: Whois, second: Whois) returns (answer: Option<string>)
      modifies this
      ensures Location(datacenter).None? ==> answer == None && cache == old(cache)
      ensures Location(datacenter).Some? ==>
        var key := "unity." + Location(datacenter).value + ":" + address;
        if key in old(cache) then answer == Some(old(cache)[key]) && cache == old(cache)
        else match Detect(patterns, first, second)
          case None => answer == None && cache == old(cache)
          case Some(seller) =>
            && answer == Some(seller + "." + Location(datacenter).value)
            && cache == old(cache)[key := answer.value]
    {
      var location := Location(datacenter);
      if location.None? {
        return None;
      }
      var key := Key(location.value, address);
      if key in cache {
        return Some(cache[key]);
      }
      var seller := AskWhois([first, second]);
      if seller.None? {
        return None;
      }
      var value := Value(seller.value, location.value);
      cache := cache[key := value];
      return Some(value);
    }
  }

  // ----- requests that run at the same time -----

  datatype Request = Request(location: string, address: string)

  datatype Answer = Answer(request: Request, value: string)

  /** `pending` requests missed the cache and are asking whois; `found` and `answers` are history. */
  datatype State = State(
    cache: map<string, string>,
    pending: seq<Request>,
    found: set<(string, string)>,
    answers: seq<Answer>)

  datatype Step =
    | ArriveStep(datacenter: string, address: string)
    | FinishStep(p: nat, first: Whois, second: Whois)

  predicate Enabled(s: State, step: Step) {
    step.FinishStep? ==> step.p < |s.pending|
  }

  function Arrive(s: State, datacenter: string, address: string): State {
    match Location(datacenter)
    case None => s
    case Some(location) =>
      var request := Request(location, address);
      var key := Key(location, address);
      if key in s.cache then s.(answers := s.answers + [Answer(request, s.cache[key])])
      else s.(pending := s.pending + [request])
  }

  function Finish(patterns: seq<string>, s: State, p: nat, first: Whois, second: Whois): State
    requires p < |s.pending|
  {
    var request := s.pending[p];
    var rest := s.pending[..p] + s.pending[p + 1..];
    match Detect(patterns, first, second)
    case None => s.(pending := rest)
    case Some(seller) =>
      var value := Value(seller, request.location);
      State(s.cache[Key(request.location, request.address) := value], rest,
            s.found + {(request.address, seller)}, s.answers + [Answer(request, value)])
  }

  function Next(patterns: seq<string>, s: State, step: Step): State
    requires Enabled(s, step)
  {
    match step
    case ArriveStep(datacenter, address) => Arrive(s, datacenter, address)
    case FinishStep(p, first, second) => Finish(patterns, s, p, first, second)
  }

  ghost predicate IsRun(patterns: seq<string>, states: seq<State>, steps: seq<Step>) {
    && |states| == |steps| + 1
    && states[0] == State(map[], [], {}, [])
    && (forall i :: 0 <= i < |steps| ==>
          Enabled(states[i], steps[i]) && states[i + 1] == Next(patterns, states[i], steps[i]))
  }

  /** The value names the request's own location and a seller that whois gave for its own address. */
  ghost predicate Justified(s: State, request: Request, value: string) {
    exists seller :: (request.address, seller) in s.found && value == seller + "." + request.location
  }

  ghost predicate Proper(request: Request) {
    forall i :: 0 <= i < |request.location| ==> Lower(request.location[i])
  }

  ghost predicate CacheOk(s: State) {
    forall key :: key in s.cache ==>
      exists request ::
        Proper(request) && key == Key(request.location, request.address) && Justified(s, request, s.cache[key])
  }

  ghost predicate Sound(s: State) {
    && CacheOk(s)
    && (forall i :: 0 <= i < |s.pending| ==> Proper(s.pending[i]))
    && (forall i :: 0 <= i < |s.answers| ==> Justified(s, s.answers[i].request, s.answers[i].value))
  }

  lemma CachedIsJustified(s: State, request: Request)
    requires CacheOk(s) && Proper(request) && Key(request.location, request.address) in s.cache
    ensures Justified(s, request, s.cache[Key(request.location, request.address)])
  {
    var key := Key(request.location, request.address);
    var other :| Proper(other) && key == Key(other.location, other.address) && Justified(s, other, s.cache[key]);
    KeysTellApart(other.location, other.address, request.location, request.address);
  }

  lemma JustifiedStays(s: State, t: State, request: Request, value: string)
    requires Justified(s, request, value) && s.found <= t.found
    ensures Justified(t, request, value)
  {
    var seller :| (request.address, seller) in s.found && value == seller + "." + request.location;
    assert (request.address, seller) in t.found;
  }

  lemma ArriveKeepsSound(s: State, datacenter: string, address: string)
    requires Sound(s)
    ensures Sound(Arrive(s, datacenter, address))
  {
    var t := Arrive(s, datacenter, address);
    if Location(datacenter).Some? {
      var request := Request(Location(datacenter).value, address);
      assert Proper(request);
      if Key(request.location, address) in s.cache {
        CachedIsJustified(s, request);
      }
    }
    forall i | 0 <= i < |t.answers| ensures Justified(t, t.answers[i].request, t.answers[i].value) {
      assert Justified(s, t.answers[i].request, t.answers[i].value);
      JustifiedStays(s, t, t.answers[i].request, t.answers[i].value);
    }
    forall key | key in t.cache
      ensures exists r :: Proper(r) && key == Key(r.location, r.address) && Justified(t, r, t.cache[key])
    {
      var r :| Proper(r) && key == Key(r.location, r.address) && Justified(s, r, s.cache[key]);
      JustifiedStays(s, t, r, s.cache[key]);
    }
  }

  lemma FinishKeepsSound(patterns: seq<string>, s: State, p: nat, first: Whois, second: Whois)
    requires Sound(s) && p < |s.pending|
    ensures Sound(Finish(patterns, s, p, first, second))
  {
    var t := Finish(patterns, s, p, first, second);
    var request := s.pending[p];
    if Detect(patterns, first, second).Some? {
      var seller := Detect(patterns, first, second).value;
      assert (request.address, seller) in t.found;
      assert Justified(t, request, Value(seller, request.location));
    }
    forall i | 0 <= i < |t.answers| ensures Justified(t, t.answers[i].request, t.answers[i].value) {
      if i < |s.answers| {
        JustifiedStays(s, t, s.answers[i].request, s.answers[i].value);
      }
    }
    forall key | key in t.cache
      ensures exists r :: Proper(r) && key == Key(r.location, r.address) && Justified(t, r, t.cache[key])
    {
      if key in s.cache && t.cache[key] == s.cache[key] {
        var r :| Proper(r) && key == Key(r.location, r.address) && Justified(s, r, s.cache[key]);
        JustifiedStays(s, t, r, s.cache[key]);
      } else {
        assert key == Key(request.location, request.address);
      }
    }
  }

  lemma {:induction false} RunIsSound(patterns: seq<string>, states: seq<State>, steps: seq<Step>, i: nat)
    requires IsRun(patterns, states, steps) && i < |states|
    ensures Sound(states[i])
  {
    if i > 0 {
      RunIsSound(patterns, states, steps, i - 1);
      var s, step := states[i - 1], steps[i - 1];
      assert Enabled(s, step) && states[i] == Next(patterns, s, step);
      match step
      case ArriveStep(datacenter, address) => ArriveKeepsSound(s, datacenter, address);
      case FinishStep(p, first, second) => FinishKeepsSound(patterns, s, p, first, second);
    }
  }

  /** Whois never gave two sellers for one address. */
  ghost predicate Settled(s: State) {
    forall x, y :: x in s.found && y in s.found && x.0 == y.0 ==> x == y
  }

  /** However requests overlap, an answer from the cache is one that asking whois for the same server
      gave, with the location asked for; and if whois never changes its mind about a server, all
      answers to the same question are the same. */
  lemma AnswersAreJustified(patterns: seq<string>, states: seq<State>, steps: seq<Step>, i: nat, a: nat, b: nat)
    requires IsRun(patterns, states, steps) && i < |states|
    requires a < |states[i].answers| && b < |states[i].answers|
    ensures var s := states[i];
      && Justified(s, s.answers[a].request, s.answers[a].value)
      && (Settled(s) && s.answers[a].request == s.answers[b].request ==> s.answers[a].value == s.answers[b].value)
  {
    RunIsSound(patterns, states, steps, i);
  }

  /** Whoever was answered once is answered again at once: the answer stays in the cache under its key, so a
      new request for the same server and location is answered without asking whois. */
  lemma {:induction false} AnsweredIsCached(patterns: seq<string>, states: seq<State>, steps: seq<Step>, i: nat, a: nat)
    requires IsRun(patterns, states, steps) && i < |states| && a < |states[i].answers|
    ensures var request := states[i].answers[a].request;
      "unity." + request.location + ":" + request.address in states[i].cache
  {
    if i > 0 {
      var s, step := states[i - 1], steps[i - 1];
      assert Enabled(s, step) && states[i] == Next(patterns, s, step);
      if a < |s.answers| {
        AnsweredIsCached(patterns, states, steps, i - 1, a);
      }
    }
  }

  lemma CachedIsAnsweredAtOnce(s: State, datacenter: string, address: string)
    requires Location(datacenter).Some? && "unity." + Location(datacenter).value + ":" + address in s.cache
    ensures var t, location := Arrive(s, datacenter, address), Location(datacenter).value;
      && t.pending == s.pending && t.cache == s.cache
      && t.answers
         == s.answers + [Answer(Request(location, address), s.cache["unity." + location + ":" + address])]
  {
  }
}
