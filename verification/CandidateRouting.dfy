/**
  How the gateway chooses and orders the routes of a request (internal/gateway/handlers.go): one lookup per
  requested model, the provider preferences as a chain of filters, and a stable sort by a comparator with
  seven criteria. The contracts say what comes out without the chain: all the candidates that satisfy every
  preference, in the lexicographic order of provider rank, sort key and position in the request.
*/
module CandidateRouting {
  import opened Integers
  import opened Options
  import opened Text
  import opened Sorting

  /** A route with its provider and prices; `modelIndex` is the position of the model in the request. */
  datatype Candidate = Candidate(modelIndex: nat, publicName: string, priority: int, weight: int,
                                 providerID: string, inputPrice: int, outputPrice: int, parameters: set<string>)

  datatype Lookup = Missing | WrongProtocol | Found(candidate: Candidate)

  datatype Preferences = Preferences(order: seq<string>, only: seq<string>, ignored: seq<string>,
                                     allowFallbacks: Option<bool>, requireParameters: bool,
                                     maxPrice: Option<PriceLimits>, sort: string)

  datatype PriceLimits = PriceLimits(prompt: real, completion: real)

  datatype Answer = ModelNotFound | ProtocolMismatch | NoRoutes | Routes(candidates: seq<Candidate>)

  function PricePerToken(value: int): real
  {
    if value <= 0 then 0.0 else value as real / 100000000000000.0
  }

  predicate WithinLimits(c: Candidate, limits: PriceLimits)
  {
    && !(limits.prompt > 0.0 && PricePerToken(c.inputPrice) > limits.prompt)
    && !(limits.completion > 0.0 && PricePerToken(c.outputPrice) > limits.completion)
  }

  // ----- what a request asks for

  ghost function Names(values: seq<string>): set<string>
  {
    set i | 0 <= i < |values| :: TrimSpace(values[i])
  }

  /** The candidate satisfies every preference. */
  ghost predicate Acceptable(prefs: Preferences, required: seq<string>, c: Candidate)
  {
    && (prefs.only != [] ==> c.providerID in Names(prefs.only))
    && c.providerID !in Names(prefs.ignored)
    && (prefs.requireParameters ==> forall p :: p in required ==> p in c.parameters)
    && (prefs.maxPrice.Some? ==> WithinLimits(c, prefs.maxPrice.value))
    && (prefs.order != [] && prefs.allowFallbacks == Some(false) ==> c.providerID in Names(prefs.order))
  }

  /** Where a provider stands in the preferred order: at its last mention, or after all distinct names. */
  ghost function Rank(order: seq<string>, provider: string): nat
  {
    if order == [] then 0
    else if provider in Names(order) then LastMention(order, provider)
    else |Names(order)|
  }

  ghost function LastMention(order: seq<string>, provider: string): (i: nat)
    requires provider in Names(order)
    ensures i < |order| && TrimSpace(order[i]) == provider
    ensures forall j :: i < j < |order| ==> TrimSpace(order[j]) != provider
  {
    var k := |order| - 1;
    if TrimSpace(order[k]) == provider then k
    else
      var i := LastMention(order[..k], provider);
      assert forall j :: i < j < k ==> order[..k][j] == order[j];
      i
  }

  function SortKey(sort: string, c: Candidate): int
  {
    if sort == "price" then WrapInt64(c.inputPrice + c.outputPrice)
    else if sort == "priority" || sort == "latency" then c.priority
    else if sort == "throughput" then -c.weight
    else 0
  }

  /** The intended order: provider rank, then sort key, then position in the request. */
  ghost predicate Before(prefs: Preferences, l: Candidate, r: Candidate)
  {
    var lRank, rRank := Rank(prefs.order, l.providerID), Rank(prefs.order, r.providerID);
    var lKey, rKey := SortKey(prefs.sort, l), SortKey(prefs.sort, r);
    lRank < rRank || (lRank == rRank && (lKey < rKey || (lKey == rKey && l.modelIndex < r.modelIndex)))
  }

  ghost predicate InOrder(prefs: Preferences, s: seq<Candidate>)
  {
    forall i, j :: 0 <= i < j < |s| ==> Before(prefs, s[i], s[j])
  }

  /** The candidate that the request's `i`th model resolves to. */
  function CandidateAt(lookups: seq<Lookup>, i: nat): Candidate
    requires i < |lookups| && lookups[i].Found?
  {
    lookups[i].candidate.(modelIndex := i)
  }

  ghost predicate Offered(lookups: seq<Lookup>, c: Candidate)
  {
    c.modelIndex < |lookups| && lookups[c.modelIndex].Found? && c == CandidateAt(lookups, c.modelIndex)
  }

  /** The right answer: exactly the acceptable candidates on offer, in the intended order. */
  ghost predicate IsAnswer(lookups: seq<Lookup>, prefs: Preferences, required: seq<string>, s: seq<Candidate>)
  {
    && InOrder(prefs, s)
    && forall c :: c in s <==> Offered(lookups, c) && Acceptable(prefs, required, c)
  }

  /** There is at most one right answer. */
  lemma AnswerIsUnique(lookups: seq<Lookup>, prefs: Preferences, required: seq<string>,
                       a: seq<Candidate>, b: seq<Candidate>)
    requires IsAnswer(lookups, prefs, required, a) && IsAnswer(lookups, prefs, required, b)
    ensures a == b
  {
    SameMembersSameOrder(prefs, a, b);
  }

  lemma {:induction false} SameMembersSameOrder(prefs: Preferences, a: seq<Candidate>, b: seq<Candidate>)
    requires InOrder(prefs, a) && InOrder(prefs, b) && forall c :: c in a <==> c in b
    ensures a == b
  {
    assert a != [] ==> a[0] in b;
    assert b != [] ==> b[0] in a;
    if a != [] {
      HeadComesFirst(prefs, a, b);
      HeadComesFirst(prefs, b, a);
      assert a == [a[0]] + a[1..] && b == [b[0]] + b[1..];
      forall c ensures c in a[1..] <==> c in b[1..] {
        HeadIsOnce(prefs, a, c);
        HeadIsOnce(prefs, b, c);
      }
      SameMembersSameOrder(prefs, a[1..], b[1..]);
    }
  }

  lemma HeadComesFirst(prefs: Preferences, a: seq<Candidate>, b: seq<Candidate>)
    requires a != [] && b != [] && InOrder(prefs, a) && b[0] in a
    ensures a[0] == b[0] || Before(prefs, a[0], b[0])
  {
    var i :| 0 <= i < |a| && a[i] == b[0];
  }

  lemma HeadIsOnce(prefs: Preferences, a: seq<Candidate>, c: Candidate)
    requires a != [] && InOrder(prefs, a)
    ensures c in a[1..] <==> c in a && c != a[0]
  {
    if c in a[1..] {
      var i :| 0 <= i < |a[1..]| && a[1..][i] == c;
      assert Before(prefs, a[0], a[i + 1]);
    }
    if c in a && c != a[0] {
      var i :| 0 <= i < |a| && a[i] == c;
      assert c == a[1..][i - 1];
    }
  }

  // ----- the comparator as it is written

  /** `compareCandidateSort`: the answer, if the sort key decides. */
  function CompareCandidateSort(l: Candidate, r: Candidate, sort: string): Option<bool>
  {
    if sort == "price" then
      var lPrice, rPrice := WrapInt64(l.inputPrice + l.outputPrice), WrapInt64(r.inputPrice + r.outputPrice);
      if lPrice != rPrice then Some(lPrice < rPrice) else None
    else if sort == "priority" || sort == "latency" then
      if l.priority != r.priority then Some(l.priority < r.priority) else None
    else if sort == "throughput" then
      if l.weight != r.weight then Some(l.weight > r.weight) else None
    else None
  }

  predicate Compare(providerOrder: map<string, nat>, sort: string, l: Candidate, r: Candidate)
  {
    var lRank, rRank := RankIn(providerOrder, l.providerID), RankIn(providerOrder, r.providerID);
    if |providerOrder| > 0 && lRank != rRank then lRank < rRank
    else if CompareCandidateSort(l, r, sort).Some? then CompareCandidateSort(l, r, sort).value
    else if l.modelIndex != r.modelIndex then l.modelIndex < r.modelIndex
    else if l.priority != r.priority then l.priority < r.priority
    else if l.weight != r.weight then l.weight > r.weight
    else if l.providerID != r.providerID then StringLess(l.providerID, r.providerID)
    else StringLess(l.publicName, r.publicName)
  }

  /** The map that the code builds from the preferred order. */
  ghost predicate IsProviderOrder(order: seq<string>, providerOrder: map<string, nat>)
  {
    && providerOrder.Keys == Names(order)
    && forall p :: p in providerOrder ==> providerOrder[p] == LastMention(order, p)
  }

  function RankIn(providerOrder: map<string, nat>, provider: string): nat
  {
    if provider in providerOrder then providerOrder[provider] else |providerOrder|
  }

  lemma RankIsMapped(order: seq<string>, providerOrder: map<string, nat>, provider: string)
    requires IsProviderOrder(order, providerOrder)
    ensures Rank(order, provider) == if |providerOrder| > 0 then RankIn(providerOrder, provider) else 0
  {
    assert |providerOrder| == |providerOrder.Keys|;
    if order != [] {
      assert TrimSpace(order[0]) in Names(order);
    }
  }

  lemma KeyDecides(l: Candidate, r: Candidate, sort: string)
    ensures var lKey, rKey := SortKey(sort, l), SortKey(sort, r);
            CompareCandidateSort(l, r, sort) == if lKey != rKey then Some(lKey < rKey) else None
  {
  }

  /** Between candidates of different models the comparator is the intended order; its last four criteria
      are never reached. */
  lemma ComparatorIsOrder(prefs: Preferences, providerOrder: map<string, nat>, l: Candidate, r: Candidate)
    requires IsProviderOrder(prefs.order, providerOrder) && l.modelIndex != r.modelIndex
    ensures Compare(providerOrder, prefs.sort, l, r) <==> Before(prefs, l, r)
  {
    RankIsMapped(prefs.order, providerOrder, l.providerID);
    RankIsMapped(prefs.order, providerOrder, r.providerID);
    KeyDecides(l, r, prefs.sort);
  }

  /** Candidates of pairwise different models, in the order of the request. */
  ghost predicate Increasing(s: seq<Candidate>)
  {
    forall i, j :: 0 <= i < j < |s| ==> s[i].modelIndex < s[j].modelIndex
  }

  lemma IncreasingIsDistinct(s: seq<Candidate>, x: Candidate, y: Candidate)
    requires Increasing(s) && x in s && y in s && x.modelIndex == y.modelIndex
    ensures x == y
  {
    var i :| 0 <= i < |s| && s[i] == x;
    var j :| 0 <= j < |s| && s[j] == y;
  }

  /** On such candidates the comparator is a strict total order, so neither the sorting algorithm nor its
      stability matters. */
  lemma ComparatorIsTotal(prefs: Preferences, providerOrder: map<string, nat>, s: seq<Candidate>)
    requires IsProviderOrder(prefs.order, providerOrder) && Increasing(s)
    ensures OrdersAll((l, r) => Compare(providerOrder, prefs.sort, l, r), s)
    ensures OrdersWeakly((l, r) => Compare(providerOrder, prefs.sort, l, r), s)
  {
    var less := (l, r) => Compare(providerOrder, prefs.sort, l, r);
    forall x, y | x in s && y in s
      ensures less(x, y) <==> x != y && Before(prefs, x, y)
    {
      if x == y {
        StringLessIsTotal(x.publicName, x.publicName);
      } else {
        if x.modelIndex == y.modelIndex { IncreasingIsDistinct(s, x, y); }
        ComparatorIsOrder(prefs, providerOrder, x, y);
      }
    }
    forall x, y | x in s && y in s ensures less(x, y) || less(y, x) || x == y {
      if x.modelIndex == y.modelIndex { IncreasingIsDistinct(s, x, y); }
    }
  }

  // ----- the algorithm

  method SliceToSet(values: seq<string>) returns (names: set<string>)
    ensures names == Names(values)
  {
    names := {};
    for i := 0 to |values|
      invariant names == Names(values[..i])
    {
      NamesSnoc(values, i);
      names := names + {TrimSpace(values[i])};
    }
    assert values[..|values|] == values;
  }

  lemma NamesSnoc(values: seq<string>, i: nat)
    requires i < |values|
    ensures Names(values[..i + 1]) == Names(values[..i]) + {TrimSpace(values[i])}
  {
    var now, before := values[..i + 1], values[..i];
    forall p | p in Names(now) ensures p in Names(before) + {TrimSpace(values[i])} {
      var j :| 0 <= j < |now| && p == TrimSpace(now[j]);
      if j < i { assert before[j] == now[j]; }
    }
    forall p | p in Names(before) ensures p in Names(now) {
      var j :| 0 <= j < |before| && p == TrimSpace(before[j]);
      assert before[j] == now[j];
    }
    assert now[i] == values[i];
  }

  method FilterCandidates(candidates: seq<Candidate>, allow: Candidate -> bool) returns (filtered: seq<Candidate>)
    requires Increasing(candidates)
    ensures Increasing(filtered)
    ensures forall c :: c in filtered <==> c in candidates && allow(c)
  {
    filtered := [];
    for i := 0 to |candidates|
      invariant Increasing(filtered)
      invariant forall c :: c in filtered <==> c in candidates[..i] && allow(c)
      invariant forall k :: 0 <= k < |filtered| && i < |candidates| ==>
                  filtered[k].modelIndex < candidates[i].modelIndex
    {
      assert candidates[..i + 1] == candidates[..i] + [candidates[i]];
      if allow(candidates[i]) {
        filtered := filtered + [candidates[i]];
      }
    }
    assert candidates[..|candidates|] == candidates;
  }

  method BuildProviderOrder(order: seq<string>) returns (providerOrder: map<string, nat>)
    ensures IsProviderOrder(order, providerOrder)
  {
    providerOrder := map[];
    for i := 0 to |order|
      invariant IsProviderOrder(order[..i], providerOrder)
    {
      NamesSnoc(order, i);
      assert order[..i + 1][..i] == order[..i];
      providerOrder := providerOrder[TrimSpace(order[i]) := i];
    }
    assert order[..|order|] == order;
  }

  /** `sortCandidates` */
  method SortCandidates(candidates: seq<Candidate>, prefs: Preferences) returns (sorted: seq<Candidate>)
    requires Increasing(candidates)
    ensures InOrder(prefs, sorted)
    ensures forall c :: c in sorted <==>
              c in candidates
              && (prefs.order != [] && prefs.allowFallbacks == Some(false) ==> c.providerID in Names(prefs.order))
  {
    var allowFallbacks := true;
    if prefs.allowFallbacks.Some? {
      allowFallbacks := prefs.allowFallbacks.value;
    }
    var kept := candidates;
    if prefs.order != [] && !allowFallbacks {
      var orderedProviders := SliceToSet(prefs.order);
      kept := FilterCandidates(candidates, (c: Candidate) => c.providerID in orderedProviders);
    }
    var providerOrder := BuildProviderOrder(prefs.order);
    sorted := Sort((l, r) => Compare(providerOrder, prefs.sort, l, r), kept);
    SortedIsInOrder(prefs, providerOrder, kept);
  }

  lemma SortedIsInOrder(prefs: Preferences, providerOrder: map<string, nat>, s: seq<Candidate>)
    requires IsProviderOrder(prefs.order, providerOrder) && Increasing(s)
    ensures var sorted := Sort((l, r) => Compare(providerOrder, prefs.sort, l, r), s);
            InOrder(prefs, sorted) && forall c :: c in sorted <==> c in s
  {
    var less := (l, r) => Compare(providerOrder, prefs.sort, l, r);
    var sorted := Sort(less, s);
    ComparatorIsTotal(prefs, providerOrder, s);
    SortSorts(less, s);
    forall c ensures c in sorted <==> c in s { SameElements(sorted, s, c); }
    DistinctStays(s, sorted);
    forall i, j | 0 <= i < j < |sorted| ensures Before(prefs, sorted[i], sorted[j]) {
      assert !less(sorted[j], sorted[i]);
      assert sorted[i] in s && sorted[j] in s;
      if sorted[i].modelIndex == sorted[j].modelIndex { IncreasingIsDistinct(s, sorted[i], sorted[j]); }
      ComparatorIsOrder(prefs, providerOrder, sorted[i], sorted[j]);
      ComparatorIsOrder(prefs, providerOrder, sorted[j], sorted[i]);
    }
  }

  /** The first loop of `resolveCandidates`: only the first lookup may fail the request. */
  method CollectCandidates(lookups: seq<Lookup>) returns (answer: Answer)
    requires |lookups| > 0
    ensures lookups[0].Missing? ==> answer == ModelNotFound
    ensures lookups[0].WrongProtocol? ==> answer == ProtocolMismatch
    ensures lookups[0].Found? ==>
              && answer.Routes? && Increasing(answer.candidates)
              && forall c :: c in answer.candidates <==> Offered(lookups, c)
  {
    var candidates: seq<Candidate> := [];
    for i := 0 to |lookups|
      invariant i > 0 ==> lookups[0].Found?
      invariant Increasing(candidates) && forall k :: 0 <= k < |candidates| ==> candidates[k].modelIndex < i
      invariant forall c :: c in candidates <==> c.modelIndex < i && Offered(lookups, c)
    {
      match lookups[i]
      case Missing =>
        if i == 0 {
          return ModelNotFound;
        }
      case WrongProtocol =>
        if i == 0 {
          return ProtocolMismatch;
        }
      case Found(candidate) =>
        candidates := candidates + [candidate.(modelIndex := i)];
    }
    return Routes(candidates);
  }

  /** The filters of `resolveCandidates`, one after the other. */
  method ApplyPreferences(offered: seq<Candidate>, prefs: Preferences, required: seq<string>)
    returns (candidates: seq<Candidate>)
    requires Increasing(offered)
    ensures InOrder(prefs, candidates)
    ensures forall c :: c in candidates <==> c in offered && Acceptable(prefs, required, c)
  {
    candidates := offered;
    if prefs.only != [] {
      var allowed := SliceToSet(prefs.only);
      candidates := FilterCandidates(candidates, (c: Candidate) => c.providerID in allowed);
    }
    if prefs.ignored != [] {
      var ignored := SliceToSet(prefs.ignored);
      candidates := FilterCandidates(candidates, (c: Candidate) => c.providerID !in ignored);
    }
    if prefs.requireParameters {
      candidates := FilterCandidates(candidates, (c: Candidate) => forall p :: p in required ==> p in c.parameters);
    }
    if prefs.maxPrice.Some? {
      var limits := prefs.maxPrice.value;
      candidates := FilterCandidates(candidates, (c: Candidate) => WithinLimits(c, limits));
    }
    if candidates != [] {
      candidates := SortCandidates(candidates, prefs);
    }
  }

  /** `resolveCandidates`, after the lookups: `lookups` has one entry for the model and one for each
      fallback model. */
  method ResolveCandidates(lookups: seq<Lookup>, prefs: Preferences, required: seq<string>) returns (answer: Answer)
    requires |lookups| > 0
    ensures lookups[0].Missing? ==> answer == ModelNotFound
    ensures lookups[0].WrongProtocol? ==> answer == ProtocolMismatch
    ensures lookups[0].Found? ==>
              if exists i :: 0 <= i < |lookups| && lookups[i].Found?
                             && Acceptable(prefs, required, CandidateAt(lookups, i)) then
                answer.Routes? && answer.candidates != [] && IsAnswer(lookups, prefs, required, answer.candidates)
              else
                answer == NoRoutes
  {
    answer := CollectCandidates(lookups);
    if !answer.Routes? {
      return;
    }
    var candidates := ApplyPreferences(answer.candidates, prefs, required);
    forall i | 0 <= i < |lookups| && lookups[i].Found? && Acceptable(prefs, required, CandidateAt(lookups, i))
      ensures CandidateAt(lookups, i) in candidates
    {
      assert Offered(lookups, CandidateAt(lookups, i));
    }
    if candidates == [] {
      return NoRoutes;
    }
    assert candidates[0] in candidates;
    assert candidates[0] == CandidateAt(lookups, candidates[0].modelIndex);
    return Routes(candidates);
  }

  // ----- what an answer is, preference by preference

  /** Which routes an answer has: those of the models that were found, whose provider is allowed, not ignored
      and, without fallbacks, in the preferred order, which have all the parameters if that is required, and
      whose prices per token are within the limits, the prompt's for input, the completion's for output. */
  lemma AnswerMeetsPreferences(lookups: seq<Lookup>, prefs: Preferences, required: seq<string>, s: seq<Candidate>,
                               c: Candidate)
    requires IsAnswer(lookups, prefs, required, s)
    ensures c in s <==>
              && c.modelIndex < |lookups| && lookups[c.modelIndex].Found?
              && c == lookups[c.modelIndex].candidate.(modelIndex := c.modelIndex)
              && (prefs.only == [] || exists i :: 0 <= i < |prefs.only| && TrimSpace(prefs.only[i]) == c.providerID)
              && (forall i :: 0 <= i < |prefs.ignored| ==> TrimSpace(prefs.ignored[i]) != c.providerID)
              && (prefs.order == [] || prefs.allowFallbacks != Some(false)
                  || exists i :: 0 <= i < |prefs.order| && TrimSpace(prefs.order[i]) == c.providerID)
              && (prefs.requireParameters ==> forall p :: p in required ==> p in c.parameters)
              && (prefs.maxPrice.Some? ==>
                    var limits := prefs.maxPrice.value;
                    && (limits.prompt > 0.0 ==> c.inputPrice as real <= limits.prompt * 100000000000000.0)
                    && (limits.completion > 0.0 ==> c.outputPrice as real <= limits.completion * 100000000000000.0))
  {
    if prefs.maxPrice.Some? { LimitsBoundPrices(c, prefs.maxPrice.value); }
  }

  lemma LimitsBoundPrices(c: Candidate, limits: PriceLimits)
    ensures WithinLimits(c, limits) <==>
              && (limits.prompt > 0.0 ==> c.inputPrice as real <= limits.prompt * 100000000000000.0)
              && (limits.completion > 0.0 ==> c.outputPrice as real <= limits.completion * 100000000000000.0)
  {
    PriceWithin(c.inputPrice, limits.prompt);
    PriceWithin(c.outputPrice, limits.completion);
  }

  lemma PriceWithin(price: int, limit: real)
    ensures limit > 0.0 ==> (PricePerToken(price) <= limit <==> price as real <= limit * 100000000000000.0)
  {
    if limit > 0.0 && price > 0 {
      var perToken := PricePerToken(price);
      assert perToken * 100000000000000.0 == price as real;
    }
  }

  /** In which order: by the last mention of the provider in the preferred order, if there is one; then cheapest
      first, lowest priority number first, or greatest weight first, as the sort asks; and then by the model's
      position in the request. */
  lemma AnswerIsSorted(lookups: seq<Lookup>, prefs: Preferences, required: seq<string>, s: seq<Candidate>,
                       i: nat, j: nat)
    requires IsAnswer(lookups, prefs, required, s) && i < j < |s|
    ensures s[i].providerID in Names(prefs.order) && s[j].providerID in Names(prefs.order) ==>
              LastMention(prefs.order, s[i].providerID) <= LastMention(prefs.order, s[j].providerID)
    ensures prefs.order == [] || s[i].providerID == s[j].providerID ==>
              var l, r := s[i], s[j];
              && (prefs.sort == "throughput" ==>
                    l.weight > r.weight || (l.weight == r.weight && l.modelIndex < r.modelIndex))
              && (prefs.sort == "priority" || prefs.sort == "latency" ==>
                    l.priority < r.priority || (l.priority == r.priority && l.modelIndex < r.modelIndex))
              && (prefs.sort == "price" && FitsInt64(l.inputPrice + l.outputPrice)
                  && FitsInt64(r.inputPrice + r.outputPrice) ==>
                    || l.inputPrice + l.outputPrice < r.inputPrice + r.outputPrice
                    || (l.inputPrice + l.outputPrice == r.inputPrice + r.outputPrice && l.modelIndex < r.modelIndex))
              && (prefs.sort !in {"price", "throughput", "priority", "latency"} ==> l.modelIndex < r.modelIndex)
  {
    assert Before(prefs, s[i], s[j]);
  }

  // ----- what the preferred order promises

  /** Every provider that the order names comes before every provider it does not name. */
  ghost predicate ListedComeFirst(order: seq<string>)
  {
    forall p, q :: p in Names(order) && q !in Names(order) ==> Rank(order, p) < Rank(order, q)
  }

  ghost function TrimAll(s: seq<string>): (t: seq<string>)
    ensures |t| == |s| && forall i :: 0 <= i < |s| ==> t[i] == TrimSpace(s[i])
  {
    seq(|s|, i requires 0 <= i < |s| => TrimSpace(s[i]))
  }

  /** The code ranks unnamed providers by the number of distinct names, not by the length of the order, so
      the promise holds exactly for orders without repetition. */
  lemma ListedComeFirstIff(order: seq<string>)
    ensures ListedComeFirst(order) <==> Distinct(TrimAll(order))
  {
    NamesCount(order);
    var names := Names(order);
    if Distinct(TrimAll(order)) {
      assert |names| == |order|;
    } else {
      var p := TrimSpace(order[|order| - 1]);
      assert p in names && LastMention(order, p) == |order| - 1;
      var q := UnlistedName(order);
      assert Rank(order, p) >= Rank(order, q);
    }
  }

  /** Some name is not in the order: one longer than every name that is. */
  lemma {:induction false} LongerThanAll(order: seq<string>) returns (q: string)
    ensures forall i :: 0 <= i < |order| ==> |TrimSpace(order[i])| < |q|
  {
    if order == [] {
      q := "";
    } else {
      q := LongerThanAll(order[1..]);
      var p := TrimSpace(order[0]);
      q := q + p + "x";
      forall i | 0 <= i < |order| ensures |TrimSpace(order[i])| < |q| {
        if i > 0 { assert order[i] == order[1..][i - 1]; }
      }
    }
  }

  lemma UnlistedName(order: seq<string>) returns (q: string)
    ensures q !in Names(order)
  {
    q := LongerThanAll(order);
  }

  lemma RepeatsSnoc(order: seq<string>)
    requires order != []
    ensures var k := |order| - 1;
            Distinct(TrimAll(order)) <==> Distinct(TrimAll(order[..k])) && TrimSpace(order[k]) !in Names(order[..k])
  {
    var k := |order| - 1;
    var t, before, names := TrimAll(order), TrimAll(order[..k]), Names(order[..k]);
    assert forall i :: 0 <= i < k ==> t[i] == before[i] && before[i] == TrimSpace(order[..k][i]);
    if t[k] in names {
      var i :| 0 <= i < k && TrimSpace(order[..k][i]) == t[k];
      assert t[i] == t[k];
    } else {
      forall i | 0 <= i < k ensures t[i] != t[k] {
        assert TrimSpace(order[..k][i]) in names;
      }
    }
  }

  lemma {:induction false} NamesCount(order: seq<string>)
    ensures |Names(order)| <= |order|
    ensures |Names(order)| == |order| <==> Distinct(TrimAll(order))
  {
    if order != [] {
      var k := |order| - 1;
      NamesCount(order[..k]);
      NamesSnoc(order, k);
      assert order[..k + 1] == order;
      RepeatsSnoc(order);
    }
  }

  /** How often a sum of two 64-bit integers wraps around: once, upwards or downwards, or not at all. */
  function Carry(sum: int): int
  {
    if sum >= INT64_LIMIT then 1 else if sum < -INT64_LIMIT then -1 else 0
  }

  /** Sorting by price compares the two routes as their prices say. */
  predicate ComparesRightly(l: Candidate, r: Candidate)
  {
    var lSum, rSum := l.inputPrice + l.outputPrice, r.inputPrice + r.outputPrice;
    && (SortKey("price", l) < SortKey("price", r) <==> lSum < rSum)
    && (SortKey("price", r) < SortKey("price", l) <==> rSum < lSum)
  }

  /** The two prices are added as 64-bit integers. The comparison is right exactly when both sums wrap around
      alike or they lie further apart than that takes one of them. Of prices that are not negative: when both
      sums overflow or neither does; a single overflow makes the dearer route the cheaper. */
  lemma PriceOrderIff(l: Candidate, r: Candidate)
    requires FitsInt64(l.inputPrice) && FitsInt64(l.outputPrice)
    requires FitsInt64(r.inputPrice) && FitsInt64(r.outputPrice)
    ensures var lSum, rSum := l.inputPrice + l.outputPrice, r.inputPrice + r.outputPrice;
            var wraps := Carry(lSum) - Carry(rSum);
            && (ComparesRightly(l, r) <==>
                  || wraps == 0
                  || (wraps > 0 && lSum - rSum > 2 * INT64_LIMIT * wraps)
                  || (wraps < 0 && lSum - rSum < 2 * INT64_LIMIT * wraps))
            && (l.inputPrice >= 0 && l.outputPrice >= 0 && r.inputPrice >= 0 && r.outputPrice >= 0 ==>
                  (ComparesRightly(l, r) <==> (lSum < INT64_LIMIT <==> rSum < INT64_LIMIT)))
  {
    WrappedSum(l.inputPrice + l.outputPrice);
    WrappedSum(r.inputPrice + r.outputPrice);
  }

  lemma WrappedSum(x: int)
    requires -2 * INT64_LIMIT <= x < 2 * INT64_LIMIT
    ensures WrapInt64(x) == x - 2 * INT64_LIMIT * Carry(x)
  {
    if x >= INT64_LIMIT {
      assert x + INT64_LIMIT == (x - INT64_LIMIT) + 2 * INT64_LIMIT;
    } else if x < -INT64_LIMIT {
      assert x + INT64_LIMIT == (x + 3 * INT64_LIMIT) - 2 * INT64_LIMIT;
    }
  }

  // ----- reading the preferences

  datatype Json = Null | String(text: string) | List(items: seq<Json>) | Other

  datatype Parsed = NotStrings | Strings(values: seq<string>)

  /** Where a name first occurs among the items, up to white space. */
  ghost predicate FirstAt(items: seq<Json>, name: string, i: nat)
  {
    && i < |items| && items[i].String? && TrimSpace(items[i].text) == name
    && forall j :: 0 <= j < i && items[j].String? ==> TrimSpace(items[j].text) != name
  }

  /** What has been collected from the first `n` items: the names and where each first occurs. */
  ghost predicate NamesSoFar(items: seq<Json>, n: nat, result: seq<string>, at: seq<nat>)
    requires n <= |items|
  {
    && (forall j :: 0 <= j < n ==> items[j].String?)
    && |at| == |result|
    && (forall k :: 0 <= k < |at| ==> at[k] < n && result[k] != "" && FirstAt(items, result[k], at[k]))
    && (forall k, l :: 0 <= k < l < |at| ==> at[k] < at[l])
    && (forall j :: 0 <= j < n && TrimSpace(items[j].text) != "" ==> TrimSpace(items[j].text) in result)
  }

  lemma CollectName(items: seq<Json>, n: nat, result: seq<string>, at: seq<nat>)
    requires n < |items| && NamesSoFar(items, n, result, at) && items[n].String?
    ensures var name := TrimSpace(items[n].text);
            if name == "" || name in result then NamesSoFar(items, n + 1, result, at)
            else NamesSoFar(items, n + 1, result + [name], at + [n])
  {
    var name := TrimSpace(items[n].text);
    if name != "" && name !in result {
      assert FirstAt(items, name, n);
    }
  }

  /** The collected names are trimmed and distinct. */
  lemma CollectedNames(items: seq<Json>, n: nat, result: seq<string>, at: seq<nat>)
    requires n <= |items| && NamesSoFar(items, n, result, at)
    ensures Distinct(result) && TrimAll(result) == result && "" !in result
  {
    forall k | 0 <= k < |result| ensures TrimSpace(result[k]) == result[k] {
      var left, right := TrimSpaceSplits(items[at[k]].text);
      TrimmedIsFixed(result[k]);
    }
    forall k, l | 0 <= k < l < |result| ensures result[k] != result[l] {
      assert FirstAt(items, result[l], at[l]);
      assert at[k] < at[l] && TrimSpace(items[at[k]].text) == result[k];
    }
    assert TrimAll(result) == result;
  }

  /** `parseStringList`: the distinct non-blank names, trimmed, by first occurrence; so every order that a
      request can carry keeps its promise. */
  method ParseStringList(value: Json) returns (r: Parsed, ghost at: seq<nat>)
    ensures value.Null? ==> r == Strings([])
    ensures r.NotStrings? <==>
              value.String? || value.Other?
              || (value.List? && exists i :: 0 <= i < |value.items| && !value.items[i].String?)
    ensures r.Strings? ==> Distinct(r.values) && TrimAll(r.values) == r.values && "" !in r.values
    ensures r.Strings? ==> ListedComeFirst(r.values)
    ensures r.Strings? && value.List? ==>
              && |at| == |r.values|
              && (forall k :: 0 <= k < |at| ==> FirstAt(value.items, r.values[k], at[k]))
              && (forall k, l :: 0 <= k < l < |at| ==> at[k] < at[l])
              && (forall i :: 0 <= i < |value.items| && TrimSpace(value.items[i].text) != "" ==>
                    TrimSpace(value.items[i].text) in r.values)
  {
    at := [];
    if value.Null? {
      return Strings([]), at;
    }
    if !value.List? {
      return NotStrings, at;
    }
    var items := value.items;
    var result: seq<string> := [];
    var seen: set<string> := {};
    for i := 0 to |items|
      invariant seen == (set s | s in result) && NamesSoFar(items, i, result, at)
    {
      if !items[i].String? {
        return NotStrings, at;
      }
      var trimmed := TrimSpace(items[i].text);
      CollectName(items, i, result, at);
      if trimmed == "" {
        continue;
      }
      if trimmed in seen {
        continue;
      }
      seen := seen + {trimmed};
      result := result + [trimmed];
      at := at + [i];
    }
    CollectedNames(items, |items|, result, at);
    ListedComeFirstIff(result);
    return Strings(result), at;
  }
}
