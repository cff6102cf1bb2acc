/**
  Token counts and their price: how the console merges the usage reports of a stream
  (internal/console/chat_stream.go), adds up turns, and bills tokens in micro-cents
  (internal/console/models_support.go, internal/gateway/handlers.go).
*/
module Usage {
  import opened Integers

  /** The counts of a usage record. */
  datatype Counts = Counts(input: int, output: int, cacheCreation: int, cacheRead: int, total: int)

  const ZERO := Counts(0, 0, 0, 0, 0)

  function Tokens(u: Counts): int
  {
    u.input + u.output + u.cacheCreation + u.cacheRead
  }

  predicate AnyPositive(u: Counts)
  {
    u.input > 0 || u.output > 0 || u.cacheCreation > 0 || u.cacheRead > 0
  }

  predicate NoneNegative(u: Counts)
  {
    u.input >= 0 && u.output >= 0 && u.cacheCreation >= 0 && u.cacheRead >= 0
  }

  function Overlay(x: int, y: int): int
  {
    if y > 0 then y else x
  }

  function Merge(target: Counts, next: Counts): Counts
  {
    var counts := Counts(Overlay(target.input, next.input), Overlay(target.output, next.output),
                         Overlay(target.cacheCreation, next.cacheCreation), Overlay(target.cacheRead, next.cacheRead),
                         target.total);
    counts.(total := if AnyPositive(counts) then Tokens(counts) else Overlay(target.total, next.total))
  }

  function Add(a: Counts, b: Counts): Counts
  {
    Counts(a.input + b.input, a.output + b.output, a.cacheCreation + b.cacheCreation, a.cacheRead + b.cacheRead,
           a.total + b.total)
  }

  function Fill(u: Counts): Counts
  {
    u.(total := if u.total == 0 then Tokens(u) else u.total)
  }

  /** A record that the code updates in place. */
  class UsageRecord {
    var inputTokens: int
    var outputTokens: int
    var cacheCreationTokens: int
    var cacheReadTokens: int
    var totalTokens: int

    constructor ()
      ensures View() == ZERO
    {
      inputTokens, outputTokens, cacheCreationTokens, cacheReadTokens, totalTokens := 0, 0, 0, 0, 0;
    }

    function View(): Counts
      reads this
    {
      Counts(inputTokens, outputTokens, cacheCreationTokens, cacheReadTokens, totalTokens)
    }

    /** `mergeConsoleChatUsage` */
    method MergeUsage(next: Counts)
      modifies this
      ensures View() == Merge(old(View()), next)
    {
      if next.input > 0 {
        inputTokens := next.input;
      }
      if next.output > 0 {
        outputTokens := next.output;
      }
      if next.cacheCreation > 0 {
        cacheCreationTokens := next.cacheCreation;
      }
      if next.cacheRead > 0 {
        cacheReadTokens := next.cacheRead;
      }
      if inputTokens > 0 || outputTokens > 0 || cacheCreationTokens > 0 || cacheReadTokens > 0 {
        totalTokens := inputTokens + outputTokens + cacheCreationTokens + cacheReadTokens;
      } else if next.total > 0 {
        totalTokens := next.total;
      }
    }

    /** `addConsoleChatUsageTotals` */
    method AddTotals(next: Counts)
      modifies this
      ensures View() == Add(old(View()), next)
    {
      inputTokens := inputTokens + next.input;
      outputTokens := outputTokens + next.output;
      cacheCreationTokens := cacheCreationTokens + next.cacheCreation;
      cacheReadTokens := cacheReadTokens + next.cacheRead;
      totalTokens := totalTokens + next.total;
    }

    /** The total is derived from the counts when it is still zero. */
    method FillTotal()
      modifies this
      ensures View() == Fill(old(View()))
    {
      if totalTokens == 0 {
        totalTokens := inputTokens + outputTokens + cacheCreationTokens + cacheReadTokens;
      }
    }
  }

  // ----- the reports of one stream

  /** All the reports of a stream merged, one after the other. */
  function MergeAll(reports: seq<Counts>): Counts
  {
    if reports == [] then ZERO else Merge(MergeAll(reports[..|reports| - 1]), reports[|reports| - 1])
  }

  /** The last positive number, or 0. */
  function LastPositive(xs: seq<int>): int
  {
    if xs == [] then 0 else if xs[|xs| - 1] > 0 then xs[|xs| - 1] else LastPositive(xs[..|xs| - 1])
  }

  function Each(reports: seq<Counts>, field: Counts -> int): (xs: seq<int>)
    ensures |xs| == |reports| && forall i :: 0 <= i < |xs| ==> xs[i] == field(reports[i])
  {
    seq(|reports|, i requires 0 <= i < |reports| => field(reports[i]))
  }

  /** Each count of a stream is the last one it reported, and the total is their sum, however the counts were
      spread over the reports; a reported total is used only if no count ever came. */
  lemma {:induction false} MergedCounts(reports: seq<Counts>)
    ensures var u := MergeAll(reports);
            && u.input == LastPositive(Each(reports, (r: Counts) => r.input))
            && u.output == LastPositive(Each(reports, (r: Counts) => r.output))
            && u.cacheCreation == LastPositive(Each(reports, (r: Counts) => r.cacheCreation))
            && u.cacheRead == LastPositive(Each(reports, (r: Counts) => r.cacheRead))
            && u.total == (if AnyPositive(u) then Tokens(u) else LastPositive(Each(reports, (r: Counts) => r.total)))
            && NoneNegative(u)
  {
    if reports != [] {
      MergedCounts(reports[..|reports| - 1]);
      EachInit(reports, (r: Counts) => r.input);
      EachInit(reports, (r: Counts) => r.output);
      EachInit(reports, (r: Counts) => r.cacheCreation);
      EachInit(reports, (r: Counts) => r.cacheRead);
      EachInit(reports, (r: Counts) => r.total);
    }
  }

  lemma EachInit(reports: seq<Counts>, field: Counts -> int)
    requires reports != []
    ensures Each(reports, field)[..|reports| - 1] == Each(reports[..|reports| - 1], field)
  {
  }

  // ----- the turns of one answer

  function Sum(us: seq<Counts>): Counts
  {
    if us == [] then ZERO else Add(Sum(us[..|us| - 1]), us[|us| - 1])
  }

  /** Adding up turns, filling in the total after each as the code does. */
  function Accumulate(us: seq<Counts>): Counts
  {
    if us == [] then ZERO else Fill(Add(Accumulate(us[..|us| - 1]), us[|us| - 1]))
  }

  /** A turn that used tokens has a total. */
  predicate TotalGiven(u: Counts)
  {
    u.total == 0 ==> Tokens(u) == 0
  }

  /** After `j` turns the totals add up to nothing although the counts do not. */
  predicate Vanishes(us: seq<Counts>, j: nat)
    requires j <= |us|
  {
    Sum(us[..j]).total == 0 && Tokens(Sum(us[..j])) != 0
  }

  /** The counts are the sums over the turns, whatever the turns report. */
  lemma {:induction false} AccumulatedCounts(us: seq<Counts>)
    ensures Accumulate(us) == Sum(us).(total := Accumulate(us).total)
  {
    if us != [] { AccumulatedCounts(us[..|us| - 1]); }
  }

  /** After every turn the total is the sum of the turns' totals exactly if these sums never vanish while there
      are counts. */
  lemma RunningTotalsIff(us: seq<Counts>)
    ensures (forall j :: 0 <= j <= |us| ==> Accumulate(us[..j]).total == Sum(us[..j]).total)
            <==> (forall j :: 0 <= j <= |us| ==> !Vanishes(us, j))
  {
    if j :| 0 <= j <= |us| && Vanishes(us, j) {
      var i := FirstVanish(us, j);
      VanishedTotal(us, i);
    } else {
      forall j | 0 <= j <= |us| ensures Accumulate(us[..j]).total == Sum(us[..j]).total { TotalUpTo(us, j); }
    }
  }

  lemma {:induction false} FirstVanish(us: seq<Counts>, j: nat) returns (i: nat)
    requires j <= |us| && Vanishes(us, j)
    ensures i <= j && Vanishes(us, i) && forall k :: 0 <= k < i ==> !Vanishes(us, k)
  {
    if k :| 0 <= k < j && Vanishes(us, k) { i := FirstVanish(us, k); } else { i := j; }
  }

  lemma StepTo(us: seq<Counts>, j: nat)
    requires 0 < j <= |us|
    ensures Accumulate(us[..j]) == Fill(Add(Accumulate(us[..j - 1]), us[j - 1]))
    ensures Sum(us[..j]) == Add(Sum(us[..j - 1]), us[j - 1])
  {
    assert us[..j][..j - 1] == us[..j - 1];
  }

  lemma {:induction false} TotalUpTo(us: seq<Counts>, j: nat)
    requires j <= |us| && forall k :: 0 <= k <= j ==> !Vanishes(us, k)
    ensures Accumulate(us[..j]).total == Sum(us[..j]).total
  {
    if j > 0 {
      TotalUpTo(us, j - 1);
      StepTo(us, j);
      AccumulatedCounts(us[..j]);
      assert !Vanishes(us, j);
    }
  }

  lemma VanishedTotal(us: seq<Counts>, j: nat)
    requires j <= |us| && Vanishes(us, j) && forall k :: 0 <= k < j ==> !Vanishes(us, k)
    ensures Accumulate(us[..j]).total != Sum(us[..j]).total
  {
    TotalUpTo(us, j - 1);
    StepTo(us, j);
    AccumulatedCounts(us[..j]);
  }

  /** At turn `j` the total came out as zero and was derived from the counts. */
  predicate Refilled(us: seq<Counts>, j: nat)
  {
    0 < j <= |us| && Accumulate(us[..j - 1]).total + us[j - 1].total == 0
  }

  predicate LastRefill(us: seq<Counts>, i: nat, n: nat)
  {
    i <= n && Refilled(us, i) && forall j :: i < j <= n ==> !Refilled(us, j)
  }

  /** The total in the end is the sum of the turns' totals exactly if it was so when it was last derived. */
  lemma FinalTotalIff(us: seq<Counts>)
    ensures Accumulate(us).total == Sum(us).total
            <==> forall i: nat :: LastRefill(us, i, |us|) ==> Tokens(Sum(us[..i])) == Sum(us[..i]).total
  {
    assert us[..|us|] == us;
    if i: nat :| LastRefill(us, i, |us|) {
      SinceRefill(us, i, |us|);
      assert forall k: nat :: LastRefill(us, k, |us|) ==> k == i;
      StepTo(us, i);
      AccumulatedCounts(us[..i]);
    } else {
      if j :| 0 < j <= |us| && Refilled(us, j) {
        var last := FindLast(us, j, |us|);
        assert false;
      }
      SinceRefill(us, 0, |us|);
      assert us[..0] == [];
    }
  }

  lemma {:induction false} FindLast(us: seq<Counts>, j: nat, n: nat) returns (i: nat)
    requires j <= n && Refilled(us, j)
    ensures LastRefill(us, i, n)
    decreases n - j
  {
    if k :| j < k <= n && Refilled(us, k) { i := FindLast(us, k, n); } else { i := j; }
  }

  /** Without a refill the difference between the total and the sum stays. */
  lemma {:induction false} SinceRefill(us: seq<Counts>, i: nat, j: nat)
    requires i <= j <= |us| && forall k :: i < k <= j ==> !Refilled(us, k)
    ensures Accumulate(us[..j]).total - Sum(us[..j]).total == Accumulate(us[..i]).total - Sum(us[..i]).total
  {
    if i < j {
      SinceRefill(us, i, j - 1);
      StepTo(us, j);
      assert !Refilled(us, j);
    }
  }

  /** What that comes to for at most three turns. */
  predicate TotalHolds(us: seq<Counts>)
    requires |us| <= 3
  {
    if |us| < 2 then true
    else
      var two := Sum(us[..2]);
      if |us| == 2 then TotalGiven(two)
      else if two.total != 0 then TotalGiven(Sum(us))
      else if Tokens(two) + us[2].total != 0 then Tokens(two) == 0
      else Tokens(Sum(us)) == us[2].total
  }

  lemma TotalOfThree(us: seq<Counts>)
    requires |us| <= 3 && (us != [] ==> TotalGiven(us[0]))
    ensures Accumulate(us).total == Sum(us).total <==> TotalHolds(us)
  {
    assert us[..|us|] == us;
    if us == [] { return; }
    FirstTurn(us);
    if |us| == 1 { return; }
    SecondTurn(us);
    if |us| == 3 {
      StepTo(us, 3);
      AccumulatedCounts(us);
    }
  }

  lemma FirstTurn(us: seq<Counts>)
    requires us != [] && TotalGiven(us[0])
    ensures Accumulate(us[..1]) == Sum(us[..1]) == us[0]
  {
    StepTo(us, 1);
    assert us[..0] == [];
    AccumulatedCounts(us[..1]);
  }

  lemma SecondTurn(us: seq<Counts>)
    requires |us| >= 2 && Accumulate(us[..1]) == Sum(us[..1])
    ensures Accumulate(us[..2]) == Fill(Sum(us[..2]))
  {
    StepTo(us, 2);
  }

  /** Turns without negative numbers that give their totals: the sums never vanish. */
  lemma NaturalTotals(us: seq<Counts>, j: nat)
    requires forall i :: 0 <= i < |us| ==> NoneNegative(us[i]) && us[i].total >= 0 && TotalGiven(us[i])
    requires j <= |us|
    ensures !Vanishes(us, j) && Sum(us[..j]).total >= 0 && NoneNegative(Sum(us[..j]))
  {
    forall i | 0 <= i < |us| ensures Natural(us[i]) { }
    SumIsNatural(us, j);
  }

  predicate Natural(u: Counts)
  {
    NoneNegative(u) && u.total >= 0 && TotalGiven(u)
  }

  lemma {:induction false} SumIsNatural(us: seq<Counts>, j: nat)
    requires j <= |us| && forall i :: 0 <= i < |us| ==> Natural(us[i])
    ensures Natural(Sum(us[..j]))
  {
    if j > 0 {
      SumIsNatural(us, j - 1);
      StepTo(us, j);
      AddNatural(Sum(us[..j - 1]), us[j - 1]);
    }
  }

  lemma AddNatural(a: Counts, b: Counts)
    requires Natural(a) && Natural(b)
    ensures Natural(Add(a, b))
  {
  }

  // ----- billing

  datatype Prices = Prices(input: int, output: int, cacheRead: int, cacheWrite: int)

  /** `costForTokens`, `modelTestCostForTokens` */
  function CostForTokens(price: int, tokens: int): (cost: int)
    ensures -INT64_LIMIT <= 1000000 * cost <= INT64_LIMIT
  {
    if price <= 0 || tokens <= 0 then 0 else QuoRem(WrapInt64(price * tokens + 500000), 1000000).0
  }

  /** `calculateUsageCost`, `calculateModelTestUsageCost`. The sum of the four costs never wraps around. */
  function UsageCost(p: Prices, u: Counts): (cost: int)
    ensures cost == CostForTokens(p.input, u.input) + CostForTokens(p.output, u.output)
                    + CostForTokens(p.cacheRead, u.cacheRead) + CostForTokens(p.cacheWrite, u.cacheCreation)
  {
    var input, output := CostForTokens(p.input, u.input), CostForTokens(p.output, u.output);
    var read, write := CostForTokens(p.cacheRead, u.cacheRead), CostForTokens(p.cacheWrite, u.cacheCreation);
    NoWrap(input + output);
    NoWrap(input + output + read);
    NoWrap(input + output + read + write);
    WrapInt64(WrapInt64(WrapInt64(input + output) + read) + write)
  }

  /** The product fits with room for rounding. */
  predicate Affordable(price: int, tokens: int)
  {
    price * tokens + 500000 < INT64_LIMIT
  }

  lemma CostIsRounded(price: int, tokens: int)
    requires price >= 0 && tokens >= 0 && Affordable(price, tokens)
    ensures var c := 1000000 * CostForTokens(price, tokens);
            c - 500000 <= price * tokens < c + 500000
  {
    if price > 0 && tokens > 0 {
      assert price * tokens > 0;
      var n := price * tokens + 500000;
      assert WrapInt64(n) == n;
    } else {
      assert price * tokens == 0;
    }
  }

  function SumInts(xs: seq<int>): int
  {
    if xs == [] then 0 else SumInts(xs[..|xs| - 1]) + xs[|xs| - 1]
  }

  function Costs(price: int, tokens: seq<int>): (cs: seq<int>)
    ensures |cs| == |tokens| && forall i :: 0 <= i < |tokens| ==> cs[i] == CostForTokens(price, tokens[i])
  {
    seq(|tokens|, i requires 0 <= i < |tokens| => CostForTokens(price, tokens[i]))
  }

  ghost predicate AllNatural(xs: seq<int>)
  {
    forall i :: 0 <= i < |xs| ==> xs[i] >= 0
  }

  lemma {:induction false} CostsAreRounded(price: int, tokens: seq<int>)
    requires price >= 0 && AllNatural(tokens) && Affordable(price, SumInts(tokens))
    ensures var c := 1000000 * SumInts(Costs(price, tokens));
            && c - 500000 * |tokens| <= price * SumInts(tokens)
            && (tokens != [] ==> price * SumInts(tokens) < c + 500000 * |tokens|)
  {
    if tokens != [] {
      var k := |tokens| - 1;
      var front, last := tokens[..k], tokens[k];
      assert Costs(price, tokens)[..k] == Costs(price, front);
      SumNotNegative(front);
      Distribute(price, SumInts(front), last);
      CostsAreRounded(price, front);
      CostIsRounded(price, last);
    }
  }

  lemma Distribute(price: int, a: int, b: int)
    requires price >= 0 && a >= 0 && b >= 0
    ensures price * (a + b) == price * a + price * b && price * a >= 0 && price * b >= 0
  {
  }

  lemma {:induction false} SumNotNegative(xs: seq<int>)
    requires AllNatural(xs)
    ensures SumInts(xs) >= 0
  {
    if xs != [] { SumNotNegative(xs[..|xs| - 1]); }
  }

  /** Billing the sum of `k` token counts differs from billing them one by one by at most half a unit per
      count: not at all for one count, by at most one unit for two or three. */
  lemma BillingTheSum(price: int, tokens: seq<int>)
    requires AllNatural(tokens) && (price > 0 ==> Affordable(price, SumInts(tokens)))
    ensures var d := CostForTokens(price, SumInts(tokens)) - SumInts(Costs(price, tokens));
            -|tokens| <= 2 * d <= |tokens|
  {
    if price <= 0 {
      NothingIsFree(price, tokens);
    } else {
      SumNotNegative(tokens);
      CostsAreRounded(price, tokens);
      CostIsRounded(price, SumInts(tokens));
    }
  }

  lemma {:induction false} NothingIsFree(price: int, tokens: seq<int>)
    requires price <= 0
    ensures SumInts(Costs(price, tokens)) == 0
  {
    if tokens != [] {
      assert Costs(price, tokens)[..|tokens| - 1] == Costs(price, tokens[..|tokens| - 1]);
      NothingIsFree(price, tokens[..|tokens| - 1]);
    }
  }

  /** The bound is reached: at half a micro-cent per token two turns of one token cost two, together one. */
  lemma BillingTheSumIsTight()
    ensures CostForTokens(500000, 1) + CostForTokens(500000, 1) == 2 && CostForTokens(500000, 1 + 1) == 1
  {
    assert QuoRem(1000000, 1000000).0 == 1 && QuoRem(1500000, 1000000).0 == 1;
  }

  function UsageCosts(p: Prices, us: seq<Counts>): (cs: seq<int>)
    ensures |cs| == |us| && forall i :: 0 <= i < |us| ==> cs[i] == UsageCost(p, us[i])
  {
    seq(|us|, i requires 0 <= i < |us| => UsageCost(p, us[i]))
  }

  predicate AllAffordable(p: Prices, u: Counts)
  {
    && (p.input > 0 ==> Affordable(p.input, u.input))
    && (p.output > 0 ==> Affordable(p.output, u.output))
    && (p.cacheRead > 0 ==> Affordable(p.cacheRead, u.cacheRead))
    && (p.cacheWrite > 0 ==> Affordable(p.cacheWrite, u.cacheCreation))
  }

  /** The whole bill: over `k` turns, billing the accumulated usage is within `2 * k` of billing each turn. */
  lemma BillingTheTurns(p: Prices, us: seq<Counts>)
    requires (forall i :: 0 <= i < |us| ==> NoneNegative(us[i])) && AllAffordable(p, Sum(us))
    ensures var d := UsageCost(p, Sum(us)) - SumInts(UsageCosts(p, us));
            -2 * |us| <= d <= 2 * |us|
  {
    SumByField(us);
    BillByField(p, us);
    BillingTheSum(p.input, Each(us, (u: Counts) => u.input));
    BillingTheSum(p.output, Each(us, (u: Counts) => u.output));
    BillingTheSum(p.cacheRead, Each(us, (u: Counts) => u.cacheRead));
    BillingTheSum(p.cacheWrite, Each(us, (u: Counts) => u.cacheCreation));
  }

  lemma {:induction false} SumByField(us: seq<Counts>)
    ensures Sum(us).input == SumInts(Each(us, (u: Counts) => u.input))
    ensures Sum(us).output == SumInts(Each(us, (u: Counts) => u.output))
    ensures Sum(us).cacheRead == SumInts(Each(us, (u: Counts) => u.cacheRead))
    ensures Sum(us).cacheCreation == SumInts(Each(us, (u: Counts) => u.cacheCreation))
  {
    if us != [] {
      SumByField(us[..|us| - 1]);
      EachInit(us, (u: Counts) => u.input);
      EachInit(us, (u: Counts) => u.output);
      EachInit(us, (u: Counts) => u.cacheRead);
      EachInit(us, (u: Counts) => u.cacheCreation);
    }
  }

  lemma {:induction false} BillByField(p: Prices, us: seq<Counts>)
    ensures SumInts(UsageCosts(p, us)) ==
            SumInts(Costs(p.input, Each(us, (u: Counts) => u.input)))
            + SumInts(Costs(p.output, Each(us, (u: Counts) => u.output)))
            + SumInts(Costs(p.cacheRead, Each(us, (u: Counts) => u.cacheRead)))
            + SumInts(Costs(p.cacheWrite, Each(us, (u: Counts) => u.cacheCreation)))
  {
    if us != [] {
      var k := |us| - 1;
      BillByField(p, us[..k]);
      assert UsageCosts(p, us)[..k] == UsageCosts(p, us[..k]);
      CostsInit(p.input, us, (u: Counts) => u.input);
      CostsInit(p.output, us, (u: Counts) => u.output);
      CostsInit(p.cacheRead, us, (u: Counts) => u.cacheRead);
      CostsInit(p.cacheWrite, us, (u: Counts) => u.cacheCreation);
    }
  }

  lemma CostsInit(price: int, us: seq<Counts>, field: Counts -> int)
    requires us != []
    ensures var k := |us| - 1;
            SumInts(Costs(price, Each(us, field))) ==
            SumInts(Costs(price, Each(us[..k], field))) + CostForTokens(price, field(us[k]))
  {
    assert Costs(price, Each(us, field))[..|us| - 1] == Costs(price, Each(us[..|us| - 1], field));
  }
}
