/** backend/src/billing/credits.ts in exact real arithmetic: the rate ladder, the price of a message and
    the margin they guarantee. The floating-point clean-up of ladder values (trimFpNoise) is the identity
    here. EPS is kept; the decade is found by search instead of by log10, with a slack factor >= 1 in
    place of the epsilon added to the logarithm. */
module Credits {
  import opened Optional

  const EPS: real := 0.000000000001
  const PEG_USD: real := 0.0001
  const LADDER_BASE: seq<real> := [1.0, 1.5, 2.0, 2.5, 3.0, 4.0, 5.0, 6.0, 8.0]

  // ---- Powers of ten and decades ------------------------------------------------------------------

  function Pow10(n: int): (p: real)
    ensures p > 0.0
    decreases if n < 0 then -n else n
  {
    if n == 0 then 1.0 else if n > 0 then 10.0 * Pow10(n - 1) else Pow10(n + 1) / 10.0
  }

  lemma PowStep(n: int)
    ensures Pow10(n + 1) == 10.0 * Pow10(n)
  {
  }

  lemma {:induction false} PowMonotone(m: int, n: int)
    requires m <= n
    ensures Pow10(m) <= Pow10(n)
    decreases n - m
  {
    if m < n {
      PowStep(m);
      PowMonotone(m + 1, n);
    }
  }

  lemma InverseOfScaled(y: real)
    requires y > 0.0
    ensures 1.0 / (10.0 * y) == (1.0 / y) / 10.0
  {
    var z := 1.0 / y;
    assert z * y == 1.0;
    assert (z / 10.0) * (10.0 * y) == 1.0;
  }

  /** The n with 10^n <= y < 10^(n+1), found by scaling y into [1, 10). */
  function DecadeUp(y: real): (n: int)
    requires y >= 1.0
    ensures Pow10(n) <= y < Pow10(n + 1)
    decreases y.Floor
  {
    if y < 10.0 then 0
    else
      var n := DecadeUp(y / 10.0);
      assert Pow10(n + 2) == 10.0 * Pow10(n + 1);
      n + 1
  }

  function DecadeDown(y: real): (n: int)
    requires 0.0 < y < 1.0
    ensures Pow10(n) <= y < Pow10(n + 1)
    decreases (1.0 / y).Floor
  {
    if y * 10.0 >= 1.0 then -1
    else
      InverseOfScaled(y);
      assert 1.0 / y > 10.0 by { assert (1.0 / y) * y == 1.0; }
      var n := DecadeDown(10.0 * y);
      assert Pow10(n) == 10.0 * Pow10(n - 1) && Pow10(n + 1) == 10.0 * Pow10(n) by { PowStep(n - 1); PowStep(n); }
      n - 1
  }

  function Decade(y: real): (n: int)
    requires y > 0.0
    ensures Pow10(n) <= y < Pow10(n + 1)
  {
    if y >= 1.0 then DecadeUp(y) else DecadeDown(y)
  }

  lemma DecadeIs(y: real, n: int)
    requires Pow10(n) <= y < Pow10(n + 1)
    ensures Decade(y) == n
  {
    var m := Decade(y);
    if m < n { PowMonotone(m + 1, n); }
    if n < m { PowMonotone(n + 1, m); }
  }

  lemma DecadeMonotone(x: real, y: real)
    requires 0.0 < x <= y
    ensures Decade(x) <= Decade(y)
  {
    if Decade(y) < Decade(x) { PowMonotone(Decade(y) + 1, Decade(x)); }
  }

  // ---- The ladder ---------------------------------------------------------------------------------

  function Max(a: real, b: real): real { if a >= b then a else b }

  /** A ladder value v is accepted for x when it covers x up to the epsilon. */
  predicate Covers(v: real, x: real) { v + EPS * Max(1.0, v) >= x }

  /** Rung i of the decade that starts at `scale`. */
  function Rung(scale: real, i: nat): real requires i < |LADDER_BASE| { LADDER_BASE[i] * scale }

  /** What the decade is searched for: x overestimated by the slack of the search. */
  function Stretched(x: real, slack: real): real { x * slack }

  /** The first rung from index i on that covers x, or the first rung of the next decade. */
  function FirstRung(x: real, scale: real, i: nat): real
    decreases |LADDER_BASE| - i
  {
    if i >= |LADDER_BASE| then 10.0 * scale
    else if Covers(Rung(scale, i), x) then Rung(scale, i)
    else FirstRung(x, scale, i + 1)
  }

  /** `slack` is the factor by which the decade search overestimates x. */
  function NiceCeil(x: real, slack: real): real {
    if x <= 0.0 || Stretched(x, slack) <= 0.0 then 0.0 else FirstRung(x, Pow10(Decade(Stretched(x, slack))), 0)
  }

  ghost predicate SlackOk(slack: real) { 1.0 <= slack <= 1.2 }

  ghost predicate IsRung(v: real, n: int, i: nat) { i < |LADDER_BASE| && v == Rung(Pow10(n), i) }
  ghost predicate OnLadder(v: real) { v == 0.0 || exists n: int, i: nat :: IsRung(v, n, i) }

  lemma Scale(a: real, b: real, t: real)
    requires a <= b && t >= 0.0
    ensures t * a <= t * b && a * t <= b * t
  {
  }

  lemma ProductBetween(x: real, low: real, factor: real, high: real)
    requires x >= 0.0 && low <= factor <= high
    ensures x * low <= x * factor <= x * high
  {
  }

  lemma StretchBounds(x: real, slack: real)
    requires x > 0.0 && SlackOk(slack)
    ensures x <= Stretched(x, slack) <= 1.2 * x
  {
    ProductBetween(x, 1.0, slack, 1.2);
  }

  /** Consecutive rungs grow by a factor of at most 1.5 and at least 1.2; the last stays below the next decade. */
  lemma RungRatios(scale: real, i: nat)
    requires i < |LADDER_BASE| && scale > 0.0
    ensures scale <= Rung(scale, i) <= 8.0 * scale
    ensures i + 1 < |LADDER_BASE| ==> 1.2 * Rung(scale, i) <= Rung(scale, i + 1) <= 1.5 * Rung(scale, i)
    ensures i + 1 == |LADDER_BASE| ==> Rung(scale, i) == 8.0 * scale
    ensures Rung(scale, 0) == scale
  {
    var base := LADDER_BASE[i];
    assert 1.0 <= base <= 8.0;
    Scale(1.0, base, scale);
    Scale(base, 8.0, scale);
    if i + 1 < |LADDER_BASE| {
      var next := LADDER_BASE[i + 1];
      assert 1.2 * base <= next <= 1.5 * base;
      Scale(1.2 * base, next, scale);
      Scale(next, 1.5 * base, scale);
    }
  }

  lemma {:induction false} FirstRungBounds(x: real, scale: real, i: nat)
    requires scale > 0.0 && 0.0 < x < 10.0 * scale && i <= |LADDER_BASE|
    requires i > 0 ==> Rung(scale, i - 1) < x
    requires i == 0 ==> scale <= 1.2 * x
    ensures var v := FirstRung(x, scale, i);
            && Covers(v, x) && v <= 1.5 * x && v >= scale
            && (v == 10.0 * scale || exists j :: 0 <= j < |LADDER_BASE| && v == Rung(scale, j))
    decreases |LADDER_BASE| - i
  {
    hide Rung;
    if i > 0 { RungRatios(scale, i - 1); }
    if i < |LADDER_BASE| {
      RungRatios(scale, i);
      if !Covers(Rung(scale, i), x) { FirstRungBounds(x, scale, i + 1); }
    }
  }

  /** The snapped rate lies on the ladder, covers x up to the epsilon and exceeds it by at most half. */
  lemma NiceCeilBounds(x: real, slack: real)
    requires x > 0.0 && SlackOk(slack)
    ensures var v := NiceCeil(x, slack);
            v > 0.0 && OnLadder(v) && v + 0.000000000001 * (if v > 1.0 then v else 1.0) >= x && v <= 1.5 * x
  {
    hide Decade, FirstRung, Pow10, Stretched, Rung;
    StretchBounds(x, slack);
    var n := Decade(Stretched(x, slack));
    PowStep(n);
    FirstRungBounds(x, Pow10(n), 0);
    var v := NiceCeil(x, slack);
    if v == 10.0 * Pow10(n) {
      RungRatios(Pow10(n + 1), 0);
      assert IsRung(v, n + 1, 0);
    } else {
      var j :| 0 <= j < |LADDER_BASE| && v == Rung(Pow10(n), j);
      assert IsRung(v, n, j);
    }
  }

  lemma {:induction false} FirstRungMonotone(x: real, y: real, scale: real, i: nat)
    requires scale > 0.0 && x <= y && i <= |LADDER_BASE|
    ensures FirstRung(x, scale, i) <= FirstRung(y, scale, i) <= 10.0 * scale
    ensures i < |LADDER_BASE| ==> Rung(scale, i) <= FirstRung(y, scale, i)
    decreases |LADDER_BASE| - i
  {
    hide Rung;
    if i < |LADDER_BASE| {
      RungRatios(scale, i);
      FirstRungMonotone(x, y, scale, i + 1);
    }
  }

  lemma NiceCeilMonotone(x: real, y: real, slack: real)
    requires x <= y && SlackOk(slack)
    ensures NiceCeil(x, slack) <= NiceCeil(y, slack)
  {
    hide Decade, FirstRung, Pow10, Stretched, Rung;
    if x > 0.0 {
      StretchBounds(x, slack);
      StretchBounds(y, slack);
      StretchMonotone(x, y, slack);
      DecadeMonotone(Stretched(x, slack), Stretched(y, slack));
      var m, n := Decade(Stretched(x, slack)), Decade(Stretched(y, slack));
      FirstRungMonotone(x, y, Pow10(m), 0);
      if m < n {
        PowStep(m);
        PowMonotone(m + 1, n);
        FirstRungMonotone(y, y, Pow10(n), 0);
        RungRatios(Pow10(n), 0);
      }
    } else if y > 0.0 {
      NiceCeilBounds(y, slack);
    }
  }

  lemma StretchMonotone(x: real, y: real, slack: real)
    requires x <= y && SlackOk(slack)
    ensures Stretched(x, slack) <= Stretched(y, slack)
  {
    Scale(x, y, slack);
  }

  /** Rungs below x, a ladder value of at least 1e-9, are not taken for it. */
  lemma {:induction false} SkipsLowerRungs(x: real, scale: real, i: nat, k: nat)
    requires scale > 0.0 && i <= k < |LADDER_BASE| && x == Rung(scale, k) && x >= 0.000000001
    ensures FirstRung(x, scale, i) == x
    decreases k - i
  {
    hide Rung;
    if i < k {
      RungBelow(scale, i, k);
      RungRatios(scale, i);
      SkipsLowerRungs(x, scale, i + 1, k);
    }
  }

  lemma {:induction false} RungBelow(scale: real, i: nat, k: nat)
    requires i < k < |LADDER_BASE| && scale > 0.0
    ensures 1.2 * Rung(scale, i) <= Rung(scale, k)
    decreases k - i
  {
    hide Rung;
    RungRatios(scale, i);
    if i + 1 < k {
      RungRatios(scale, i + 1);
      RungBelow(scale, i + 1, k);
    }
  }

  /** Ladder values of at least 1e-9 stay where they are. */
  lemma NiceCeilFixesLadder(x: real, n: int, k: nat, slack: real)
    requires IsRung(x, n, k) && x >= 0.000000001 && SlackOk(slack)
    ensures NiceCeil(x, slack) == x
  {
    hide Decade, FirstRung, Pow10, Stretched, Rung;
    RungRatios(Pow10(n), k);
    StretchBounds(x, slack);
    PowStep(n);
    DecadeIs(Stretched(x, slack), n);
    SkipsLowerRungs(x, Pow10(n), 0, k);
  }

  // ---- The snapped value is the least one ---------------------------------------------------------

  /** No rung before the one that was taken covers x. */
  lemma {:induction false} EarlierRungsDoNotCover(x: real, scale: real, i: nat, k: nat)
    requires scale > 0.0 && i <= k < |LADDER_BASE| && Rung(scale, k) < FirstRung(x, scale, i)
    ensures !Covers(Rung(scale, k), x)
    decreases k - i
  {
    hide Rung;
    if i < k {
      RungBelow(scale, i, k);
      RungRatios(scale, i);
      if !Covers(Rung(scale, i), x) { EarlierRungsDoNotCover(x, scale, i + 1, k); }
    }
  }

  /** Rungs of lower decades fall short of x by more than the epsilon. */
  lemma LowerDecadeDoesNotCover(x: real, n: int, m: int, k: nat)
    requires m < n && k < |LADDER_BASE| && Pow10(n) <= 1.2 * x && x >= 0.000000001
    ensures !Covers(Rung(Pow10(m), k), x)
  {
    hide Rung, Pow10;
    RungRatios(Pow10(m), k);
    PowStep(n - 1);
    PowMonotone(m, n - 1);
    var v := Rung(Pow10(m), k);
    assert v <= 0.8 * Pow10(n) <= 0.96 * x;
    if v >= 1.0 { Scale(EPS, 0.01, v); }
  }

  /** From 1e-9 on, the snapped value is the least value of the ladder that covers x up to the epsilon. */
  lemma NiceCeilIsLeast(x: real, slack: real, v: real, m: int, k: nat)
    requires x >= 0.000000001 && SlackOk(slack) && IsRung(v, m, k)
    requires v + 0.000000000001 * (if v > 1.0 then v else 1.0) >= x
    ensures NiceCeil(x, slack) <= v
  {
    assert Covers(v, x);
    hide Decade, FirstRung, Pow10, Stretched, Rung;
    StretchBounds(x, slack);
    var n := Decade(Stretched(x, slack));
    PowStep(n);
    FirstRungMonotone(x, x, Pow10(n), 0);
    RungRatios(Pow10(m), k);
    if m < n {
      LowerDecadeDoesNotCover(x, n, m, k);
    } else if m == n {
      if v < NiceCeil(x, slack) { EarlierRungsDoNotCover(x, Pow10(n), 0, k); }
    } else {
      PowMonotone(n + 1, m);
    }
  }

  // ---- Rates and prices ---------------------------------------------------------------------------

  datatype Rates = Rates(perKInput: real, perKOutput: real, fallback: bool)
  /** Catalog prices in USD per token. */
  datatype Pricing = Pricing(prompt: real, completion: real)

  const FALLBACK_RATES := Rates(200.0, 1000.0, true)

  function RatesFor(pricing: Option<Pricing>, slack: real): Rates {
    match pricing
    case None => FALLBACK_RATES
    case Some(p) =>
      Rates(NiceCeil(p.prompt * 1000.0 / PEG_USD, slack), NiceCeil(p.completion * 1000.0 / PEG_USD, slack), false)
  }

  /** ratesForModel with its module-level set of models already warned about. */
  class RateTable {
    var warned: set<nat>

    constructor () ensures warned == {} { warned := {}; }

    /** A model without pricing is warned about once per process. */
    method RatesForModel(id: nat, pricing: Option<Pricing>, slack: real) returns (rates: Rates, warning: bool)
      modifies this
      ensures rates == RatesFor(pricing, slack)
      ensures warned == if pricing.None? then old(warned) + {id} else old(warned)
      ensures warning <==> pricing.None? && id !in old(warned)
    {
      warning := false;
      if pricing.None? && id !in warned {
        warned := warned + {id};
        warning := true;
      }
      rates := RatesFor(pricing, slack);
    }
  }

  function Ceil(x: real): int { -((-x).Floor) }

  function NonNegative(n: int): nat { if n < 0 then 0 else n }

  /** The credits of one side of a message at a rate per thousand tokens. */
  function Share(tokens: int, perK: real): real { (tokens as real / 1000.0) * perK }

  function RawCost(rates: Rates, prompt: int, completion: int): real {
    Share(prompt, rates.perKInput) + Share(completion, rates.perKOutput)
  }

  /** The price of one message in credits. */
  function CreditsFor(rates: Rates, promptTokens: int, completionTokens: int): int {
    var prompt, completion := NonNegative(promptTokens), NonNegative(completionTokens);
    var credits := Ceil(RawCost(rates, prompt, completion));
    if prompt == 0 && completion == 0 then 0 else if credits < 1 then 1 else credits
  }

  /** By how much the epsilon can undercut the margin, in credits. */
  function EpsSlack(rates: Rates, prompt: nat, completion: nat): real {
    EPS * (Share(prompt, Max(1.0, rates.perKInput)) + Share(completion, Max(1.0, rates.perKOutput)))
  }

  /** USD paid upstream for one side of a message. */
  function Upstream(tokens: nat, perToken: real): real { tokens as real * perToken }

  lemma RateCovers(perToken: real, slack: real)
    requires SlackOk(slack)
    ensures var rate := NiceCeil(perToken * 1000.0 / PEG_USD, slack);
            rate >= 0.0 && (rate + EPS * Max(1.0, rate)) * PEG_USD >= perToken * 1000.0
  {
    hide NiceCeil;
    var x := perToken * 1000.0 / PEG_USD;
    if x > 0.0 { NiceCeilBounds(x, slack); } else { NiceCeilOfNothing(x, slack); }
  }

  lemma NiceCeilOfNothing(x: real, slack: real)
    requires x <= 0.0
    ensures NiceCeil(x, slack) == 0.0
  {
  }

  /** A rate is at most 1.5 times its own side's price in credits per thousand tokens, and nothing for nothing. */
  lemma RateIsWithin(perToken: real, slack: real)
    requires SlackOk(slack)
    ensures var rate := NiceCeil(perToken * 1000.0 / PEG_USD, slack);
            if perToken > 0.0 then rate > 0.0 && rate * PEG_USD <= 1.5 * (perToken * 1000.0) else rate == 0.0
  {
    hide NiceCeil;
    var x := perToken * 1000.0 / PEG_USD;
    if x > 0.0 { NiceCeilBounds(x, slack); } else { NiceCeilOfNothing(x, slack); }
  }

  /** Each rate follows from its own side's price: it covers it up to the epsilon and is at most half above it. */
  lemma RatesFollowPrices(pricing: Pricing, slack: real)
    requires SlackOk(slack)
    ensures
      var rates := RatesFor(Some(pricing), slack);
      && !rates.fallback
      && (rates.perKInput + EPS * Max(1.0, rates.perKInput)) * PEG_USD >= pricing.prompt * 1000.0
      && (rates.perKOutput + EPS * Max(1.0, rates.perKOutput)) * PEG_USD >= pricing.completion * 1000.0
      && (if pricing.prompt > 0.0 then 0.0 < rates.perKInput * PEG_USD <= 1.5 * (pricing.prompt * 1000.0)
          else rates.perKInput == 0.0)
      && (if pricing.completion > 0.0 then 0.0 < rates.perKOutput * PEG_USD <= 1.5 * (pricing.completion * 1000.0)
          else rates.perKOutput == 0.0)
  {
    hide NiceCeil;
    RateCovers(pricing.prompt, slack);
    RateCovers(pricing.completion, slack);
    RateIsWithin(pricing.prompt, slack);
    RateIsWithin(pricing.completion, slack);
  }

  /** A model without pricing costs 200 and 1000 credits per thousand tokens, whatever the slack. */
  lemma FallbackRates(slack: real)
    ensures RatesFor(None, slack) == Rates(200.0, 1000.0, true)
  {
  }

  lemma SideCovers(tokens: nat, rate: real, perToken: real)
    requires (rate + EPS * Max(1.0, rate)) * PEG_USD >= perToken * 1000.0
    ensures (Share(tokens, rate) + EPS * Share(tokens, Max(1.0, rate))) * PEG_USD >= Upstream(tokens, perToken)
  {
    var t := tokens as real / 1000.0;
    Scale(perToken * 1000.0, (rate + EPS * Max(1.0, rate)) * PEG_USD, t);
    assert t * (perToken * 1000.0) == tokens as real * perToken;
    assert t * ((rate + EPS * Max(1.0, rate)) * PEG_USD) == (t * rate + EPS * (t * Max(1.0, rate))) * PEG_USD;
  }

  lemma ChargeAtLeastRaw(rates: Rates, prompt: nat, completion: nat)
    ensures CreditsFor(rates, prompt, completion) as real >= RawCost(rates, prompt, completion)
  {
  }

  /** Margin: what is charged for a message covers its upstream cost, up to the epsilon slack. */
  lemma CreditsCoverCost(pricing: Pricing, slack: real, prompt: nat, completion: nat)
    requires SlackOk(slack)
    ensures var rates := RatesFor(Some(pricing), slack);
            (CreditsFor(rates, prompt, completion) as real + EpsSlack(rates, prompt, completion)) * PEG_USD
            >= Upstream(prompt, pricing.prompt) + Upstream(completion, pricing.completion)
  {
    hide NiceCeil, CreditsFor, Share, Upstream, Max;
    var rates := RatesFor(Some(pricing), slack);
    RateCovers(pricing.prompt, slack);
    RateCovers(pricing.completion, slack);
    SideCovers(prompt, rates.perKInput, pricing.prompt);
    SideCovers(completion, rates.perKOutput, pricing.completion);
    ChargeAtLeastRaw(rates, prompt, completion);
  }

  // ---- Charging in pieces -------------------------------------------------------------------------

  datatype Piece = Piece(prompt: nat, completion: nat)

  function Total(pieces: seq<Piece>): Piece {
    if pieces == [] then Piece(0, 0)
    else var rest := Total(pieces[1..]); Piece(pieces[0].prompt + rest.prompt, pieces[0].completion + rest.completion)
  }

  function SumOfCredits(rates: Rates, pieces: seq<Piece>): int {
    if pieces == [] then 0
    else CreditsFor(rates, pieces[0].prompt, pieces[0].completion) + SumOfCredits(rates, pieces[1..])
  }

  ghost predicate Sensible(rates: Rates) { rates.perKInput >= 0.0 && rates.perKOutput >= 0.0 }

  lemma ShareAdds(a: nat, b: nat, perK: real)
    requires perK >= 0.0
    ensures Share(a + b, perK) == Share(a, perK) + Share(b, perK) && Share(a, perK) >= 0.0
  {
    var p, q := a as real / 1000.0, b as real / 1000.0;
    assert (p + q) * perK == p * perK + q * perK;
    Scale(0.0, perK, p);
  }

  /** One piece costs its raw cost at least, and less than one credit more unless its raw cost is zero. */
  lemma PieceBounds(rates: Rates, p: Piece)
    requires Sensible(rates)
    ensures var raw := RawCost(rates, p.prompt, p.completion);
            var c := CreditsFor(rates, p.prompt, p.completion);
            && 0.0 <= raw <= c as real <= raw + 1.0 && (raw > 0.0 ==> (c as real) < raw + 1.0)
            && (p != Piece(0, 0) ==> c >= 1) && (p == Piece(0, 0) ==> c == 0)
  {
    ShareAdds(p.prompt, 0, rates.perKInput);
    ShareAdds(p.completion, 0, rates.perKOutput);
  }

  /** The price of a message in credits: the least whole number that covers tokens times rate over a thousand, but
      at least one as soon as there is a token. Negative counts are nothing. */
  lemma CreditsAre(rates: Rates, prompt: int, completion: int)
    requires Sensible(rates)
    ensures
      var p, c := if prompt < 0 then 0 else prompt, if completion < 0 then 0 else completion;
      var credits := CreditsFor(rates, prompt, completion);
      var thousandfold := p as real * rates.perKInput + c as real * rates.perKOutput;
      && (p == 0 && c == 0 ==> credits == 0)
      && (p > 0 || c > 0 ==> credits >= 1)
      && thousandfold <= 1000.0 * credits as real
      && (credits > 1 ==> thousandfold > 1000.0 * (credits - 1) as real)
  {
    var p, c := if prompt < 0 then 0 else prompt, if completion < 0 then 0 else completion;
    ShareAdds(p, 0, rates.perKInput);
    ShareAdds(c, 0, rates.perKOutput);
    Thousandfold(p, rates.perKInput);
    Thousandfold(c, rates.perKOutput);
    hide Share;
  }

  lemma Thousandfold(tokens: nat, perK: real)
    ensures 1000.0 * Share(tokens, perK) == tokens as real * perK
  {
    var t := tokens as real / 1000.0;
    assert 1000.0 * (t * perK) == (1000.0 * t) * perK;
  }

  lemma {:induction false} SumBounds(rates: Rates, pieces: seq<Piece>)
    requires Sensible(rates)
    ensures var whole := Total(pieces);
            var raw := RawCost(rates, whole.prompt, whole.completion);
            var sum := SumOfCredits(rates, pieces);
            && 0.0 <= raw <= sum as real <= raw + |pieces| as real
            && (raw > 0.0 ==> (sum as real) < raw + |pieces| as real)
            && (whole != Piece(0, 0) ==> sum >= 1) && (whole == Piece(0, 0) ==> sum == 0)
  {
    hide CreditsFor;
    if pieces == [] {
      ShareAdds(0, 0, rates.perKInput);
      ShareAdds(0, 0, rates.perKOutput);
    } else {
      hide Share;
      SumBounds(rates, pieces[1..]);
      PieceBounds(rates, pieces[0]);
      ShareAdds(pieces[0].prompt, Total(pieces[1..]).prompt, rates.perKInput);
      ShareAdds(pieces[0].completion, Total(pieces[1..]).completion, rates.perKOutput);
    }
  }

  /** Charging a message in k >= 1 pieces costs at least the whole and at most the whole plus k - 1. */
  lemma PiecewiseCharge(rates: Rates, pieces: seq<Piece>)
    requires Sensible(rates) && pieces != []
    ensures var whole := CreditsFor(rates, Total(pieces).prompt, Total(pieces).completion);
            whole <= SumOfCredits(rates, pieces) <= whole + |pieces| - 1
  {
    SumBounds(rates, pieces);
    PieceBounds(rates, Total(pieces));
  }

  /** The rates of every model are sensible, so the piecewise bound applies to all of them. */
  lemma RatesAreSensible(pricing: Option<Pricing>, slack: real)
    requires SlackOk(slack)
    ensures Sensible(RatesFor(pricing, slack))
  {
    if pricing.Some? {
      RateCovers(pricing.value.prompt, slack);
      RateCovers(pricing.value.completion, slack);
    }
  }

  // ---- Estimates ----------------------------------------------------------------------------------

  function SumLengths(lengths: seq<nat>): nat {
    if lengths == [] then 0 else SumLengths(lengths[..|lengths| - 1]) + lengths[|lengths| - 1]
  }

  function QuarterUp(n: nat): nat { (n + 3) / 4 }

  /** A quarter, rounded up. */
  predicate IsQuarterUp(n: nat, q: nat) { 4 * q - 3 <= n <= 4 * q && (n == 0 ==> q == 0) }

  /** Every message charged on its own, the last piece being the completion. */
  function Apart(lengths: seq<nat>, completionLength: nat): seq<Piece> {
    if lengths == [] then [Piece(0, QuarterUp(completionLength))]
    else [Piece(QuarterUp(lengths[|lengths| - 1]), 0)] + Apart(lengths[..|lengths| - 1], completionLength)
  }

  /** Rounding up the sum of the lengths gives no more than rounding up each. */
  lemma {:induction false} ApartTotal(lengths: seq<nat>, completionLength: nat)
    ensures var whole := Total(Apart(lengths, completionLength));
            QuarterUp(SumLengths(lengths)) <= whole.prompt && whole.completion == QuarterUp(completionLength)
    decreases |lengths|
  {
    if lengths != [] {
      var before := lengths[..|lengths| - 1];
      ApartTotal(before, completionLength);
      assert Apart(lengths, completionLength)[1..] == Apart(before, completionLength);
    } else {
      assert Apart(lengths, completionLength)[1..] == [];
    }
  }

  /** More prompt tokens never cost less. */
  lemma CreditsForMonotone(rates: Rates, a: nat, b: nat, completion: nat)
    requires Sensible(rates) && a <= b
    ensures CreditsFor(rates, a, completion) <= CreditsFor(rates, b, completion)
  {
    ShareAdds(a, b - a, rates.perKInput);
    ShareAdds(b - a, 0, rates.perKInput);
    CeilMonotone(RawCost(rates, a, completion), RawCost(rates, b, completion));
  }

  lemma CeilMonotone(x: real, y: real)
    requires x <= y
    ensures Ceil(x) <= Ceil(y)
  {
  }

  lemma EstimateIsAtMostApart(rates: Rates, lengths: seq<nat>, completionLength: nat)
    requires Sensible(rates)
    ensures CreditsFor(rates, QuarterUp(SumLengths(lengths)), QuarterUp(completionLength))
        <= SumOfCredits(rates, Apart(lengths, completionLength))
  {
    hide CreditsFor;
    var pieces := Apart(lengths, completionLength);
    ApartTotal(lengths, completionLength);
    CreditsForMonotone(rates, QuarterUp(SumLengths(lengths)), Total(pieces).prompt, QuarterUp(completionLength));
    PiecewiseCharge(rates, pieces);
  }

  /** estimateCredits: `lengths` are the lengths of the messages whose content is a string. One charge for
      the summed characters, which is never more than charging every message on its own. */
  method EstimateCredits(rates: Rates, lengths: seq<nat>, completionLength: nat) returns (credits: int)
    ensures exists prompt: nat, completion: nat ::
      && IsQuarterUp(SumLengths(lengths), prompt) && IsQuarterUp(completionLength, completion)
      && credits == CreditsFor(rates, prompt, completion)
    ensures credits == CreditsFor(rates, QuarterUp(SumLengths(lengths)), QuarterUp(completionLength))
    ensures Sensible(rates) ==> credits <= SumOfCredits(rates, Apart(lengths, completionLength))
  {
    if Sensible(rates) { EstimateIsAtMostApart(rates, lengths, completionLength); }
    hide CreditsFor, SumOfCredits, Apart;
    var promptChars := 0;
    for i := 0 to |lengths|
      invariant promptChars == SumLengths(lengths[..i])
    {
      assert lengths[..i + 1][..i] == lengths[..i];
      promptChars := promptChars + lengths[i];
    }
    assert lengths[..|lengths|] == lengths;
    credits := CreditsFor(rates, QuarterUp(promptChars), QuarterUp(completionLength));
    assert IsQuarterUp(promptChars, QuarterUp(promptChars))
      && IsQuarterUp(completionLength, QuarterUp(completionLength));
  }

  // ---- Picker badge -------------------------------------------------------------------------------

  const MULTIPLIER_LADDER: seq<real> := [1.0, 2.0, 5.0, 10.0, 25.0, 50.0, 100.0]

  /** The least multiplier that covers the ratio of the output rates up to EPS, or the top one when none
      does, pricing is missing or the baseline has no positive rate. */
  method MultiplierFor(model: Rates, baseline: Rates) returns (m: real)
    ensures m in MULTIPLIER_LADDER
    ensures model.fallback || baseline.perKOutput <= 0.0 ==> m == 100.0
    ensures !model.fallback && baseline.perKOutput > 0.0 ==>
      var ratio := model.perKOutput / baseline.perKOutput;
      && (ratio <= m + EPS || m == 100.0)
      && forall rung :: rung in MULTIPLIER_LADDER && rung < m ==> rung + EPS < ratio
  {
    var top := |MULTIPLIER_LADDER| - 1;
    assert MULTIPLIER_LADDER[top] == 100.0;
    if model.fallback || baseline.perKOutput <= 0.0 { return MULTIPLIER_LADDER[top]; }
    var ratio := model.perKOutput / baseline.perKOutput;
    for i := 0 to |MULTIPLIER_LADDER|
      invariant forall j :: 0 <= j < i ==> MULTIPLIER_LADDER[j] + EPS < ratio
    {
      if MULTIPLIER_LADDER[i] + EPS >= ratio {
        LadderIsSorted(i);
        return MULTIPLIER_LADDER[i];
      }
    }
    m := MULTIPLIER_LADDER[top];
  }

  lemma LadderIsSorted(i: nat)
    requires i < |MULTIPLIER_LADDER|
    ensures forall rung ::
        rung in MULTIPLIER_LADDER && rung < MULTIPLIER_LADDER[i] ==>
        exists j :: 0 <= j < i && MULTIPLIER_LADDER[j] == rung
  {}
}
