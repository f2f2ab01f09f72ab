/** Modified Dietz capital base of one trading day: opening capital plus flows weighted by the session left. */
module BrokerReturn {
  import opened Clock
  import opened Int64
  import opened Text

  datatype CashFlow = CashFlow(date: string, time: string, id: string, code: string, subject: string,
                               inCents: int, outCents: int)

  const SESSION_START: int := 34200
  const SESSION_END: int := 54000

  // Weights

  function WeightAt(seconds: nat): real {
    if seconds <= SESSION_START then 1.0
    else if seconds >= SESSION_END then 0.0
    else (SESSION_END - seconds) as real / 19800.0
  }

  function FlowWeight(time: string): real {
    match ParseClock(TrimSpace(time))
    case None => 0.5
    case Some(seconds) => WeightAt(seconds)
  }

  /** A weight is a whole number of seconds over the length of the session. */
  lemma WeightAtIsAFraction(seconds: nat) returns (parts: nat)
    ensures parts <= 19800 && WeightAt(seconds) * 19800.0 == parts as real
    ensures 0.0 <= WeightAt(seconds) <= 1.0
  {
    parts := if seconds <= SESSION_START then 19800 else if seconds >= SESSION_END then 0 else SESSION_END - seconds;
  }

  lemma WeightIsAFraction(time: string) returns (parts: nat)
    ensures parts <= 19800 && FlowWeight(time) * 19800.0 == parts as real
    ensures 0.0 <= FlowWeight(time) <= 1.0
  {
    var clock := ParseClock(TrimSpace(time));
    if clock.Some? {
      parts := WeightAtIsAFraction(clock.value);
    } else {
      parts := 9900;
    }
  }

  /** Later money weighs no more, and strictly less while the session runs. */
  lemma WeightNeverRises(earlier: nat, later: nat)
    requires earlier <= later
    ensures WeightAt(earlier) >= WeightAt(later)
    ensures SESSION_START <= earlier < later <= SESSION_END ==> WeightAt(earlier) > WeightAt(later)
  {
    var a := WeightAtIsAFraction(earlier);
    var b := WeightAtIsAFraction(later);
    assert (WeightAt(earlier) - WeightAt(later)) * 19800.0 == a as real - b as real;
  }

  // The denominator

  /** One flow as it enters the base, and as it is reported beside the day. */
  datatype Detail = Detail(id: string, cents: int, weight: real)

  function DetailOf(flow: CashFlow, weigh: string -> real): Detail {
    Detail(flow.id, Wrap(flow.inCents - flow.outCents), weigh(flow.time))
  }

  function Details(flows: seq<CashFlow>, weigh: string -> real): seq<Detail> {
    seq(|flows|, i requires 0 <= i < |flows| => DetailOf(flows[i], weigh))
  }

  function Weighted(openCents: int, details: seq<Detail>): real {
    if details == [] then openCents as real
    else
      var last := details[|details| - 1];
      Weighted(openCents, details[..|details| - 1]) + last.cents as real * last.weight
  }

  /** `math.Round`: half away from zero. */
  function Round(x: real): int {
    if x >= 0.0 then (x + 0.5).Floor else -((-x + 0.5).Floor)
  }

  /** Cents to the reported unit, kept to six decimals; a base that is not positive falls back to the opening. */
  function Denominator(openCents: int, details: seq<Detail>): real {
    var w := Weighted(openCents, details);
    Round((if w <= 0.0 then openCents as real else w) * 10000.0) as real / 1000000.0
  }

  method WeighFlows(openCents: int, flows: seq<CashFlow>, weigh: string -> real)
    returns (weightedCents: real, details: seq<Detail>)
    ensures details == Details(flows, weigh)
    ensures weightedCents == Weighted(openCents, details)
  {
    weightedCents, details := openCents as real, [];
    for k := 0 to |flows|
      invariant details == Details(flows[..k], weigh)
      invariant weightedCents == Weighted(openCents, details)
    {
      var detail := DetailOf(flows[k], weigh);
      assert (details + [detail])[..k] == details;
      weightedCents := weightedCents + detail.cents as real * detail.weight;
      details := details + [detail];
    }
    assert flows[..|flows|] == flows;
  }

  method ReturnDenominator(openCents: int, flows: seq<CashFlow>) returns (denominator: real, details: seq<Detail>)
    ensures details == Details(flows, FlowWeight)
    ensures denominator == Denominator(openCents, details)
    ensures openCents > 0 ==> denominator >= 0.000001
  {
    var weightedCents;
    weightedCents, details := WeighFlows(openCents, flows, FlowWeight);
    if openCents > 0 {
      PositiveOpenPositiveDenominator(openCents, flows);
    }
    if weightedCents <= 0.0 {
      weightedCents := openCents as real;
    }
    denominator := Round(weightedCents * 10000.0) as real / 1000000.0;
  }

  /** Is a weight a whole number of the session's seconds? */
  predicate Fractional(weight: real) {
    0.0 <= weight <= 1.0 && (weight * 19800.0).Floor as real == weight * 19800.0
  }

  lemma DetailsAreFractional(flows: seq<CashFlow>, details: seq<Detail>)
    requires details == Details(flows, FlowWeight)
    ensures forall d | d in details :: Fractional(d.weight)
  {
    forall i | 0 <= i < |details| ensures Fractional(details[i].weight) {
      var parts := WeightIsAFraction(flows[i].time);
    }
  }

  lemma Scaled(cents: int, weight: real, parts: nat)
    requires weight * 19800.0 == parts as real
    ensures cents as real * weight * 19800.0 == (cents * parts) as real
  {
    assert cents as real * weight * 19800.0 == cents as real * (weight * 19800.0);
  }

  lemma {:induction false} WeightedIsAFraction(openCents: int, details: seq<Detail>) returns (parts: int)
    requires forall d | d in details :: Fractional(d.weight)
    ensures Weighted(openCents, details) * 19800.0 == parts as real
    decreases |details|
  {
    if details == [] {
      parts := openCents * 19800;
    } else {
      var last := details[|details| - 1];
      var before := WeightedIsAFraction(openCents, details[..|details| - 1]);
      var weight := (last.weight * 19800.0).Floor;
      Scaled(last.cents, last.weight, weight);
      parts := before + last.cents * weight;
    }
  }

  /** The smallest positive weighted sum is one part of a cent, and that still rounds up to a millionth. */
  lemma PositiveOpenPositiveDenominator(openCents: int, flows: seq<CashFlow>)
    requires openCents > 0
    ensures Denominator(openCents, Details(flows, FlowWeight)) >= 0.000001
  {
    var details := Details(flows, FlowWeight);
    DetailsAreFractional(flows, details);
    var w := Weighted(openCents, details);
    var parts := WeightedIsAFraction(openCents, details);
    RoundsUp(if w <= 0.0 then openCents as real else w, if w <= 0.0 then openCents * 19800 else parts);
  }

  lemma RoundsUp(w: real, parts: int)
    requires w > 0.0 && w * 19800.0 == parts as real
    ensures Round(w * 10000.0) >= 1
  {
    assert parts >= 1;
    assert w * 10000.0 >= 0.5;
  }

  // How far flows can move the base

  function Deposited(details: seq<Detail>): real {
    if details == [] then 0.0
    else
      var last := details[|details| - 1];
      Deposited(details[..|details| - 1]) + (if last.cents > 0 then last.cents as real else 0.0)
  }

  function Withdrawn(details: seq<Detail>): real {
    if details == [] then 0.0
    else
      var last := details[|details| - 1];
      Withdrawn(details[..|details| - 1]) - (if last.cents < 0 then last.cents as real else 0.0)
  }

  /** The base never leaves the range between "all withdrawals at the open" and "all deposits at the open". */
  lemma {:induction false} WeightedStaysInRange(openCents: int, details: seq<Detail>)
    requires forall d | d in details :: 0.0 <= d.weight <= 1.0
    ensures Weighted(openCents, details) >= openCents as real - Withdrawn(details)
    ensures Weighted(openCents, details) <= openCents as real + Deposited(details)
    decreases |details|
  {
    if details != [] {
      var last := details[|details| - 1];
      var before, x := details[..|details| - 1], last.cents as real;
      WeightedStaysInRange(openCents, before);
      var p := ScaledDown(x, last.weight);
      assert Weighted(openCents, details) == Weighted(openCents, before) + p;
      StepInRange(openCents as real, Weighted(openCents, before), Withdrawn(before), Deposited(before), x, p);
    }
  }

  lemma ScaledDown(x: real, w: real) returns (p: real)
    requires 0.0 <= w <= 1.0
    ensures p == x * w
    ensures if x >= 0.0 then 0.0 <= p <= x else x <= p <= 0.0
  {
    p := x * w;
    assert x >= 0.0 ==> x * (1.0 - w) >= 0.0;
    assert x < 0.0 ==> x * (1.0 - w) <= 0.0;
  }

  lemma StepInRange(open: real, weighted: real, out: real, paidIn: real, x: real, p: real)
    requires open - out <= weighted <= open + paidIn
    requires if x >= 0.0 then 0.0 <= p <= x else x <= p <= 0.0
    ensures weighted + p >= open - (out - (if x < 0.0 then x else 0.0))
    ensures weighted + p <= open + (paidIn + (if x > 0.0 then x else 0.0))
  {
  }
}
