/** The delayed-heat state of firmware/src/thermal_response.rs over real numbers: one exponential lag
    with time constant tau, stepped exactly for held inputs. The exponential is a parameter. */
module HeatStep {
  import opened Arithmetic

  datatype HeatResponse = HeatResponse(delayMs: u32, decayMs: u32)

  datatype HeatStep = HeatStep(dtS: real, alpha: real, tailS: real)

  /** Two laws that single out the exponential function among all functions on the reals. */
  ghost predicate IsExp(exp: real -> real)
  {
    && (forall x, y :: exp(x + y) == exp(x) * exp(y))
    && (forall x :: exp(x) >= 1.0 + x)
  }

  function Tau(h: HeatResponse): (tau: real)
    ensures tau >= 0.1
  {
    Max(h.decayMs, 100) as real / 1000.0
  }

  /** The time constant is the decay time in seconds, but at least a tenth; the delay plays no part. */
  lemma TimeConstant(h: HeatResponse)
    ensures h.decayMs >= 100 ==> Tau(h) * 1000.0 == h.decayMs as real
    ensures h.decayMs < 100 ==> Tau(h) == 0.1
  {
  }

  function Discretize(h: HeatResponse, exp: real -> real, dtS: real): HeatStep
  {
    var alpha := exp(-dtS / Tau(h));
    HeatStep(dtS, alpha, Tau(h) * (1.0 - alpha))
  }

  function Received(s: HeatStep, received: real, input: real): real { input + (received - input) * s.alpha }

  function Energy(s: HeatStep, received: real, input: real): real { input * s.dtS + (received - input) * s.tailS }

  /** The heat state that the source passes by mutable reference. */
  class HeatCell {
    var receivedMw: real

    constructor (receivedMw: real)
      ensures this.receivedMw == receivedMw
    {
      this.receivedMw := receivedMw;
    }

    method Advance(step: HeatStep, inputMw: real) returns (energyMj: real)
      modifies this
      ensures energyMj == Energy(step, old(receivedMw), inputMw)
      ensures receivedMw == Received(step, old(receivedMw), inputMw)
    {
      energyMj := inputMw * step.dtS + (receivedMw - inputMw) * step.tailS;
      receivedMw := inputMw + (receivedMw - inputMw) * step.alpha;
    }

    /** What a step delivers is what was put in, less what the lag has stored. */
    method Step(h: HeatResponse, exp: real -> real, inputMw: real, dtS: real) returns (energyMj: real)
      modifies this
      ensures receivedMw == Received(Discretize(h, exp, dtS), old(receivedMw), inputMw)
      ensures energyMj == inputMw * dtS - Tau(h) * (receivedMw - old(receivedMw))
    {
      ghost var before := receivedMw;
      energyMj := Advance(Discretize(h, exp, dtS), inputMw);
      StepBalance(h, exp, before, inputMw, dtS);
    }
  }

  lemma StepBalance(h: HeatResponse, exp: real -> real, received: real, input: real, dtS: real)
    ensures var s := Discretize(h, exp, dtS);
            Energy(s, received, input) == input * dtS - Tau(h) * (Received(s, received, input) - received)
  {
    var alpha, gap := exp(-dtS / Tau(h)), received - input;
    assert gap * (Tau(h) * (1.0 - alpha)) == Tau(h) * (gap - gap * alpha);
  }

  // ---------------------------------------------------------------------------------------------
  // Schedules of held inputs.

  datatype Held = Held(inputMw: real, dtS: real)

  datatype Outcome = Outcome(receivedMw: real, energyMj: real)

  function Run(h: HeatResponse, exp: real -> real, received: real, held: seq<Held>): Outcome
    decreases |held|
  {
    if held == [] then Outcome(received, 0.0)
    else
      var s := Discretize(h, exp, held[0].dtS);
      var rest := Run(h, exp, Received(s, received, held[0].inputMw), held[1..]);
      Outcome(rest.receivedMw, Energy(s, received, held[0].inputMw) + rest.energyMj)
  }

  function Supplied(held: seq<Held>): real
    decreases |held|
  {
    if held == [] then 0.0 else held[0].inputMw * held[0].dtS + Supplied(held[1..])
  }

  /** Over any schedule the energy delivered is the energy supplied less what the lag has stored. */
  lemma {:induction false} EnergyIsConserved(h: HeatResponse, exp: real -> real, received: real, held: seq<Held>)
    ensures var r := Run(h, exp, received, held);
            r.energyMj == Supplied(held) - Tau(h) * (r.receivedMw - received)
    decreases |held|
  {
    if held != [] {
      var s := Discretize(h, exp, held[0].dtS);
      var next := Received(s, received, held[0].inputMw);
      StepBalance(h, exp, received, held[0].inputMw, held[0].dtS);
      EnergyIsConserved(h, exp, next, held[1..]);
      var r := Run(h, exp, received, held);
      Distribute(Tau(h), r.receivedMw - next, next - received);
    }
  }

  lemma Distribute(a: real, b: real, c: real)
    ensures a * (b + c) == a * b + a * c
  {
  }

  lemma RunOne(h: HeatResponse, exp: real -> real, received: real, input: real, dtS: real)
    ensures var s := Discretize(h, exp, dtS);
            Run(h, exp, received, [Held(input, dtS)])
            == Outcome(Received(s, received, input), Energy(s, received, input))
  {
    assert [Held(input, dtS)][1..] == [];
  }

  lemma RunTwo(h: HeatResponse, exp: real -> real, received: real, input: real, a: real, b: real)
    ensures var mid := Received(Discretize(h, exp, a), received, input);
            var second := Run(h, exp, mid, [Held(input, b)]);
            Run(h, exp, received, [Held(input, a), Held(input, b)])
            == Outcome(second.receivedMw, Energy(Discretize(h, exp, a), received, input) + second.energyMj)
  {
    assert [Held(input, a), Held(input, b)][1..] == [Held(input, b)];
  }

  lemma DecayMultiplies(h: HeatResponse, exp: real -> real, a: real, b: real)
    requires IsExp(exp)
    ensures Discretize(h, exp, a + b).alpha == Discretize(h, exp, a).alpha * Discretize(h, exp, b).alpha
  {
    hide IsExp, Tau;
    var tau := Tau(h);
    Quotients(a, b, tau);
    ExpSum(exp, -a / tau, -b / tau);
  }

  lemma Quotients(a: real, b: real, c: real)
    requires c > 0.0
    ensures -a / c + -b / c == -(a + b) / c
  {
  }

  lemma ExpSum(exp: real -> real, x: real, y: real)
    requires IsExp(exp)
    ensures exp(x + y) == exp(x) * exp(y)
  {
  }

  /** Cutting one held interval in two changes neither the state nor the energy. */
  lemma SplitInterval(h: HeatResponse, exp: real -> real, received: real, input: real, a: real, b: real)
    requires IsExp(exp)
    ensures Run(h, exp, received, [Held(input, a), Held(input, b)]) == Run(h, exp, received, [Held(input, a + b)])
  {
    hide Run, Discretize, IsExp, Energy, Tau;
    var sa, sb, s := Discretize(h, exp, a), Discretize(h, exp, b), Discretize(h, exp, a + b);
    RunTwo(h, exp, received, input, a, b);
    var mid := Received(sa, received, input);
    RunOne(h, exp, mid, input, b);
    RunOne(h, exp, received, input, a + b);
    DecayMultiplies(h, exp, a, b);
    SameState(received - input, sa.alpha, sb.alpha, s.alpha);
    var end := Received(s, received, input);
    assert end == Received(sb, mid, input);
    StepBalance(h, exp, received, input, a);
    StepBalance(h, exp, mid, input, b);
    StepBalance(h, exp, received, input, a + b);
    Distribute(Tau(h), mid - received, end - mid);
    Distribute(input, a, b);
  }

  lemma SameState(gap: real, a: real, b: real, c: real)
    requires c == a * b
    ensures gap * c == gap * a * b
  {
  }

  function Duration(held: seq<Held>): real
    decreases |held|
  {
    if held == [] then 0.0 else held[0].dtS + Duration(held[1..])
  }

  /** However finely a held input is cut up, the outcome is that of one step over the whole. */
  lemma {:induction false} AnySubdivision(h: HeatResponse, exp: real -> real, received: real, input: real,
                                          held: seq<Held>)
    requires IsExp(exp)
    requires forall k :: 0 <= k < |held| ==> held[k].inputMw == input
    ensures Run(h, exp, received, held) == Run(h, exp, received, [Held(input, Duration(held))])
    decreases |held|
  {
    hide IsExp;
    if held == [] {
      NoTime(h, exp, received, input);
    } else {
      hide Discretize, Energy, Received;
      var a, b := held[0].dtS, Duration(held[1..]);
      var s := Discretize(h, exp, a);
      var next := Received(s, received, input);
      AnySubdivision(h, exp, next, input, held[1..]);
      SplitInterval(h, exp, received, input, a, b);
      RunTwo(h, exp, received, input, a, b);
    }
  }

  lemma NoTime(h: HeatResponse, exp: real -> real, received: real, input: real)
    requires IsExp(exp)
    ensures Run(h, exp, received, [Held(input, 0.0)]) == Outcome(received, 0.0)
  {
    assert [Held(input, 0.0)][1..] == [];
    ExpAtZero(exp);
  }

  lemma ExpAtZero(exp: real -> real)
    requires IsExp(exp)
    ensures exp(0.0) == 1.0
  {
    var e := exp(0.0);
    assert exp(0.0 + 0.0) == e * e;
    assert e >= 1.0 + 0.0;
    Idempotent(e);
  }

  lemma Idempotent(e: real)
    requires e >= 1.0 && e * e == e
    ensures e == 1.0
  {
    assert e == e * e / e == e / e;
  }

  // ---------------------------------------------------------------------------------------------
  // The rate.

  lemma DecayIsFirstOrder(exp: real -> real, x: real)
    requires IsExp(exp) && x >= 0.0
    ensures x - x * x <= 1.0 - exp(-x) <= x
  {
    var e, f := exp(-x), exp(x);
    DecayBounds(exp, x);
    ExpSum(exp, -x, x);
    ExpAtZero(exp);
    assert e * f == 1.0 && f >= 1.0 + x;
    hide IsExp;
    BelowReciprocal(e, f, x);
  }

  lemma BelowReciprocal(e: real, f: real, x: real)
    requires x >= 0.0 && e > 0.0 && e * f == 1.0 && f >= 1.0 + x
    ensures e <= 1.0 - x + x * x
  {
    ScaleUp(e, 1.0 + x, f);
    assert e * (1.0 + x) <= 1.0;
    Cubed(x);
    if e > 1.0 - x + x * x {
      Larger(e, 1.0 - x + x * x, 1.0 + x);
    }
  }

  lemma Cubed(x: real)
    requires x >= 0.0
    ensures (1.0 - x + x * x) * (1.0 + x) >= 1.0
  {
    var y := x * x;
    ScaleUp(x, 0.0, x);
    ScaleUp(x, 0.0, y);
    assert (1.0 - x + y) * (1.0 + x) == 1.0 - y + y + x * y;
  }

  lemma Larger(a: real, b: real, c: real)
    requires a > b && c > 0.0
    ensures a * c > b * c
  {
  }

  /** Over a short step the state closes the gap to the input at the rate of one gap per time constant, up
      to a term of second order; the step is exact, so this fixes which exponential it follows. */
  lemma RateOfApproach(h: HeatResponse, exp: real -> real, received: real, input: real, dtS: real)
    requires IsExp(exp) && dtS >= 0.0 && input >= received
    ensures var x := dtS / Tau(h);
            var closed := Received(Discretize(h, exp, dtS), received, input) - received;
            (input - received) * (x - x * x) <= closed <= (input - received) * x
  {
    hide IsExp, Tau;
    var x := dtS / Tau(h);
    Quotient(dtS, Tau(h));
    DecayIsFirstOrder(exp, x);
    var e, gap := exp(-x), input - received;
    assert Discretize(h, exp, dtS).alpha == e;
    hide Discretize;
    assert Received(Discretize(h, exp, dtS), received, input) - received == gap * (1.0 - e) by {
      Gap(received, input, e);
    }
    ScaleOrder(gap, x - x * x, 1.0 - e);
    ScaleOrder(gap, 1.0 - e, x);
  }

  lemma Gap(received: real, input: real, e: real)
    ensures input + (received - input) * e - received == (input - received) * (1.0 - e)
  {
  }

  lemma ScaleOrder(a: real, b: real, c: real)
    requires a >= 0.0 && b <= c
    ensures a * b <= a * c
  {
  }

  // ---------------------------------------------------------------------------------------------
  // Bounds.

  lemma DecayBounds(exp: real -> real, x: real)
    requires IsExp(exp) && x >= 0.0
    ensures 0.0 < exp(-x) <= 1.0 && 1.0 - exp(-x) <= x
  {
    var e, f := exp(-x), exp(x);
    assert exp(-x + x) == e * f;
    ExpAtZero(exp);
    assert f >= 1.0 && e >= 1.0 + -x;
    Reciprocal(e, f);
  }

  lemma Reciprocal(e: real, f: real)
    requires e * f == 1.0 && f >= 1.0
    ensures 0.0 < e <= 1.0
  {
    assert e == 1.0 / f;
  }

  /** Energy delivered over a time at a mean power between the bounds. */
  predicate MeanWithin(energy: real, time: real, low: real, high: real)
  {
    low * time <= energy <= high * time
  }

  /** A step of non-negative length keeps the state between its old value and the input, and delivers
      a mean power between the two. */
  lemma StepIsMean(h: HeatResponse, exp: real -> real, received: real, input: real, dtS: real, low: real, high: real)
    requires IsExp(exp) && dtS >= 0.0
    requires low <= received <= high && low <= input <= high
    ensures low <= Received(Discretize(h, exp, dtS), received, input) <= high
    ensures MeanWithin(Energy(Discretize(h, exp, dtS), received, input), dtS, low, high)
  {
    hide Discretize, IsExp;
    var s := Discretize(h, exp, dtS);
    TailBounds(h, exp, dtS);
    Mean(received, input, s.alpha, low, high);
    MeanOver(received, input, s.tailS, dtS, low, high);
  }

  lemma TailBounds(h: HeatResponse, exp: real -> real, dtS: real)
    requires IsExp(exp) && dtS >= 0.0
    ensures var s := Discretize(h, exp, dtS); 0.0 <= s.alpha <= 1.0 && 0.0 <= s.tailS <= dtS && s.dtS == dtS
  {
    hide IsExp, Tau;
    var tau := Tau(h);
    var x := dtS / tau;
    Quotient(dtS, tau);
    DecayBounds(exp, x);
    var e := exp(-x);
    assert Discretize(h, exp, dtS) == HeatStep(dtS, e, tau * (1.0 - e));
    hide Discretize;
    TailWithin(tau, e, x, dtS);
  }

  lemma TailWithin(tau: real, e: real, x: real, dtS: real)
    requires tau >= 0.0 && 0.0 <= 1.0 - e <= x && tau * x == dtS
    ensures 0.0 <= tau * (1.0 - e) <= dtS
  {
    ScaleUp(tau, 1.0 - e, x);
  }

  lemma Quotient(a: real, b: real)
    requires a >= 0.0 && b > 0.0
    ensures a / b >= 0.0 && b * (a / b) == a && -a / b == -(a / b)
  {
  }

  lemma ScaleUp(a: real, b: real, c: real)
    requires a >= 0.0 && 0.0 <= b <= c
    ensures 0.0 <= a * b <= a * c
  {
  }

  lemma Mean(u: real, v: real, alpha: real, low: real, high: real)
    requires 0.0 <= alpha <= 1.0 && low <= u <= high && low <= v <= high
    ensures low <= v + (u - v) * alpha <= high
  {
    MeanOver(u, v, alpha, 1.0, low, high);
  }

  lemma MeanOver(u: real, v: real, part: real, whole: real, low: real, high: real)
    requires 0.0 <= part <= whole && low <= u <= high && low <= v <= high
    ensures low * whole <= v * whole + (u - v) * part <= high * whole
  {
    ScaleUp(part, u - low, high - low);
    ScaleUp(whole - part, v - low, high - low);
    assert v * whole + (u - v) * part == u * part + v * (whole - part);
    assert (u - low) * part + (v - low) * (whole - part) == u * part + v * (whole - part) - low * whole;
    assert (high - low) * part + (high - low) * (whole - part) == high * whole - low * whole;
  }

  predicate InBand(held: seq<Held>, low: real, high: real)
  {
    forall k :: 0 <= k < |held| ==> held[k].dtS >= 0.0 && low <= held[k].inputMw <= high
  }

  /** Whole schedules: inputs in a band keep the state in the band and deliver energy within it. */
  lemma {:induction false} RunIsMean(h: HeatResponse, exp: real -> real, received: real, held: seq<Held>, low: real,
                                     high: real)
    requires IsExp(exp) && low <= received <= high && InBand(held, low, high)
    ensures var r := Run(h, exp, received, held);
            && low <= r.receivedMw <= high
            && MeanWithin(r.energyMj, Duration(held), low, high)
    decreases |held|
  {
    hide IsExp;
    if held == [] {
      return;
    }
    var first, tail := held[0], held[1..];
    var s := Discretize(h, exp, first.dtS);
    var next, energy := Received(s, received, first.inputMw), Energy(s, received, first.inputMw);
    var rest := Run(h, exp, next, tail);
    assert Run(h, exp, received, held) == Outcome(rest.receivedMw, energy + rest.energyMj);
    assert Duration(held) == first.dtS + Duration(tail);
    assert first.dtS >= 0.0 && low <= first.inputMw <= high && InBand(tail, low, high);
    hide Discretize, Received, Energy, Run, Duration, InBand, MeanWithin;
    StepIsMean(h, exp, received, first.inputMw, first.dtS, low, high);
    RunIsMean(h, exp, next, tail, low, high);
    BandSum(low, high, first.dtS, Duration(tail), energy, rest.energyMj);
  }

  lemma BandSum(low: real, high: real, a: real, b: real, x: real, y: real)
    requires MeanWithin(x, a, low, high) && MeanWithin(y, b, low, high)
    ensures MeanWithin(x + y, a + b, low, high)
  {
  }
}
