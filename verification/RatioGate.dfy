/** The control-normalised ratio gate (scripts/loadgen.py:382-429), with reals for floats. */
module RatioGate {
  import opened Wrappers

  const CONTROL: string := "meta"

  /** The p95 of every scenario of a warm phase; None where none was recorded. */
  type Phase = map<string, Option<real>>

  /** `phase.get(name, {}).get("latency_ms", {}).get("p95")` */
  function P95(phase: Phase, name: string): Option<real>
  {
    if name in phase then phase[name] else None
  }

  /** `_control_p95`: zero counts as missing. */
  function ControlP95(phase: Phase): Option<real>
  {
    if P95(phase, CONTROL) == Some(0.0) then None else P95(phase, CONTROL)
  }

  predicate Comparable(current: Phase, baseline: Phase)
  {
    ControlP95(current).Some? && ControlP95(baseline).Some?
  }

  /** A scenario the gate has numbers for in both runs. */
  predicate Measured(current: Phase, baseline: Phase, name: string)
  {
    && name in current && name != CONTROL
    && P95(baseline, name).Some? && P95(baseline, name).value != 0.0
    && P95(current, name).Some?
  }

  /** A scenario's p95 in units of the run's own control. */
  function Norm(phase: Phase, name: string): real
    requires P95(phase, name).Some? && ControlP95(phase).Some?
  {
    P95(phase, name).value / ControlP95(phase).value
  }

  predicate Regressed(current: Phase, baseline: Phase, name: string, maxRatio: real)
    requires Comparable(current, baseline)
  {
    Measured(current, baseline, name) && Norm(current, name) / Norm(baseline, name) > maxRatio
  }

  datatype Verdict = Unmeasured | Failing(names: seq<string>)

  /** `_ratio_gate`, for the scenarios of the current run in the order they are listed. */
  method Gate(names: seq<string>, current: Phase, baseline: Phase, maxRatio: real) returns (verdict: Verdict)
    requires forall n :: n in names <==> n in current
    ensures verdict.Unmeasured? <==> !Comparable(current, baseline)
    ensures verdict.Failing? ==> forall n :: n in verdict.names <==> Regressed(current, baseline, n, maxRatio)
    ensures verdict.Unmeasured? <==> !(Positive("meta", current) || Negative("meta", current))
                                     || !(Positive("meta", baseline) || Negative("meta", baseline))
    ensures verdict.Failing? && Positive("meta", current) && Positive("meta", baseline) ==>
              forall n :: n !in baseline || baseline[n].None? || baseline[n].value >= 0.0 ==>
                (n in verdict.names <==> Slower(current, baseline, n, maxRatio))
  {
    ControlExactly(current);
    ControlExactly(baseline);
    forall n | Positive("meta", current) && Positive("meta", baseline)
               && (n !in baseline || baseline[n].None? || baseline[n].value >= 0.0)
      ensures Regressed(current, baseline, n, maxRatio) <==> Slower(current, baseline, n, maxRatio)
    {
      RegressedExactly(current, baseline, n, maxRatio);
    }
    hide Slower, Positive, Negative;
    var baseControl, curControl := ControlP95(baseline), ControlP95(current);
    if baseControl.None? || curControl.None? {
      return Unmeasured;
    }
    var failures: seq<string> := [];
    for i := 0 to |names|
      invariant forall n :: n in failures <==> n in names[..i] && Regressed(current, baseline, n, maxRatio)
    {
      assert names[..i + 1] == names[..i] + [names[i]];
      if names[i] == CONTROL {
        continue;
      }
      var recorded, observed := P95(baseline, names[i]), P95(current, names[i]);
      if recorded.None? || recorded.value == 0.0 || observed.None? {
        continue;
      }
      var baseNorm, curNorm := recorded.value / baseControl.value, observed.value / curControl.value;
      NonZeroQuotient(recorded.value, baseControl.value);
      var ratio := curNorm / baseNorm;
      if ratio > maxRatio {
        failures := failures + [names[i]];
      }
    }
    assert names[..|names|] == names;
    verdict := Failing(failures);
  }

  // ---- in milliseconds

  predicate Positive(name: string, phase: Phase)
  {
    name in phase && phase[name].Some? && phase[name].value > 0.0
  }

  predicate Negative(name: string, phase: Phase)
  {
    name in phase && phase[name].Some? && phase[name].value < 0.0
  }

  /** Measured in both runs, and slower by more than the band once both controls are multiplied out. */
  predicate Slower(current: Phase, baseline: Phase, name: string, maxRatio: real)
    requires Positive("meta", current) && Positive("meta", baseline)
  {
    && name != "meta" && Positive(name, baseline) && name in current && current[name].Some?
    && current[name].value * baseline["meta"].value > maxRatio * baseline[name].value * current["meta"].value
  }

  lemma ControlExactly(phase: Phase)
    ensures ControlP95(phase).Some? <==> Positive("meta", phase) || Negative("meta", phase)
  {
  }

  /** The gate's quotient of quotients is this comparison of products. */
  lemma RegressedExactly(current: Phase, baseline: Phase, name: string, maxRatio: real)
    requires Positive("meta", current) && Positive("meta", baseline)
    requires name !in baseline || baseline[name].None? || baseline[name].value >= 0.0
    ensures Comparable(current, baseline)
    ensures Regressed(current, baseline, name, maxRatio) <==> Slower(current, baseline, name, maxRatio)
  {
    if Measured(current, baseline, name) {
      CrossMultiplied(current[name].value, current["meta"].value, baseline[name].value, baseline["meta"].value, maxRatio);
    }
  }

  lemma CrossMultiplied(observed: real, curControl: real, recorded: real, baseControl: real, maxRatio: real)
    requires curControl > 0.0 && recorded > 0.0 && baseControl > 0.0
    ensures recorded / baseControl > 0.0
    ensures (observed / curControl) / (recorded / baseControl) > maxRatio
        <==> observed * baseControl > maxRatio * recorded * curControl
  {
    var c, b := observed / curControl, recorded / baseControl;
    PositiveQuotient(recorded, baseControl);
    QuotientBound(c, b, maxRatio);
    QuotientBound(observed, curControl, maxRatio * b);
    assert b * baseControl == recorded;
    Scale(observed, maxRatio * b * curControl, baseControl);
    assert maxRatio * b * curControl * baseControl == maxRatio * (b * baseControl) * curControl by {
      Rearranged(maxRatio, b, curControl, baseControl);
    }
  }

  lemma Rearranged(r: real, b: real, c: real, k: real)
    ensures r * b * c * k == r * (b * k) * c
  {
    assert r * b * c * k == r * b * k * c;
    assert r * b * k == r * (b * k);
  }

  lemma Scale(x: real, y: real, k: real)
    requires k > 0.0
    ensures x <= y <==> x * k <= y * k
  {
    if x <= y {
      assert (y - x) * k >= 0.0;
    } else {
      assert (x - y) * k > 0.0;
    }
  }

  /** Slowing a scenario down further never takes it off the list. */
  lemma SlowerStaysNamed(current: Phase, baseline: Phase, name: string, maxRatio: real, slower: real)
    requires Positive("meta", current) && Positive("meta", baseline) && Positive(name, baseline)
    requires name in current && current[name].Some? && name != "meta" && slower >= current[name].value
    ensures Comparable(current, baseline) && Comparable(current[name := Some(slower)], baseline)
    ensures Regressed(current, baseline, name, maxRatio) ==>
              Regressed(current[name := Some(slower)], baseline, name, maxRatio)
  {
    var after := current[name := Some(slower)];
    RegressedExactly(current, baseline, name, maxRatio);
    RegressedExactly(after, baseline, name, maxRatio);
    Scale(current[name].value, slower, baseline["meta"].value);
    hide Regressed, Measured;
  }

  lemma NonZeroQuotient(x: real, y: real)
    requires x != 0.0 && y != 0.0
    ensures x / y != 0.0
  {
    assert x / y * y == x;
  }

  // ---- the algebra of the gate

  lemma QuotientOfScaled(x: real, y: real, k: real)
    requires y != 0.0 && k != 0.0
    ensures k * y != 0.0 && (k * x) / (k * y) == x / y
  {
    var z := x / y;
    assert z * y == x;
    assert z * (k * y) == k * (z * y);
    assert k * y != 0.0;
    assert (z * (k * y)) / (k * y) == z;
  }

  /** Every p95 of the run multiplied by `k`: the same work on a slower or faster machine. */
  function Scaled(phase: Phase, k: real): Phase
  {
    map n | n in phase :: match phase[n] case None => None case Some(v) => Some(k * v)
  }

  lemma ScaledNorm(phase: Phase, k: real, name: string)
    requires k > 0.0
    ensures ControlP95(Scaled(phase, k)).Some? <==> ControlP95(phase).Some?
    ensures P95(Scaled(phase, k), name).Some? <==> P95(phase, name).Some?
    ensures P95(phase, name).Some? ==> (P95(Scaled(phase, k), name).value == 0.0 <==> P95(phase, name).value == 0.0)
    ensures P95(phase, name).Some? && ControlP95(phase).Some? ==> Norm(Scaled(phase, k), name) == Norm(phase, name)
  {
    if P95(phase, name).Some? && ControlP95(phase).Some? {
      QuotientOfScaled(P95(phase, name).value, ControlP95(phase).value, k);
    }
  }

  /** A uniformly slower machine, in either run, changes no verdict. */
  lemma VerdictIgnoresMachineSpeed(current: Phase, baseline: Phase, j: real, k: real, name: string, maxRatio: real)
    requires j > 0.0 && k > 0.0
    ensures Comparable(Scaled(current, j), Scaled(baseline, k)) <==> Comparable(current, baseline)
    ensures Comparable(current, baseline) ==>
              (Regressed(Scaled(current, j), Scaled(baseline, k), name, maxRatio) <==>
                 Regressed(current, baseline, name, maxRatio))
  {
    ScaledNorm(current, j, name);
    ScaledNorm(baseline, k, name);
    hide Norm, ControlP95;
  }

  /** A wider band fails no more. */
  lemma WiderBandFailsLess(current: Phase, baseline: Phase, name: string, r: real, s: real)
    requires Comparable(current, baseline) && r <= s
    ensures Regressed(current, baseline, name, s) ==> Regressed(current, baseline, name, r)
  {
  }

  /** A run compared with itself passes at any band from one upwards. */
  lemma PassesItself(phase: Phase, name: string, maxRatio: real)
    requires Comparable(phase, phase) && maxRatio >= 1.0
    ensures !Regressed(phase, phase, name, maxRatio)
  {
    if Measured(phase, phase, name) {
      NonZeroQuotient(P95(phase, name).value, ControlP95(phase).value);
    }
  }

  lemma NonPositiveProduct(x: real, y: real)
    ensures x <= 0.0 && y > 0.0 ==> x * y <= 0.0
  {
    if x <= 0.0 && y > 0.0 {
      assert (-x) * y >= 0.0;
    }
  }

  lemma PositiveQuotient(x: real, y: real)
    requires x > 0.0 && y > 0.0
    ensures x / y > 0.0
  {
    assert x / y * y == x;
    NonPositiveProduct(x / y, y);
  }

  lemma QuotientBound(x: real, y: real, r: real)
    requires y > 0.0
    ensures x / y <= r <==> x <= r * y
  {
    var z := x / y;
    assert z * y == x;
    if z <= r {
      assert (r - z) * y >= 0.0;
      assert (r - z) * y == r * y - x;
    } else {
      assert (z - r) * y > 0.0;
      assert (z - r) * y == x - r * y;
    }
  }

  /** Positive p95s everywhere a verdict needs them. */
  predicate AllPositive(phase: Phase, name: string)
  {
    && P95(phase, name).Some? && P95(phase, name).value > 0.0
    && P95(phase, CONTROL).Some? && P95(phase, CONTROL).value > 0.0
  }

  /** Two passed comparisons in a row bound the combined growth by the product of their bands. */
  lemma BandsCompose(a: Phase, b: Phase, c: Phase, name: string, r1: real, r2: real)
    requires AllPositive(a, name) && AllPositive(b, name) && AllPositive(c, name) && name != CONTROL
    ensures Comparable(b, a) && Comparable(c, b) && Comparable(c, a)
    ensures !Regressed(b, a, name, r1) && !Regressed(c, b, name, r2) ==> !Regressed(c, a, name, r1 * r2)
  {
    PositiveQuotient(P95(a, name).value, ControlP95(a).value);
    PositiveQuotient(P95(b, name).value, ControlP95(b).value);
    PositiveQuotient(P95(c, name).value, ControlP95(c).value);
    var na, nb, nc := Norm(a, name), Norm(b, name), Norm(c, name);
    hide Norm;
    QuotientBound(nb, na, r1);
    QuotientBound(nc, nb, r2);
    QuotientBound(nc, na, r1 * r2);
    if nb <= r1 * na && nc <= r2 * nb {
      Chained(na, nb, nc, r1, r2);
    }
  }

  lemma Chained(na: real, nb: real, nc: real, r1: real, r2: real)
    requires nb > 0.0 && nc > 0.0 && nb <= r1 * na && nc <= r2 * nb
    ensures nc <= (r1 * r2) * na
  {
    NonPositiveProduct(r2, nb);
    assert r2 * (r1 * na - nb) >= 0.0;
    assert r2 * (r1 * na - nb) == (r1 * r2) * na - r2 * nb;
  }
}
