/** The goal gauge (frontend/src/components/GaugeChart.jsx): the share of the goal
    reached, its colour band and status text, and the "Faltam" remainder. */
module GaugeChart {
  import opened Wrappers

  /** `percentage`: `Math.min(value / target * 100, 100)` for a positive target,
      0 otherwise. */
  function Percentage(value: real, target: real): (p: real)
    ensures target <= 0.0 ==> p == 0.0
    ensures p <= 100.0
    ensures value >= 0.0 ==> p >= 0.0
    ensures target > 0.0 ==> (p == 100.0 <==> value >= target)
    ensures target > 0.0 && value < target ==> p * target == value * 100.0
  {
    if target > 0.0 then
      var ratio := value / target * 100.0;
      assert ratio * target == value * 100.0;
      assert value >= target ==> ratio >= 100.0 by {
        if value >= target {
          assert ratio * target >= 100.0 * target;
        }
      }
      assert ratio >= 100.0 ==> value >= target by {
        if ratio >= 100.0 {
          assert value * 100.0 >= 100.0 * target;
        }
      }
      if ratio < 100.0 then ratio else 100.0
    else 0.0
  }

  const Teal := "#00989E"
  const Orange := "#F78E3D"
  const Red := "#F15137"

  /** `getColor`: teal for the goal reached, orange from 80%, red below. */
  function GaugeColor(percentage: real): (c: string)
    ensures c == Teal <==> percentage >= 100.0
    ensures c == Orange <==> 80.0 <= percentage < 100.0
    ensures c == Red <==> percentage < 80.0
  {
    if percentage >= 100.0 then Teal
    else if percentage >= 80.0 then Orange
    else Red
  }

  const MetaAtingida := "✓ Meta atingida!"
  const Proximo := "⚠ Próximo da meta"
  const Abaixo := "✗ Abaixo da meta"

  /** `getStatusText`, with the thresholds of the colour. */
  function StatusText(percentage: real): (t: string)
    ensures t == MetaAtingida <==> percentage >= 100.0
    ensures t == Proximo <==> 80.0 <= percentage < 100.0
    ensures t == Abaixo <==> percentage < 80.0
  {
    if percentage >= 100.0 then MetaAtingida
    else if percentage >= 80.0 then Proximo
    else Abaixo
  }

  /** The text always names the colour's band. */
  lemma TextMatchesColor(percentage: real)
    ensures StatusText(percentage) == MetaAtingida <==> GaugeColor(percentage) == Teal
    ensures StatusText(percentage) == Proximo <==> GaugeColor(percentage) == Orange
    ensures StatusText(percentage) == Abaixo <==> GaugeColor(percentage) == Red
  {
  }

  /** With a positive target, the gauge reports the goal reached exactly when the
      value reaches the target. */
  lemma GoalReachedIffValueAtTarget(value: real, target: real)
    requires target > 0.0
    ensures StatusText(Percentage(value, target)) == MetaAtingida <==> value >= target
  {
  }

  /** With `p * target == value * 100` and a positive target, `p` reaches a
      threshold `k` exactly when the value reaches `k`% of the target. */
  lemma ScaledThreshold(p: real, value: real, target: real, k: real)
    requires target > 0.0 && p * target == value * 100.0
    ensures p >= k <==> value * 100.0 >= k * target
  {
    assert (p - k) * target == value * 100.0 - k * target;
  }

  /** With a positive target, the gauge is orange exactly when the value is at
      least 80% of the target and short of it. */
  lemma OrangeIffNearTarget(value: real, target: real)
    requires target > 0.0
    ensures GaugeColor(Percentage(value, target)) == Orange <==> 0.8 * target <= value < target
  {
    var p := Percentage(value, target);
    if value < target {
      ScaledThreshold(p, value, target, 80.0);
    }
  }

  /** The "Faltam: …" line: shown when `value < target`, with `target - value`. */
  function Remaining(value: real, target: real): (r: Option<real>)
    ensures r.Some? <==> value < target
    ensures r.Some? ==> r.value > 0.0 && value + r.value == target
  {
    if value < target then Some(target - value) else None
  }

  /** With a positive target, the remainder is shown exactly when the goal is not
      reported as reached. */
  lemma RemainingIffGoalMissed(value: real, target: real)
    requires target > 0.0
    ensures Remaining(value, target).Some? <==> StatusText(Percentage(value, target)) != MetaAtingida
  {
  }
}
