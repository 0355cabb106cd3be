/** The KPI card (frontend/src/components/KPICard.jsx): the colour and arrow of
    the monthly variation, and the progress towards the monthly goal. */
module KpiCard {
  import opened Wrappers
  import ChartUtils

  const Teal := "#00989E"
  const Red := "#F15137"
  const Grey := "#6B7280"
  const Orange := "#F78E3D"

  const Up := "↑"
  const Down := "↓"
  const Flat := "→"

  /** `getVariationColor`: teal for growth, red for a fall, grey for none. */
  function VariationColor(variation: real): (c: string)
    ensures c == Teal <==> variation > 0.0
    ensures c == Red <==> variation < 0.0
    ensures c == Grey <==> variation == 0.0
  {
    if variation > 0.0 then Teal
    else if variation < 0.0 then Red
    else Grey
  }

  /** `getVariationIcon`: the arrow by the same sign test. */
  function VariationIcon(variation: real): (i: string)
    ensures i == Up <==> variation > 0.0
    ensures i == Down <==> variation < 0.0
    ensures i == Flat <==> variation == 0.0
  {
    if variation > 0.0 then Up
    else if variation < 0.0 then Down
    else Flat
  }

  /** The arrow and the colour always agree. */
  lemma IconMatchesColor(variation: real)
    ensures VariationIcon(variation) == Up <==> VariationColor(variation) == Teal
    ensures VariationIcon(variation) == Down <==> VariationColor(variation) == Red
    ensures VariationIcon(variation) == Flat <==> VariationColor(variation) == Grey
  {
  }

  /** Fed with a variation computed against a positive previous value, the arrow
      points up exactly when the value grew and down exactly when it fell. */
  lemma ArrowShowsGrowth(current: real, previous: real)
    requires previous > 0.0
    ensures VariationIcon(ChartUtils.CalculateVariation(current, Some(previous))) == Up
      <==> current > previous
    ensures VariationIcon(ChartUtils.CalculateVariation(current, Some(previous))) == Down
      <==> current < previous
  {
    ChartUtils.VariationSign(current, previous);
  }

  /** The optional `meta` prop; a missing or null `monthly` is None. */
  datatype Meta = Meta(weekly: Option<real>, monthly: Option<real>)

  /** `!meta || !meta.monthly`: no goal, no monthly goal, or a monthly goal of 0. */
  predicate NoMonthlyGoal(meta: Option<Meta>)
  {
    meta.None? || meta.value.monthly.None? || meta.value.monthly.value == 0.0
  }

  /** `getMetaProgress`: null without a monthly goal, otherwise the share of the
      goal reached, capped at 100. */
  function MetaProgress(value: real, meta: Option<Meta>): (r: Option<real>)
    ensures r.None? <==> NoMonthlyGoal(meta)
    ensures r.Some? ==> r.value <= 100.0
    ensures r.Some? ==> (r.value == 100.0 <==> value / meta.value.monthly.value * 100.0 >= 100.0)
    ensures r.Some? && r.value < 100.0 ==> r.value * meta.value.monthly.value == value * 100.0
  {
    if NoMonthlyGoal(meta) then None
    else
      var m := meta.value.monthly.value;
      var progress := value / m * 100.0;
      assert progress * m == value * 100.0;
      Some(if progress < 100.0 then progress else 100.0)
  }

  /** The goal bar is drawn exactly when there is a progress; it is teal from 100
      and orange below. */
  function GoalBarColor(metaProgress: Option<real>): (c: Option<string>)
    ensures c.Some? <==> metaProgress.Some?
    ensures c.Some? ==> (c.value == Teal <==> metaProgress.value >= 100.0)
    ensures c.Some? ==> (c.value == Orange <==> metaProgress.value < 100.0)
  {
    match metaProgress
    case Some(p) => Some(if p >= 100.0 then Teal else Orange)
    case None => None
  }

  /** With a positive monthly goal, the bar is teal exactly when the value reaches
      the goal. */
  lemma {:induction false} GoalBarTealIffReached(value: real, monthly: real, weekly: Option<real>)
    requires monthly > 0.0
    ensures GoalBarColor(MetaProgress(value, Some(Meta(weekly, Some(monthly))))) == Some(Teal)
      <==> value >= monthly
  {
    var progress := value / monthly * 100.0;
    assert (progress - 100.0) * monthly == value * 100.0 - 100.0 * monthly;
  }
}
