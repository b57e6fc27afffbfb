/** Colour class and text of an APR badge (src/lib/ui.ts). */
module Ui {
  import opened Wrappers
  import opened Types
  import FundingMath

  const Muted: string := "text-muted"
  const Amber: string := "text-amber"
  const Akane: string := "text-akane"

  /**
   * `aprClass`: muted for a missing APR or one under 2% in magnitude, amber
   * for 2% and up, akane for -2% and below.
   */
  function AprClass(apr: Option<real>): (c: string)
    ensures c == Muted <==> apr.None? || Abs(apr.value) < 0.02
    ensures c == Amber <==> apr.Some? && apr.value >= 0.02
    ensures c == Akane <==> apr.Some? && apr.value <= -0.02
  {
    match apr
    case None => Muted
    case Some(a) =>
      if Abs(a) < 0.02 then Muted
      else if a >= 0.0 then Amber else Akane
  }

  /** Opposite rates get opposite colours. */
  lemma AprClassSymmetric(a: real)
    requires Abs(a) >= 0.02
    ensures AprClass(Some(a)) == Amber <==> AprClass(Some(-a)) == Akane
    ensures AprClass(Some(a)) != Muted
  {
  }

  datatype AprBadge = AprBadge(text: Display, className: string)

  /**
   * `formatAPRWithClass`: the class of `aprClass`, and the text '—' exactly
   * when the APR is missing, otherwise the text `formatAPR` produces.
   */
  function FormatAPRWithClass(apr: Option<real>): (b: AprBadge)
    ensures b.className == AprClass(apr)
    ensures b.text == Dash <==> apr.None?
    ensures apr.Some? ==> b.text == Shown(FundingMath.FormatAPR(apr.value))
  {
    var text :=
      match apr
      case Some(a) => Shown(NumberText(if a >= 0.0 then "+" else "", a * 100.0, 2, "%"))
      case None => Dash;
    AprBadge(text, AprClass(apr))
  }
}
