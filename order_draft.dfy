/** The checkout draft: the dinner being put together on the menu page and
    completed at checkout. */
module OrderDraft {
  import opened Wrappers
  import opened MenuSchema

  datatype OrderDraft = OrderDraft(
    dinnerType: Option<string>,  // the chosen menu id; none before a choice
    style: Style,
    baguetteCount: int,
    champagneCount: int,
    deliveryDate: string,        // "YYYY-MM-DD HH:mm"
    customerName: string)

  const InitialDraft := OrderDraft(None, Simple, 1, 1, "", "")

  /** A partial draft: `None` leaves a field as it is; `dinnerType` may be set
      to a menu or cleared. */
  datatype DraftPatch = DraftPatch(
    dinnerType: Option<Option<string>>,
    style: Option<Style>,
    baguetteCount: Option<int>,
    champagneCount: Option<int>,
    deliveryDate: Option<string>,
    customerName: Option<string>)

  const NoDraftChanges := DraftPatch(None, None, None, None, None, None)

  /** `{ ...draft, ...partial, style: partial.style ?? draft.style ?? "simple" }`:
      a patch without a style keeps the draft's style. */
  function Patched(d: OrderDraft, p: DraftPatch): (r: OrderDraft)
    ensures p.dinnerType.Some? ==> r.dinnerType == p.dinnerType.value
    ensures p.dinnerType.None? ==> r.dinnerType == d.dinnerType
    ensures p.style.Some? ==> r.style == p.style.value
    ensures p.style.None? ==> r.style == d.style
    ensures p.baguetteCount.Some? ==> r.baguetteCount == p.baguetteCount.value
    ensures p.baguetteCount.None? ==> r.baguetteCount == d.baguetteCount
    ensures p.champagneCount.Some? ==> r.champagneCount == p.champagneCount.value
    ensures p.champagneCount.None? ==> r.champagneCount == d.champagneCount
    ensures p.deliveryDate.Some? ==> r.deliveryDate == p.deliveryDate.value
    ensures p.deliveryDate.None? ==> r.deliveryDate == d.deliveryDate
    ensures p.customerName.Some? ==> r.customerName == p.customerName.value
    ensures p.customerName.None? ==> r.customerName == d.customerName
    ensures p == NoDraftChanges ==> r == d
  {
    OrderDraft(
      p.dinnerType.GetOr(d.dinnerType),
      p.style.GetOr(d.style),
      p.baguetteCount.GetOr(d.baguetteCount),
      p.champagneCount.GetOr(d.champagneCount),
      p.deliveryDate.GetOr(d.deliveryDate),
      p.customerName.GetOr(d.customerName))
  }

  /** Two patches in a row act as one in which the later one's fields win. */
  function Then(p: DraftPatch, q: DraftPatch): DraftPatch {
    DraftPatch(
      q.dinnerType.Or(p.dinnerType),
      q.style.Or(p.style),
      q.baguetteCount.Or(p.baguetteCount),
      q.champagneCount.Or(p.champagneCount),
      q.deliveryDate.Or(p.deliveryDate),
      q.customerName.Or(p.customerName))
  }

  lemma PatchesCompose(d: OrderDraft, p: DraftPatch, q: DraftPatch)
    ensures Patched(Patched(d, p), q) == Patched(d, Then(p, q))
  {
  }

  /** The draft store. */
  class DraftStore {
    var draft: OrderDraft

    constructor ()
      ensures draft == InitialDraft
    {
      draft := InitialDraft;
    }

    /** `updateDraft(partial)`. */
    method UpdateDraft(patch: DraftPatch)
      modifies this
      ensures draft == Patched(old(draft), patch)
    {
      draft := Patched(draft, patch);
    }

    /** `resetDraft()`: back to the initial draft, whatever was chosen. */
    method ResetDraft()
      modifies this
      ensures draft == InitialDraft
    {
      draft := InitialDraft;
    }
  }
}
