/**
 * The per-user workflow session the dispatcher keeps in the shared state
 * store: a record of optional fields (an absent field is a key the source's
 * object literal does not set).
 */
module Sessions {
  import opened Js

  /** The `step` values the dispatcher writes or tests. */
  datatype Step =
    | SelectingYear
    | SelectingState
    | EnteringQuantity
    | ConfirmingCheckout
    | EnteringCustomAmount
    | SelectingCryptoCustom

  /** The `filters` object sent to the backend. The bot itself only ever sets
      `base`, `yearFrom`, `yearTo` and `state`; the other keys are the ones
      the product query also understands. */
  datatype Filters = Filters(
    base: Option<string>,
    yearFrom: Option<IntOrNaN>,
    yearTo: Option<IntOrNaN>,
    state: Option<string>,
    city: Option<string>,
    country: Option<string>,
    zip: Option<string>,
    cs: Option<string>,
    name: Option<string>)

  /** `{ base: baseId }`. */
  function BaseFilters(base: string): Filters {
    Filters(Some(base), None, None, None, None, None, None, None, None)
  }

  /** `{ base: baseId, yearFrom, yearTo }`. */
  function YearFilters(base: string, yearFrom: IntOrNaN, yearTo: IntOrNaN): Filters {
    Filters(Some(base), Some(yearFrom), Some(yearTo), None, None, None, None, None, None)
  }

  /** `{ ...filters, state }`. */
  function WithState(f: Filters, state: string): Filters {
    f.(state := Some(state))
  }

  datatype Session = Session(
    step: Option<Step>,
    baseId: Option<string>,
    categoryIndex: Option<int>,
    filters: Option<Filters>,
    availableQuantity: Option<int>,
    quantity: Option<int>,
    customAmount: Option<real>)

  /** The empty object `{}`. */
  const Empty: Session := Session(None, None, None, None, None, None, None)

  function Pick<T>(current: Option<T>, update: Option<T>): Option<T> {
    if update.Some? then update else current
  }

  /** `{ ...current, ...updates }`: every key the update sets overrides,
      every other key keeps its current value. */
  function Merge(current: Session, updates: Session): (merged: Session)
    ensures merged.step == (if updates.step.Some? then updates.step else current.step)
    ensures merged.baseId == (if updates.baseId.Some? then updates.baseId else current.baseId)
    ensures merged.categoryIndex == (if updates.categoryIndex.Some? then updates.categoryIndex else current.categoryIndex)
    ensures merged.filters == (if updates.filters.Some? then updates.filters else current.filters)
    ensures merged.availableQuantity == (if updates.availableQuantity.Some? then updates.availableQuantity else current.availableQuantity)
    ensures merged.quantity == (if updates.quantity.Some? then updates.quantity else current.quantity)
    ensures merged.customAmount == (if updates.customAmount.Some? then updates.customAmount else current.customAmount)
  {
    Session(
      Pick(current.step, updates.step),
      Pick(current.baseId, updates.baseId),
      Pick(current.categoryIndex, updates.categoryIndex),
      Pick(current.filters, updates.filters),
      Pick(current.availableQuantity, updates.availableQuantity),
      Pick(current.quantity, updates.quantity),
      Pick(current.customAmount, updates.customAmount))
  }

  /** Merging into `{}` gives the update itself; merging `{}` changes nothing. */
  lemma MergeIdentity(s: Session)
    ensures Merge(Empty, s) == s && Merge(s, Empty) == s
  {
  }

  /** Two successive merges are one merge of the combined update. */
  lemma MergeAssociative(s: Session, a: Session, b: Session)
    ensures Merge(Merge(s, a), b) == Merge(s, Merge(a, b))
  {
  }

  /** Keys set by only one of two updates: the order of the merges does not matter. */
  predicate Disjoint(a: Session, b: Session) {
    && (a.step.None? || b.step.None?)
    && (a.baseId.None? || b.baseId.None?)
    && (a.categoryIndex.None? || b.categoryIndex.None?)
    && (a.filters.None? || b.filters.None?)
    && (a.availableQuantity.None? || b.availableQuantity.None?)
    && (a.quantity.None? || b.quantity.None?)
    && (a.customAmount.None? || b.customAmount.None?)
  }

  lemma MergeDisjointCommutes(s: Session, a: Session, b: Session)
    requires Disjoint(a, b)
    ensures Merge(Merge(s, a), b) == Merge(Merge(s, b), a)
  {
  }
}
