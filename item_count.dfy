/**
 * The quantity selector: a counter that starts at `initial`, can be raised while it is below
 * `stock`, lowered while it is above 1, and handed to `onAdd` as the quantity to add.
 */
module ItemCount {

  datatype Click = Increment | Decrement

  /** The guard of the "+" button: it is disabled when the count has reached the stock. */
  predicate IncrementDisabled(count: int, stock: int) {
    count >= stock
  }

  /** The guard of the "-" button: it is disabled at 1 and below. */
  predicate DecrementDisabled(count: int) {
    count <= 1
  }

  /** The effect of one click on the count: a guarded step up or down, otherwise nothing. */
  function Step(count: int, stock: int, click: Click): int {
    match click
    case Increment => if count < stock then count + 1 else count
    case Decrement => if count > 1 then count - 1 else count
  }

  /** The count after a sequence of clicks, the last click applied last. */
  function Run(initial: int, stock: int, clicks: seq<Click>): int {
    if clicks == [] then initial
    else Step(Run(initial, stock, clicks[..|clicks| - 1]), stock, clicks[|clicks| - 1])
  }

  /** The "N itens restantes" text: what would be left in stock after adding `count`. */
  function Remaining(count: int, stock: int): int {
    stock - count
  }

  // ---------------------------------------------------------------------------------------

  /** A click moves the count by at most one, and never out of `1..stock` once inside it. */
  lemma StepInRange(count: int, stock: int, click: Click)
    requires 1 <= count <= stock
    ensures 1 <= Step(count, stock, click) <= stock
    ensures -1 <= Step(count, stock, click) - count <= 1
  {
  }

  /** Starting inside `1..stock`, no sequence of clicks leaves it, and the remaining amount stays non-negative. */
  lemma {:induction false} RunInRange(initial: int, stock: int, clicks: seq<Click>)
    requires 1 <= initial <= stock
    ensures 1 <= Run(initial, stock, clicks) <= stock
    ensures 0 <= Remaining(Run(initial, stock, clicks), stock) < stock
  {
    if clicks != [] {
      RunInRange(initial, stock, clicks[..|clicks| - 1]);
      StepInRange(Run(initial, stock, clicks[..|clicks| - 1]), stock, clicks[|clicks| - 1]);
    }
  }

  /** A button is disabled exactly when clicking it would leave the count unchanged. */
  lemma DisabledExactlyWhenNoEffect(count: int, stock: int)
    ensures IncrementDisabled(count, stock) <==> Step(count, stock, Increment) == count
    ensures DecrementDisabled(count) <==> Step(count, stock, Decrement) == count
    ensures !IncrementDisabled(count, stock) ==> Step(count, stock, Increment) == count + 1
    ensures !DecrementDisabled(count) ==> Step(count, stock, Decrement) == count - 1
  {
  }

  /**
   * Below the stock, "+" then "-" gives back the count exactly when the count is at least 1:
   * from 0 (an `initial` of 0) the "+" reaches 1 and the "-" is then refused.
   */
  lemma IncrementThenDecrement(count: int, stock: int)
    requires count < stock
    ensures Step(Step(count, stock, Increment), stock, Decrement) == count <==> count >= 1
  {
  }

  /** The component's state: the `count` hook and the props it is rendered with. */
  class Counter {
    const stock: int
    const initial: int
    var count: int

    /** The count hook starts at `initial`. */
    constructor (stock: int, initial: int)
      ensures this.stock == stock && this.initial == initial
      ensures count == initial
    {
      this.stock := stock;
      this.initial := initial;
      count := initial;
    }

    ghost predicate InRange()
      reads this
    {
      1 <= count <= stock
    }

    method HandleIncrement()
      modifies this
      ensures count == Step(old(count), stock, Increment)
      ensures old(count) < stock ==> count == old(count) + 1
      ensures old(count) >= stock ==> count == old(count)
      ensures old(InRange()) ==> InRange()
    {
      if count < stock {
        count := count + 1;
      }
    }

    method HandleDecrement()
      modifies this
      ensures count == Step(old(count), stock, Decrement)
      ensures old(count) > 1 ==> count == old(count) - 1
      ensures old(count) <= 1 ==> count == old(count)
      ensures old(InRange()) ==> InRange()
    {
      if count > 1 {
        count := count - 1;
      }
    }

    /** `onAdd(count)`: the quantity passed on is the current count, and nothing changes. */
    method HandleAddToCart() returns (quantity: int)
      ensures quantity == count
      ensures InRange() ==> 1 <= quantity <= stock
    {
      quantity := count;
    }
  }
}
