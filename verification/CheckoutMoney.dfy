/** Rial and toman amounts on the checkout panel, components/account/order-checkout-panel.tsx. */
module CheckoutMoney {
  import opened Common

  /** BigInt division truncates towards zero. */
  function TruncDiv(a: int, b: int): int
    requires b > 0
  {
    if a >= 0 then a / b else -((-a) / b)
  }

  function RialAsToman(rial: int): int {
    if rial >= 0 then TruncDiv(rial, 10) else TruncDiv(rial - 9, 10)
  }

  function RialToTomanCeil(rial: int): int {
    TruncDiv(rial + 9, 10)
  }

  /** The displayed amount is the greatest whole toman not above the real one, for either sign. */
  lemma DisplayIsFloor(rial: int)
    ensures 10 * RialAsToman(rial) <= rial < 10 * (RialAsToman(rial) + 1)
  {
  }

  function Total(lines: seq<int>): int {
    if lines == [] then 0 else lines[0] + Total(lines[1..])
  }

  function DisplayedTotal(lines: seq<int>): int {
    if lines == [] then 0 else RialAsToman(lines[0]) + DisplayedTotal(lines[1..])
  }

  /** What the lines lose to rounding, in rial: Dafny's remainder is never negative. */
  function Remainders(lines: seq<int>): nat {
    if lines == [] then 0 else lines[0] % 10 + Remainders(lines[1..])
  }

  lemma {:induction false} LinesAndRemainders(lines: seq<int>)
    ensures Total(lines) == 10 * DisplayedTotal(lines) + Remainders(lines)
    ensures Remainders(lines) <= 9 * |lines|
  {
    if lines != [] {
      DisplayIsFloor(lines[0]);
      assert lines[0] == 10 * RialAsToman(lines[0]) + lines[0] % 10;
      LinesAndRemainders(lines[1..]);
    }
  }

  /**
   The displayed lines never add up to more than the displayed total. They fall short by the whole
   tomans hidden in their remainders, less than one per line, so they agree exactly when the remainders
   make up less than a toman.
   */
  lemma DisplayedLinesAgreeIff(lines: seq<int>)
    ensures RialAsToman(Total(lines)) - DisplayedTotal(lines) == Remainders(lines) / 10
    ensures lines != [] ==> Remainders(lines) / 10 <= |lines| - 1
    ensures DisplayedTotal(lines) == RialAsToman(Total(lines)) <==> Remainders(lines) < 10
  {
    LinesAndRemainders(lines);
    DisplayIsFloor(Total(lines));
  }

  /**
   Flooring alone does not keep the displayed lines summing to the displayed total, as the comment in
   the source has it: two lines of half a toman each show nothing, their total shows one.
   */
  lemma DisplayedLinesCanFallShort()
    ensures DisplayedTotal([5, 5]) == 0 && RialAsToman(Total([5, 5])) == 1
  {
  }

  datatype Checkout = Checkout(shortfall: int, balanceAfter: Option<int>, topUpToman: int)

  function Derive(amount: Option<int>, balance: Option<int>): Checkout {
    var shortfall := if amount.Some? && balance.Some? && amount.value > balance.value
                     then amount.value - balance.value else 0;
    Checkout(shortfall,
             if amount.Some? && balance.Some? && shortfall == 0 then Some(balance.value - amount.value) else None,
             if shortfall > 0 then RialToTomanCeil(shortfall) else 0)
  }

  /** While the amount or the balance is not known nothing is derived; then the gap or the rest is exact. */
  lemma DerivedIs(amount: int, balance: int)
    ensures Derive(None, None) == Derive(Some(amount), None) == Derive(None, Some(balance)) == Checkout(0, None, 0)
    ensures amount <= balance ==> Derive(Some(amount), Some(balance)) == Checkout(0, Some(balance - amount), 0)
    ensures amount > balance ==>
      var c := Derive(Some(amount), Some(balance));
      c.shortfall == amount - balance && c.balanceAfter == None && 10 * (c.topUpToman - 1) < c.shortfall <= 10 * c.topUpToman
  {
  }

  /** The suggested top-up is the least whole toman that makes the wallet cover the amount. */
  lemma TopUpIsLeast(amount: int, balance: int, toman: nat)
    ensures
      var c := Derive(Some(amount), Some(balance));
      && (balance + 10 * toman >= amount <==> toman >= c.topUpToman)
      && (c.shortfall > 0 ==> 0 <= balance + 10 * c.topUpToman - amount < 10)
      && (c.balanceAfter.Some? <==> balance >= amount)
  {
  }

  /** The displayed balance less the displayed price is the displayed remainder, or one toman more. */
  lemma DisplayedBalanceAgreesIff(amount: int, balance: int)
    requires amount <= balance
    ensures
      var after := Derive(Some(amount), Some(balance)).balanceAfter.value;
      RialAsToman(balance) - RialAsToman(amount) - RialAsToman(after)
        == if balance % 10 < amount % 10 then 1 else 0
  {
  }
}
