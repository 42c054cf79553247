/**
 Perpetual weighted-average stock. One movement changes a balance of quantity, value and average
 cost, rounding the total cost, the new average and the new value; every movement is logged with
 the balance it left.
 */
module StockModel {
  import opened Wrappers
  import opened Rounding

  datatype MovementType = Opening | Purchase | Sale | AdjustmentIn | AdjustmentOut | TransferIn | TransferOut | Reversal
  datatype Key = Key(item: nat, location: Option<nat>)
  datatype Source = FromBill(id: nat) | FromInvoice(id: nat) | FromAdjustment
  datatype Stock = Stock(quantity: int, value: int, average: int)

  datatype Movement = Movement(
    key: Key, kind: MovementType, source: Source, quantity: int, unitCost: int, totalCost: int,
    after: Stock, reversalOf: Option<nat>)

  datatype Item = Item(isTracked: bool, isActive: bool, asset: Option<nat>, expense: Option<nat>, purchasePrice: int)
  datatype Inventory = Inventory(items: seq<Item>, locations: set<nat>, stock: map<Key, Stock>, log: seq<Movement>)

  const NO_STOCK := Stock(0, 0, 0)

  // ---------- One movement on one balance ----------

  function ApplyDelta(s: Stock, quantityDelta: int, costDelta: int, explicitAverage: Option<int>): Result<Stock> {
    var quantity := s.quantity + quantityDelta;
    var value := s.value + costDelta;
    if quantity < 0 then Err(NegativeInventory)
    else if quantity == 0 then Ok(NO_STOCK)
    else if explicitAverage.Some? then Ok(Stock(quantity, Times(explicitAverage.value, quantity), explicitAverage.value))
    else Ok(Stock(quantity, value, Over(value, quantity)))
  }

  predicate IsOutbound(kind: MovementType) {
    kind == Sale || kind == AdjustmentOut || kind == TransferOut
  }

  predicate ReaveragesOnReceipt(kind: MovementType) {
    kind == Purchase || kind == Opening || kind == AdjustmentIn || kind == Reversal || kind == TransferIn
  }

  function SignedQuantity(kind: MovementType, quantity: int): int {
    if IsOutbound(kind) && quantity > 0 then -quantity else quantity
  }

  /** Issues without a cost are valued at the current average. */
  function UnitCostUsed(s: Stock, quantity: int, unitCost: int): int {
    if quantity < 0 && unitCost == 0 then s.average else unitCost
  }

  function TotalCost(quantity: int, unitCost: int): int {
    if quantity < 0 then -Times(Abs(quantity), unitCost) else Times(Abs(quantity), unitCost)
  }

  function ReceiptAverage(s: Stock, kind: MovementType, quantity: int, totalCost: int): Option<int> {
    if quantity > 0 && ReaveragesOnReceipt(kind) then
      Some(if s.quantity + quantity <= 0 then 0 else Over(s.value + totalCost, s.quantity + quantity))
    else None
  }

  datatype Moved = Moved(stock: Stock, quantity: int, unitCost: int, totalCost: int)

  function Move(s: Stock, kind: MovementType, requested: int, requestedCost: int): Result<Moved> {
    var quantity := SignedQuantity(kind, requested);
    var unitCost := UnitCostUsed(s, quantity, requestedCost);
    var totalCost := TotalCost(quantity, unitCost);
    var stock :- ApplyDelta(s, quantity, totalCost, ReceiptAverage(s, kind, quantity, totalCost));
    Ok(Moved(stock, quantity, unitCost, totalCost))
  }

  // ---------- The representation invariant ----------

  /** Quantity never negative, empty means worthless, and value stays within half a unit per held quantity of average cost. */
  predicate RepOk(s: Stock) {
    && s.quantity >= 0
    && (s.quantity == 0 ==> s.value == 0 && s.average == 0)
    && (s.quantity > 0 ==> 2 * Abs(s.average * s.quantity - s.value * SCALE) <= Max(s.quantity, SCALE))
  }

  lemma MoveKeepsRep(s: Stock, kind: MovementType, requested: int, requestedCost: int)
    requires RepOk(s) && Move(s, kind, requested, requestedCost).Ok?
    ensures RepOk(Move(s, kind, requested, requestedCost).value.stock)
  {
    var m := Move(s, kind, requested, requestedCost).value;
    var t := m.stock;
    if t.quantity > 0 {
      var explicitAverage := ReceiptAverage(s, kind, m.quantity, m.totalCost);
      if explicitAverage.Some? {
        TimesIsNear(t.average, t.quantity);
      } else {
        OverIsNear(t.value, t.quantity);
      }
    }
  }

  // ---------- How far rounding moves the value ----------

  /** A receipt of total cost c lands within (Q' + S) / 2S units of V + c. */
  lemma ReceiptIsNear(s: Stock, kind: MovementType, requested: int, requestedCost: int)
    requires s.quantity >= 0 && Move(s, kind, requested, requestedCost).Ok?
    requires SignedQuantity(kind, requested) > 0
    ensures var m := Move(s, kind, requested, requestedCost).value;
            2 * SCALE * Abs(m.stock.value - (s.value + m.totalCost)) <= m.stock.quantity + SCALE
  {
    var m := Move(s, kind, requested, requestedCost).value;
    RevaluedIsNear(s.value + m.totalCost, m.stock.quantity);
  }

  /** An issue that leaves stock on hand moves the value by exactly its total cost. */
  lemma IssueIsExact(s: Stock, kind: MovementType, requested: int, requestedCost: int)
    requires Move(s, kind, requested, requestedCost).Ok?
    requires SignedQuantity(kind, requested) < 0
    requires Move(s, kind, requested, requestedCost).value.stock.quantity > 0
    ensures var m := Move(s, kind, requested, requestedCost).value;
            m.stock.value == s.value + m.totalCost
  {
  }

  /** Emptying the stock at its average leaves out at most what the average had rounded away. */
  lemma EmptyingAtAverageIsNear(s: Stock, kind: MovementType, requested: int, requestedCost: int)
    requires RepOk(s) && Move(s, kind, requested, requestedCost).Ok?
    requires SignedQuantity(kind, requested) < 0
    requires var m := Move(s, kind, requested, requestedCost).value; m.stock.quantity == 0 && m.unitCost == s.average
    ensures var m := Move(s, kind, requested, requestedCost).value;
            2 * SCALE * Abs(m.stock.value - (s.value + m.totalCost)) <= s.quantity + 2 * SCALE
  {
    var m := Move(s, kind, requested, requestedCost).value;
    TimesIsNear(s.quantity, s.average);
  }

  /** Whatever the movement, unless it empties the stock at a cost other than the average. */
  lemma MoveIsNear(s: Stock, kind: MovementType, requested: int, requestedCost: int)
    requires RepOk(s) && Move(s, kind, requested, requestedCost).Ok?
    requires var m := Move(s, kind, requested, requestedCost).value;
             m.quantity != 0 && (m.stock.quantity == 0 ==> m.unitCost == s.average)
    ensures var m := Move(s, kind, requested, requestedCost).value;
            SCALE * Abs(m.stock.value - s.value - m.totalCost) <= Max(s.quantity, m.stock.quantity) + SCALE
  {
    var m := Move(s, kind, requested, requestedCost).value;
    if m.quantity > 0 {
      ReceiptIsNear(s, kind, requested, requestedCost);
    } else if m.stock.quantity == 0 {
      EmptyingAtAverageIsNear(s, kind, requested, requestedCost);
    } else {
      IssueIsExact(s, kind, requested, requestedCost);
    }
  }

  // ---------- Round trip ----------

  function Reverse(m: Moved): Result<Moved> {
    Move(m.stock, Reversal, -m.quantity, m.unitCost)
  }

  /**
   Whether undoing a movement will bring the value back, read off the stock it starts from: a
   receipt at no cost is taken out again at the new average, and a movement that empties the stock
   comes back at the cost it charged.
   */
  predicate Restorable(s: Stock, quantity: int, unitCost: int)
    requires s.quantity >= 0 && s.quantity + quantity >= 0
  {
    if quantity > 0 && unitCost == 0 && s.quantity > 0 then
      var average := Over(s.value, s.quantity + quantity);
      2 * SCALE * Abs(Times(average, s.quantity + quantity) - Times(quantity, average) - s.value) <= s.quantity + quantity + SCALE
    else if quantity < 0 && s.quantity + quantity == 0 then
      2 * SCALE * Abs(Times(Over(Times(s.quantity, unitCost), s.quantity), s.quantity) - s.value) <= s.quantity + SCALE
    else true
  }

  /** The value after a movement and its reversal, within (Q + S) / 2S units of the value before. */
  predicate ValueRestored(s: Stock, m: Moved, undone: Moved) {
    2 * SCALE * Abs(undone.stock.value - s.value) <= Max(s.quantity, m.stock.quantity) + SCALE
  }

  /** A movement is undone by its reversal when it leaves stock on hand and, if it is a receipt, has a unit cost. */
  lemma ReversalRestores(s: Stock, kind: MovementType, requested: int, requestedCost: int)
    requires RepOk(s) && Move(s, kind, requested, requestedCost).Ok?
    requires var m := Move(s, kind, requested, requestedCost).value;
             m.quantity != 0 && m.stock.quantity > 0 && (m.quantity > 0 ==> m.unitCost != 0)
    ensures var m := Move(s, kind, requested, requestedCost).value;
            Reverse(m).Ok? && ValueRestored(s, m, Reverse(m).value)
  {
    var m := Move(s, kind, requested, requestedCost).value;
    assert Abs(-m.quantity) == Abs(m.quantity);
    assert Reverse(m).Ok?;
    if m.quantity > 0 {
      ReceiptIsNear(s, kind, requested, requestedCost);
      if s.quantity > 0 {
        IssueIsExact(m.stock, Reversal, -m.quantity, m.unitCost);
      }
    } else {
      IssueIsExact(s, kind, requested, requestedCost);
      ReceiptIsNear(m.stock, Reversal, -m.quantity, m.unitCost);
    }
  }

  lemma FreeReceiptUndone(s: Stock, kind: MovementType, requested: int)
    requires RepOk(s) && s.quantity > 0 && SignedQuantity(kind, requested) > 0 && Move(s, kind, requested, 0).Ok?
    ensures var m := Move(s, kind, requested, 0).value;
            Reverse(m).Ok? && (ValueRestored(s, m, Reverse(m).value) <==> Restorable(s, m.quantity, 0))
  {
    RoundExact(0, SCALE);
  }

  lemma EmptyingUndone(s: Stock, kind: MovementType, requested: int, requestedCost: int)
    requires RepOk(s) && Move(s, kind, requested, requestedCost).Ok?
    requires var m := Move(s, kind, requested, requestedCost).value; m.quantity < 0 && m.stock.quantity == 0
    ensures var m := Move(s, kind, requested, requestedCost).value;
            && Reverse(m).Ok?
            && (ValueRestored(s, m, Reverse(m).value) <==> Restorable(s, m.quantity, m.unitCost))
            && 2 * SCALE * Abs(Reverse(m).value.stock.value + m.totalCost) <= s.quantity + SCALE
  {
    var m := Move(s, kind, requested, requestedCost).value;
    assert Abs(-m.quantity) == Abs(m.quantity);
    ReceiptIsNear(m.stock, Reversal, -m.quantity, m.unitCost);
  }

  lemma ReversalRestoresQuantity(s: Stock, kind: MovementType, requested: int, requestedCost: int)
    requires RepOk(s) && Move(s, kind, requested, requestedCost).Ok?
    ensures var m := Move(s, kind, requested, requestedCost).value;
            Reverse(m).Ok? && Reverse(m).value.stock.quantity == s.quantity
  {
  }

  /**
   Any movement can be reversed at once, which restores the quantity exactly, and the value within
   (Q + S) / 2S units if and only if the movement was restorable from the stock it started with.
   */
  lemma RoundTrip(s: Stock, kind: MovementType, requested: int, requestedCost: int)
    requires RepOk(s) && Move(s, kind, requested, requestedCost).Ok?
    requires Move(s, kind, requested, requestedCost).value.quantity != 0
    ensures var m := Move(s, kind, requested, requestedCost).value;
            && Reverse(m).Ok? && Reverse(m).value.stock.quantity == s.quantity
            && (ValueRestored(s, m, Reverse(m).value) <==> Restorable(s, m.quantity, m.unitCost))
  {
    var m := Move(s, kind, requested, requestedCost).value;
    ReversalRestoresQuantity(s, kind, requested, requestedCost);
    if m.quantity > 0 && m.unitCost == 0 && s.quantity > 0 {
      FreeReceiptUndone(s, kind, requested);
    } else if m.quantity > 0 && m.unitCost == 0 {
      FreeReceiptOfNothing(s, kind, requested);
    } else if m.stock.quantity == 0 {
      EmptyingUndone(s, kind, requested, requestedCost);
    } else {
      ReversalRestores(s, kind, requested, requestedCost);
    }
  }

  lemma FreeReceiptOfNothing(s: Stock, kind: MovementType, requested: int)
    requires RepOk(s) && s.quantity == 0 && SignedQuantity(kind, requested) > 0 && Move(s, kind, requested, 0).Ok?
    ensures var m := Move(s, kind, requested, 0).value;
            Reverse(m).Ok? && Reverse(m).value.stock == s
  {
  }

  // ---------- Emptying at the average ----------

  /** A balance that a movement left: one of value and average was computed from the other. */
  predicate AverageFits(s: Stock) {
    s.quantity > 0 ==> s.value == Times(s.average, s.quantity) || s.average == Over(s.value, s.quantity)
  }

  lemma MoveFits(s: Stock, kind: MovementType, requested: int, requestedCost: int)
    requires Move(s, kind, requested, requestedCost).Ok?
    ensures AverageFits(Move(s, kind, requested, requestedCost).value.stock)
  {
  }

  /** Up to one unit held, an average that was computed from the value gives the value back. */
  lemma SmallAverageIsExact(value: int, quantity: int)
    requires 0 < quantity <= SCALE
    ensures Times(Over(value, quantity), quantity) == value
  {
    RevaluedIsNear(value, quantity);
    if quantity == SCALE {
      RoundExact(value, SCALE);
    }
  }

  /** Above one unit held, the value computed from an average gives the average back. */
  lemma LargeValueIsExact(average: int, quantity: int)
    requires quantity > SCALE
    ensures Over(Times(average, quantity), quantity) == average
  {
    var value := Times(average, quantity);
    TimesIsNear(average, quantity);
    assert average * quantity == quantity * average;
    RoundIsHalfUp(value * SCALE, quantity, average);
  }

  /** What comes back after emptying at the average is within the bound of what was held. */
  lemma AverageComesBack(s: Stock)
    requires s.quantity > 0 && AverageFits(s)
    ensures 2 * SCALE * Abs(Times(Over(Times(s.quantity, s.average), s.quantity), s.quantity) - s.value) <= s.quantity + SCALE
  {
    assert s.quantity * s.average == s.average * s.quantity;
    var charged := Times(s.average, s.quantity);
    if charged == s.value {
      RevaluedIsNear(s.value, s.quantity);
    } else if s.quantity <= SCALE {
      SmallAverageIsExact(s.value, s.quantity);
      assert false;
    } else {
      LargeValueIsExact(s.average, s.quantity);
      RevaluedIsNear(s.value, s.quantity);
    }
  }

  /** An issue at the average, as every sale is, that empties the stock a movement left can be taken back, value and all. */
  lemma EmptyingAtAverageRestores(s: Stock, kind: MovementType, requested: int, requestedCost: int)
    requires RepOk(s) && AverageFits(s) && Move(s, kind, requested, requestedCost).Ok?
    requires var m := Move(s, kind, requested, requestedCost).value;
             m.quantity < 0 && m.stock.quantity == 0 && m.unitCost == s.average
    ensures var m := Move(s, kind, requested, requestedCost).value;
            Reverse(m).Ok? && ValueRestored(s, m, Reverse(m).value)
  {
    AverageComesBack(s);
    EmptyingUndone(s, kind, requested, requestedCost);
  }
}
