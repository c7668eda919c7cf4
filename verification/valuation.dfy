/** The two valuation passes over a slot sequence, kept apart because they differ:
    `calculate()` values the bank under the plugin's two options, while
    `calculate(Item[])` always values both totals, applies no positive-price
    check, and multiplies the market price by the quantity in 32-bit `int`. */
module Valuation {
  import opened JavaInt
  import opened Items

  /** The plugin options read by `calculate()`. */
  datatype Config = Config(showGE: bool, showHA: bool)

  /** The lookups the passes make, taken as given functions of the item id.
      `highAlch` is `Math.round(price * 0.6f)` of `calculate()` and `alchPrice`
      is `(long) (price * Constants.HIGH_ALCHEMY_MULTIPLIER)` of
      `calculate(Item[])`, both left uninterpreted. */
  datatype Prices = Prices(
    itemPrice: Int32 -> Int32,
    storePrice: Int32 -> Int32,
    highAlch: Int32 -> Int32,
    alchPrice: Int32 -> int)

  /** The result record of `calculate(Item[])`. */
  datatype ContainerPrices = ContainerPrices(gePrice: int, highAlchPrice: int)

  // ---------------------------------------------------------------- calculate()

  /** What one slot adds to `gePrice` in `calculate()`. */
  function BankGeSlot(it: Item, cfg: Config, prices: Prices): int
  {
    if !Occupied(it) then 0
    else if it.id == Coins then it.quantity
    else if it.id == PlatinumToken then it.quantity * TokenValue
    else if cfg.showGE then prices.itemPrice(it.id) * it.quantity
    else 0
  }

  /** What one slot adds to `haPrice` in `calculate()`. */
  function BankHaSlot(it: Item, cfg: Config, prices: Prices): int
  {
    if !Occupied(it) then 0
    else if it.id == Coins then it.quantity
    else if it.id == PlatinumToken then it.quantity * TokenValue
    else if cfg.showHA && prices.storePrice(it.id) > 0
    then prices.highAlch(prices.storePrice(it.id)) * it.quantity
    else 0
  }

  function BankGe(items: seq<Item>, cfg: Config, prices: Prices): int
  {
    SumOver(items, (it: Item) => BankGeSlot(it, cfg, prices))
  }

  function BankHa(items: seq<Item>, cfg: Config, prices: Prices): int
  {
    SumOver(items, (it: Item) => BankHaSlot(it, cfg, prices))
  }

  /** The currency fast paths alone: coins at face value, tokens at 1000. */
  function CurrencySlot(it: Item): int
  {
    if !Occupied(it) then 0
    else if it.id == Coins then it.quantity
    else if it.id == PlatinumToken then it.quantity * TokenValue
    else 0
  }

  function CurrencyTotal(items: seq<Item>): int
  {
    SumOver(items, CurrencySlot)
  }

  /** Market value of the priced slots (`itemManager.getItemPrice(id) * quantity`). */
  function MarketTotal(items: seq<Item>, prices: Prices): int
  {
    SumOver(items, (it: Item) => if Priced(it) then prices.itemPrice(it.id) * it.quantity else 0)
  }

  /** High-alchemy value of the priced slots whose store price is positive. */
  function HighAlchTotal(items: seq<Item>, prices: Prices): int
  {
    SumOver(items, (it: Item) =>
      if Priced(it) && prices.storePrice(it.id) > 0
      then prices.highAlch(prices.storePrice(it.id)) * it.quantity
      else 0)
  }

  // --------------------------------------------------------- calculate(Item[])

  /** What one slot adds to `ge` in `calculate(Item[])`: the market price times
      the quantity is an `int * int` product and wraps around. */
  function ContainerGeSlot(it: Item, prices: Prices): int
  {
    if !Occupied(it) then 0
    else if it.id == Coins then it.quantity
    else if it.id == PlatinumToken then it.quantity * TokenValue
    else Wrap(prices.itemPrice(it.id) * it.quantity)
  }

  /** What one slot adds to `alch` in `calculate(Item[])`. */
  function ContainerAlchSlot(it: Item, prices: Prices): int
  {
    if !Occupied(it) then 0
    else if it.id == Coins then it.quantity
    else if it.id == PlatinumToken then it.quantity * TokenValue
    else prices.alchPrice(prices.storePrice(it.id)) * it.quantity
  }

  function ContainerGe(items: seq<Item>, prices: Prices): int
  {
    SumOver(items, (it: Item) => ContainerGeSlot(it, prices))
  }

  function ContainerAlch(items: seq<Item>, prices: Prices): int
  {
    SumOver(items, (it: Item) => ContainerAlchSlot(it, prices))
  }

  // ------------------------------------------------------------------- passes

  /** The two loops of `calculate()` after the change check: the first adds the
      currency fast paths and the high-alchemy values and notes whether any slot
      needs a market price; the second, run only when one does and the market
      option is on, adds the market values. */
  method ValueBank(items: seq<Item>, cfg: Config, prices: Prices) returns (ge: int, ha: int)
    ensures ge == BankGe(items, cfg, prices)
    ensures ha == BankHa(items, cfg, prices)
  {
    ge, ha := 0, 0;
    var anyListed := false;
    for i := 0 to |items|
      invariant ge == CurrencyTotal(items[..i])
      invariant ha == BankHa(items[..i], cfg, prices)
      invariant anyListed ==> cfg.showGE
      invariant cfg.showGE && !anyListed ==> forall k :: 0 <= k < i ==> !Priced(items[k])
    {
      var it := items[i];
      assert items[..i + 1][..i] == items[..i];
      if it.id <= 0 || it.quantity == 0 {
      } else if it.id == Coins {
        ge := ge + it.quantity;
        ha := ha + it.quantity;
      } else if it.id == PlatinumToken {
        ge := ge + it.quantity * TokenValue;
        ha := ha + it.quantity * TokenValue;
      } else {
        if cfg.showGE {
          anyListed := true;
        }
        if cfg.showHA {
          var price := prices.storePrice(it.id);
          if price > 0 {
            ha := ha + prices.highAlch(price) * it.quantity;
          }
        }
      }
    }
    assert items[..|items|] == items;
    ghost var currency := ge;
    if cfg.showGE && anyListed {
      for i := 0 to |items|
        invariant ge == currency + MarketTotal(items[..i], prices)
      {
        var it := items[i];
        assert items[..i + 1][..i] == items[..i];
        assert MarketTotal(items[..i + 1], prices) == MarketTotal(items[..i], prices)
          + (if Priced(it) then prices.itemPrice(it.id) * it.quantity else 0);
        if it.id <= 0 || it.quantity == 0 || it.id == Coins || it.id == PlatinumToken {
        } else {
          ge := ge + prices.itemPrice(it.id) * it.quantity;
        }
      }
    } else if cfg.showGE {
      SumOverZero(items, (it: Item) => if Priced(it) then prices.itemPrice(it.id) * it.quantity else 0);
    }
    BankGeSplit(items, cfg, prices);
  }

  /** The loop of `calculate(Item[])`: both totals, no options. */
  method ValueContainer(items: seq<Item>, prices: Prices) returns (r: ContainerPrices)
    ensures r.gePrice == ContainerGe(items, prices)
    ensures r.highAlchPrice == ContainerAlch(items, prices)
  {
    var ge, alch := 0, 0;
    for i := 0 to |items|
      invariant ge == ContainerGe(items[..i], prices)
      invariant alch == ContainerAlch(items[..i], prices)
    {
      var qty, id := items[i].quantity, items[i].id;
      assert items[..i + 1][..i] == items[..i];
      if id <= 0 || qty == 0 {
      } else if id == Coins {
        ge := ge + qty;
        alch := alch + qty;
      } else if id == PlatinumToken {
        ge := ge + qty * TokenValue;
        alch := alch + qty * TokenValue;
      } else {
        var store := prices.storePrice(id);
        var alchUnit := prices.alchPrice(store);
        alch := alch + alchUnit * qty;
        ge := ge + Wrap(prices.itemPrice(id) * qty);
      }
    }
    assert items[..|items|] == items;
    r := ContainerPrices(ge, alch);
  }

  // ------------------------------------------------------------------- lemmas

  /** `gePrice` of `calculate()` is the currency total plus, with the market
      option on, the market value of the priced slots. */
  lemma {:induction false} BankGeSplit(items: seq<Item>, cfg: Config, prices: Prices)
    ensures BankGe(items, cfg, prices)
         == CurrencyTotal(items) + (if cfg.showGE then MarketTotal(items, prices) else 0)
  {
    if |items| > 0 {
      BankGeSplit(items[..|items| - 1], cfg, prices);
    }
  }

  /** `haPrice` of `calculate()` is the currency total plus, with the
      high-alchemy option on, the high-alchemy value of the priced slots whose
      store price is positive. */
  lemma {:induction false} BankHaSplit(items: seq<Item>, cfg: Config, prices: Prices)
    ensures BankHa(items, cfg, prices)
         == CurrencyTotal(items) + (if cfg.showHA then HighAlchTotal(items, prices) else 0)
  {
    if |items| > 0 {
      BankHaSplit(items[..|items| - 1], cfg, prices);
    }
  }

  /** The currency total is the coin count plus 1000 times the token count. */
  lemma {:induction false} CurrencyAtFaceValue(items: seq<Item>)
    ensures CurrencyTotal(items)
         == QuantityOf(items, Coins) + TokenValue * QuantityOf(items, PlatinumToken)
  {
    if |items| > 0 {
      CurrencyAtFaceValue(items[..|items| - 1]);
    }
  }

  /** With the market option off, `gePrice` is exactly the coins plus 1000 per
      platinum token; with it on, the market value of the priced slots is added. */
  lemma BankGeDecomposition(items: seq<Item>, cfg: Config, prices: Prices)
    ensures BankGe(items, cfg, prices)
         == QuantityOf(items, Coins) + TokenValue * QuantityOf(items, PlatinumToken)
            + (if cfg.showGE then MarketTotal(items, prices) else 0)
  {
    BankGeSplit(items, cfg, prices);
    CurrencyAtFaceValue(items);
  }

  /** With the high-alchemy option off, `haPrice` is exactly the coins plus 1000
      per platinum token. */
  lemma BankHaDecomposition(items: seq<Item>, cfg: Config, prices: Prices)
    ensures BankHa(items, cfg, prices)
         == QuantityOf(items, Coins) + TokenValue * QuantityOf(items, PlatinumToken)
            + (if cfg.showHA then HighAlchTotal(items, prices) else 0)
  {
    BankHaSplit(items, cfg, prices);
    CurrencyAtFaceValue(items);
  }

  /** A slot with id <= 0 or quantity 0 adds nothing to any total of either pass,
      wherever it sits. */
  lemma UnoccupiedSlotIgnored(a: seq<Item>, it: Item, b: seq<Item>, cfg: Config, prices: Prices)
    requires !Occupied(it)
    ensures BankGe(a + [it] + b, cfg, prices) == BankGe(a + b, cfg, prices)
    ensures BankHa(a + [it] + b, cfg, prices) == BankHa(a + b, cfg, prices)
    ensures ContainerGe(a + [it] + b, prices) == ContainerGe(a + b, prices)
    ensures ContainerAlch(a + [it] + b, prices) == ContainerAlch(a + b, prices)
  {
    SumOverNeutralSlot(a, it, b, (x: Item) => BankGeSlot(x, cfg, prices));
    SumOverNeutralSlot(a, it, b, (x: Item) => BankHaSlot(x, cfg, prices));
    SumOverNeutralSlot(a, it, b, (x: Item) => ContainerGeSlot(x, prices));
    SumOverNeutralSlot(a, it, b, (x: Item) => ContainerAlchSlot(x, prices));
  }

  /** A coin slot adds exactly its quantity to all four totals, whatever the
      options and prices; that includes a negative quantity. */
  lemma CoinsAddQuantity(items: seq<Item>, it: Item, cfg: Config, prices: Prices)
    requires it.id == Coins
    ensures BankGe(items + [it], cfg, prices) == BankGe(items, cfg, prices) + it.quantity
    ensures BankHa(items + [it], cfg, prices) == BankHa(items, cfg, prices) + it.quantity
    ensures ContainerGe(items + [it], prices) == ContainerGe(items, prices) + it.quantity
    ensures ContainerAlch(items + [it], prices) == ContainerAlch(items, prices) + it.quantity
  {
  }

  /** A platinum-token slot adds exactly 1000 times its quantity to all four totals. */
  lemma TokensAddThousandfold(items: seq<Item>, it: Item, cfg: Config, prices: Prices)
    requires it.id == PlatinumToken
    ensures BankGe(items + [it], cfg, prices) == BankGe(items, cfg, prices) + it.quantity * 1000
    ensures BankHa(items + [it], cfg, prices) == BankHa(items, cfg, prices) + it.quantity * 1000
    ensures ContainerGe(items + [it], prices) == ContainerGe(items, prices) + it.quantity * 1000
    ensures ContainerAlch(items + [it], prices) == ContainerAlch(items, prices) + it.quantity * 1000
  {
  }

  /** In `calculate()`, a priced slot changes `haPrice` only with the high-alchemy
      option on and a positive store price, and then by `highAlch(price) * quantity`. */
  lemma HighAlchOnlyWhenShownAndPriced(items: seq<Item>, it: Item, cfg: Config, prices: Prices)
    requires Priced(it)
    ensures BankHa(items + [it], cfg, prices) != BankHa(items, cfg, prices)
            ==> cfg.showHA && prices.storePrice(it.id) > 0
    ensures cfg.showHA && prices.storePrice(it.id) > 0
            ==> BankHa(items + [it], cfg, prices)
                == BankHa(items, cfg, prices) + prices.highAlch(prices.storePrice(it.id)) * it.quantity
  {
  }

  /** All four totals ignore slot order. */
  lemma ValuesIgnoreOrder(a: seq<Item>, b: seq<Item>, cfg: Config, prices: Prices)
    requires multiset(a) == multiset(b)
    ensures BankGe(a, cfg, prices) == BankGe(b, cfg, prices)
    ensures BankHa(a, cfg, prices) == BankHa(b, cfg, prices)
    ensures ContainerGe(a, prices) == ContainerGe(b, prices)
    ensures ContainerAlch(a, prices) == ContainerAlch(b, prices)
  {
    SumOverPermutation(a, b, (x: Item) => BankGeSlot(x, cfg, prices));
    SumOverPermutation(a, b, (x: Item) => BankHaSlot(x, cfg, prices));
    SumOverPermutation(a, b, (x: Item) => ContainerGeSlot(x, prices));
    SumOverPermutation(a, b, (x: Item) => ContainerAlchSlot(x, prices));
  }

  /** The two passes agree on the market total when every priced slot's
      `price * quantity` fits in an `int`. */
  lemma {:induction false} ContainerGeMatchesBankGe(items: seq<Item>, cfg: Config, prices: Prices)
    requires cfg.showGE
    requires forall k :: 0 <= k < |items| && Priced(items[k]) ==>
               MinInt <= prices.itemPrice(items[k].id) * items[k].quantity <= MaxInt
    ensures ContainerGe(items, prices) == BankGe(items, cfg, prices)
  {
    if |items| > 0 {
      ContainerGeMatchesBankGe(items[..|items| - 1], cfg, prices);
    }
  }

  /** A stack of 2 of an item priced 1,500,000,000: `calculate(Item[])` reports a
      negative market total where `calculate()` reports 3,000,000,000. */
  lemma ContainerGeOverflows()
    ensures var prices := Prices(_ => 1_500_000_000, _ => 0, _ => 0, _ => 0);
            var items := [Item(4151, 2)];
            && ContainerGe(items, prices) == 3_000_000_000 - Modulus
            && BankGe(items, Config(true, false), prices) == 3_000_000_000
  {
  }
}
