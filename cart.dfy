/** Values of the shopping cart and the effect of each cart operation on them.

    The cart is an ordered sequence of entries; each entry is a product id, the
    amount the user wants and the product's display fields, carried unchanged.
    Each operation is a function from the cart before it (and what the stock and
    product services answered) to an outcome and the cart after it. The class in
    module Store performs the same steps on its fields and is proved to agree
    with these functions. */
module Cart {

  datatype Option<+T> = None | Some(value: T)

  /** The display fields of a product (title, price, image), kept opaque. */
  type Details = string

  /** A product as the product service returns it. */
  datatype Product = Product(id: int, details: Details)

  /** One line of the cart. */
  datatype Entry = Entry(id: int, amount: int, details: Details)

  /** What an operation reports instead of a toast message. */
  datatype Outcome =
    | Ok            // committed: new cart published and written to storage
    | OutOfStock    // requested amount is over the stock
    | AddFailed     // add could not be completed
    | RemoveFailed  // remove found no such entry
    | UpdateFailed  // update could not be completed
    | Ignored       // update with a non-positive amount: no message, no change

  /** The outcome of an operation together with the cart after it. */
  datatype Step = Step(outcome: Outcome, cart: seq<Entry>)

  /** The entry built from a freshly fetched product: its fields plus amount 1. */
  function NewEntry(p: Product): Entry
  {
    Entry(p.id, 1, p.details)
  }

  /** Position of the first entry with the given id, as `find`/`findIndex` locate it. */
  function IndexOf(cart: seq<Entry>, id: int): (r: Option<nat>)
    ensures r.Some? ==> r.value < |cart| && cart[r.value].id == id
    ensures r.Some? ==> forall j :: 0 <= j < r.value ==> cart[j].id != id
    ensures r.None? <==> forall j :: 0 <= j < |cart| ==> cart[j].id != id
  {
    if cart == [] then None
    else if cart[0].id == id then Some(0)
    else match IndexOf(cart[1..], id)
      case None => None
      case Some(k) => Some(k + 1)
  }

  /** The amount of the entry with this id, or 0 when there is none. */
  function CurrentAmount(cart: seq<Entry>, id: int): (a: int)
    ensures (forall j :: 0 <= j < |cart| ==> cart[j].id != id) ==> a == 0
    ensures forall j :: 0 <= j < |cart| && cart[j].id == id && (forall k :: 0 <= k < j ==> cart[k].id != id) ==>
              a == cart[j].amount
  {
    match IndexOf(cart, id)
    case None => 0
    case Some(i) => cart[i].amount
  }

  /** The cart with entry `i` deleted, as `splice(i, 1)` leaves it. */
  function Without(cart: seq<Entry>, i: nat): (r: seq<Entry>)
    requires i < |cart|
    ensures |r| == |cart| - 1
    ensures forall j :: 0 <= j < i ==> r[j] == cart[j]
    ensures forall j :: i <= j < |r| ==> r[j] == cart[j + 1]
  {
    cart[..i] + cart[i + 1..]
  }

  /** No two entries share an id. */
  predicate UniqueIds(cart: seq<Entry>)
  {
    forall i, j :: 0 <= i < j < |cart| ==> cart[i].id != cart[j].id
  }

  /** Every entry asks for at least one unit. */
  predicate PositiveAmounts(cart: seq<Entry>)
  {
    forall i :: 0 <= i < |cart| ==> cart[i].amount > 0
  }

  /** The invariant the three operations keep. */
  predicate WellFormed(cart: seq<Entry>)
  {
    UniqueIds(cart) && PositiveAmounts(cart)
  }

  /** The cart a fresh store starts with: the stored sequence, or empty if none. */
  function Restore(stored: Option<seq<Entry>>): seq<Entry>
  {
    match stored
    case None => []
    case Some(s) => s
  }

  /** addProduct. `stock` is the answer of the stock service and `product` that of
      the product service; None stands for a request that failed. */
  function AddProductStep(cart: seq<Entry>, productId: int, stock: Option<int>, product: Option<Product>): (r: Step)
    // only these three outcomes, and the cart changes only on success
    ensures r.outcome == Ok || r.outcome == OutOfStock || r.outcome == AddFailed
    ensures r.outcome != Ok ==> r.cart == cart
    // rejected exactly when one more unit than the cart holds exceeds the stock
    ensures r.outcome == OutOfStock <==> stock.Some? && CurrentAmount(cart, productId) + 1 > stock.value
    // fails exactly when a lookup it needed failed
    ensures r.outcome == AddFailed <==>
              stock.None? ||
              (CurrentAmount(cart, productId) + 1 <= stock.value && IndexOf(cart, productId).None? && product.None?)
    // a present entry gains one unit, in place; nothing else moves
    ensures r.outcome == Ok && IndexOf(cart, productId).Some? ==>
              var i := IndexOf(cart, productId).value;
              && |r.cart| == |cart|
              && r.cart[i].id == productId
              && r.cart[i].amount == cart[i].amount + 1 <= stock.value
              && r.cart[i].details == cart[i].details
              && (forall j :: 0 <= j < |cart| && j != i ==> r.cart[j] == cart[j])
    // an absent product is appended with amount 1; all earlier entries stay put
    ensures r.outcome == Ok && IndexOf(cart, productId).None? ==>
              && stock.Some? && 1 <= stock.value && product.Some?
              && |r.cart| == |cart| + 1
              && r.cart[..|cart|] == cart
              && r.cart[|cart|] == NewEntry(product.value)
  {
    var found := IndexOf(cart, productId);
    match stock
    case None => Step(AddFailed, cart)
    case Some(available) =>
      var quantity := CurrentAmount(cart, productId) + 1;
      if quantity > available then Step(OutOfStock, cart)
      else match found
        case Some(i) => Step(Ok, cart[i := cart[i].(amount := quantity)])
        case None =>
          match product
          case None => Step(AddFailed, cart)
          case Some(p) => Step(Ok, cart + [NewEntry(p)])
  }

  /** removeProduct. */
  function RemoveProductStep(cart: seq<Entry>, productId: int): (r: Step)
    ensures r.outcome == Ok || r.outcome == RemoveFailed
    ensures r.outcome == RemoveFailed <==> forall j :: 0 <= j < |cart| ==> cart[j].id != productId
    ensures r.outcome == RemoveFailed ==> r.cart == cart
    // exactly the first entry with that id goes; the rest keep their order
    ensures r.outcome == Ok ==>
              var i := IndexOf(cart, productId).value;
              && cart[i].id == productId
              && (forall j :: 0 <= j < i ==> cart[j].id != productId)
              && |r.cart| == |cart| - 1
              && (forall j :: 0 <= j < i ==> r.cart[j] == cart[j])
              && (forall j :: i <= j < |r.cart| ==> r.cart[j] == cart[j + 1])
  {
    match IndexOf(cart, productId)
    case None => Step(RemoveFailed, cart)
    case Some(i) => Step(Ok, Without(cart, i))
  }

  /** updateProductAmount. `stock` is the answer of the stock service, None when
      the request failed. */
  function UpdateAmountStep(cart: seq<Entry>, productId: int, amount: int, stock: Option<int>): (r: Step)
    ensures r.outcome != Ok ==> r.cart == cart
    ensures r.outcome == Ignored <==> amount <= 0
    // the stock ceiling itself is refused: amount >= stock
    ensures r.outcome == OutOfStock <==> amount > 0 && stock.Some? && amount >= stock.value
    ensures r.outcome == UpdateFailed <==>
              amount > 0 && (stock.None? || (amount < stock.value && IndexOf(cart, productId).None?))
    ensures r.outcome == Ok <==>
              amount > 0 && stock.Some? && amount < stock.value && IndexOf(cart, productId).Some?
    // only the matching entry's amount changes; length and order stay
    ensures r.outcome == Ok ==>
              var i := IndexOf(cart, productId).value;
              && |r.cart| == |cart|
              && r.cart[i] == cart[i].(amount := amount)
              && (forall j :: 0 <= j < |cart| && j != i ==> r.cart[j] == cart[j])
  {
    if amount <= 0 then Step(Ignored, cart)
    else match stock
      case None => Step(UpdateFailed, cart)
      case Some(available) =>
        if amount >= available then Step(OutOfStock, cart)
        else match IndexOf(cart, productId)
          case None => Step(UpdateFailed, cart)
          case Some(i) => Step(Ok, cart[i := cart[i].(amount := amount)])
  }

  // ---------------------------------------------------------------------------
  // Invariants the operations keep

  /** Add keeps ids unique and amounts positive, provided the product service
      answers with the product that was asked for. */
  lemma AddKeepsWellFormed(cart: seq<Entry>, productId: int, stock: Option<int>, product: Option<Product>)
    requires WellFormed(cart)
    requires product.Some? ==> product.value.id == productId
    ensures WellFormed(AddProductStep(cart, productId, stock, product).cart)
  {
  }

  /** Remove keeps ids unique and amounts positive. */
  lemma RemoveKeepsWellFormed(cart: seq<Entry>, productId: int)
    requires WellFormed(cart)
    ensures WellFormed(RemoveProductStep(cart, productId).cart)
  {
  }

  /** Update keeps ids unique and amounts positive. */
  lemma UpdateKeepsWellFormed(cart: seq<Entry>, productId: int, amount: int, stock: Option<int>)
    requires WellFormed(cart)
    ensures WellFormed(UpdateAmountStep(cart, productId, amount, stock).cart)
  {
  }

  /** In a well-formed cart a successful remove takes the id out entirely, so
      repeating the remove fails and changes nothing. */
  lemma RemoveTwiceFails(cart: seq<Entry>, productId: int)
    requires WellFormed(cart)
    ensures var once := RemoveProductStep(cart, productId).cart;
            && IndexOf(once, productId).None?
            && RemoveProductStep(once, productId) == Step(RemoveFailed, once)
  {
  }

  /** After a successful add the product is found again, holding one unit more
      than before and no more than the stock, provided the product service
      answers with the product that was asked for. */
  lemma AddThenFind(cart: seq<Entry>, productId: int, stock: Option<int>, product: Option<Product>)
    requires product.Some? ==> product.value.id == productId
    requires AddProductStep(cart, productId, stock, product).outcome == Ok
    ensures var after := AddProductStep(cart, productId, stock, product).cart;
            && CurrentAmount(after, productId) == CurrentAmount(cart, productId) + 1
            && CurrentAmount(after, productId) <= stock.value
  {
  }

  /** The two stock checks differ at the ceiling: adding one unit to an entry
      holding stock - 1 reaches the stock, whereas updating to the stock itself is
      refused. */
  lemma StockCeilingAsymmetry(cart: seq<Entry>, productId: int, available: int)
    requires IndexOf(cart, productId).Some?
    requires CurrentAmount(cart, productId) == available - 1
    requires available > 0
    ensures AddProductStep(cart, productId, Some(available), None).outcome == Ok
    ensures CurrentAmount(AddProductStep(cart, productId, Some(available), None).cart, productId) == available
    ensures UpdateAmountStep(cart, productId, available, Some(available)) == Step(OutOfStock, cart)
  {
  }

  // ---------------------------------------------------------------------------
  // Sequences of operations, as the UI issues them one after another

  /** One call of a cart operation, with the services' answers it received. */
  datatype Request =
    | Add(productId: int, stock: Option<int>, product: Option<Product>)
    | Remove(productId: int)
    | Update(productId: int, amount: int, stock: Option<int>)

  /** The step a single request takes. */
  function Apply(cart: seq<Entry>, req: Request): (r: Step)
    ensures r.outcome != Ok ==> r.cart == cart
  {
    match req
    case Add(id, stock, product) => AddProductStep(cart, id, stock, product)
    case Remove(id) => RemoveProductStep(cart, id)
    case Update(id, amount, stock) => UpdateAmountStep(cart, id, amount, stock)
  }

  /** The cart after running the requests in order. */
  function Run(cart: seq<Entry>, reqs: seq<Request>): seq<Entry>
    decreases |reqs|
  {
    if reqs == [] then cart else Run(Apply(cart, reqs[0]).cart, reqs[1..])
  }

  /** The product service answered with the product that was asked for. */
  predicate Honest(req: Request)
  {
    req.Add? && req.product.Some? ==> req.product.value.id == req.productId
  }

  /** Whatever the outcomes, any run of requests keeps ids unique and amounts
      positive. */
  lemma {:induction false} RunKeepsWellFormed(cart: seq<Entry>, reqs: seq<Request>)
    requires WellFormed(cart)
    requires forall k :: 0 <= k < |reqs| ==> Honest(reqs[k])
    ensures WellFormed(Run(cart, reqs))
    decreases |reqs|
  {
    if reqs != [] {
      var next := Apply(cart, reqs[0]).cart;
      match reqs[0] {
        case Add(id, stock, product) => AddKeepsWellFormed(cart, id, stock, product);
        case Remove(id) => RemoveKeepsWellFormed(cart, id);
        case Update(id, amount, stock) => UpdateKeepsWellFormed(cart, id, amount, stock);
      }
      assert forall k :: 0 <= k < |reqs[1..]| ==> Honest(reqs[1..][k]) by {
        forall k | 0 <= k < |reqs[1..]| ensures Honest(reqs[1..][k]) {
          assert reqs[1..][k] == reqs[k + 1];
        }
      }
      RunKeepsWellFormed(next, reqs[1..]);
    }
  }

  /** The new entry takes its id from the product service's answer, not from the
      requested id: an answer carrying an id already in the cart duplicates it. */
  lemma AddTrustsProductId()
    ensures var cart := [Entry(2, 1, "")];
            var r := AddProductStep(cart, 1, Some(5), Some(Product(2, "")));
            r.outcome == Ok && WellFormed(cart) && !UniqueIds(r.cart)
  {
  }
}
