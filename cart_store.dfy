/** The cart store: the cart the UI sees and its copy in persistent storage.

    Every operation copies the cart, changes the copy, and on success publishes
    the copy as the new cart and writes it to storage; on any other outcome
    neither field changes. Answers of the stock and product services are
    parameters (None for a request that failed). */
module Store {
  import opened Cart

  class CartStore {
    /** The cart as published to the UI. */
    var cart: seq<Entry>
    /** What the storage holds under the cart key; None until the first write. */
    var stored: Option<seq<Entry>>

    /** Reloading from storage gives back the cart in memory. */
    predicate Persisted()
      reads this
    {
      Restore(stored) == cart
    }

    /** The object invariant: persisted, unique ids, positive amounts. */
    predicate Valid()
      reads this
    {
      Persisted() && WellFormed(cart)
    }

    /** Start from what the storage holds: its sequence, or an empty cart. */
    constructor (storage: Option<seq<Entry>>)
      ensures stored == storage
      ensures cart == Restore(storage)
      ensures Persisted()
      ensures Valid() <==> WellFormed(Restore(storage))
    {
      stored := storage;
      match storage {
        case Some(s) => cart := s;
        case None => cart := [];
      }
    }

    /** addProduct. */
    method AddProduct(productId: int, stock: Option<int>, product: Option<Product>) returns (outcome: Outcome)
      modifies this
      ensures Step(outcome, cart) == AddProductStep(old(cart), productId, stock, product)
      ensures outcome == Ok ==> stored == Some(cart)
      ensures outcome != Ok ==> cart == old(cart) && stored == old(stored)
      ensures old(Persisted()) ==> Persisted()
      ensures old(Valid()) && (product.Some? ==> product.value.id == productId) ==> Valid()
    {
      if WellFormed(cart) && (product.Some? ==> product.value.id == productId) {
        AddKeepsWellFormed(cart, productId, stock, product);
      }
      var updated := cart;
      var found := IndexOf(updated, productId);
      if stock.None? {
        return AddFailed;
      }
      var current := if found.Some? then updated[found.value].amount else 0;
      var quantity := current + 1;
      if quantity > stock.value {
        return OutOfStock;
      }
      if found.Some? {
        var i := found.value;
        updated := updated[i := updated[i].(amount := quantity)];
      } else {
        if product.None? {
          return AddFailed;
        }
        updated := updated + [NewEntry(product.value)];
      }
      cart := updated;
      stored := Some(updated);
      outcome := Ok;
    }

    /** removeProduct. */
    method RemoveProduct(productId: int) returns (outcome: Outcome)
      modifies this
      ensures Step(outcome, cart) == RemoveProductStep(old(cart), productId)
      ensures outcome == Ok ==> stored == Some(cart)
      ensures outcome != Ok ==> cart == old(cart) && stored == old(stored)
      ensures old(Persisted()) ==> Persisted()
      ensures old(Valid()) ==> Valid()
    {
      if WellFormed(cart) {
        RemoveKeepsWellFormed(cart, productId);
      }
      var updated := cart;
      var index := IndexOf(updated, productId);
      if index.Some? {
        updated := Without(updated, index.value);
        cart := updated;
        stored := Some(updated);
        outcome := Ok;
      } else {
        outcome := RemoveFailed;
      }
    }

    /** updateProductAmount. */
    method UpdateProductAmount(productId: int, amount: int, stock: Option<int>) returns (outcome: Outcome)
      modifies this
      ensures Step(outcome, cart) == UpdateAmountStep(old(cart), productId, amount, stock)
      ensures outcome == Ok ==> stored == Some(cart)
      ensures outcome != Ok ==> cart == old(cart) && stored == old(stored)
      ensures old(Persisted()) ==> Persisted()
      ensures old(Valid()) ==> Valid()
    {
      if WellFormed(cart) {
        UpdateKeepsWellFormed(cart, productId, amount, stock);
      }
      if amount <= 0 {
        return Ignored;
      }
      if stock.None? {
        return UpdateFailed;
      }
      if amount >= stock.value {
        return OutOfStock;
      }
      var updated := cart;
      var found := IndexOf(updated, productId);
      if found.Some? {
        var i := found.value;
        updated := updated[i := updated[i].(amount := amount)];
        cart := updated;
        stored := Some(updated);
        outcome := Ok;
      } else {
        outcome := UpdateFailed;
      }
    }
  }

  // Worked examples of the cart's behaviour, checked against the store's contracts.

  /** Empty cart, stock 5 for product 1: add appends it with amount 1. */
  method AddToEmptyCart()
  {
    var store := new CartStore(None);
    var o := store.AddProduct(1, Some(5), Some(Product(1, "shoe")));
    assert o == Ok && store.cart == [Entry(1, 1, "shoe")];
  }

  /** Stock 1 and one unit already in the cart: add is out of stock. */
  method AddBeyondStock()
  {
    var store := new CartStore(Some([Entry(1, 1, "shoe")]));
    var o := store.AddProduct(1, Some(1), Some(Product(1, "shoe")));
    assert o == OutOfStock && store.cart == [Entry(1, 1, "shoe")];
  }

  /** Update to 0 is ignored. */
  method UpdateToZero()
  {
    var store := new CartStore(Some([Entry(1, 2, "shoe")]));
    var o := store.UpdateProductAmount(1, 0, Some(5));
    assert o == Ignored && store.cart == [Entry(1, 2, "shoe")];
  }

  /** Removing the only entry empties the cart; removing it again fails and
      leaves storage as it was. */
  method RemoveOnlyEntry()
  {
    var store := new CartStore(Some([Entry(2, 1, "sock")]));
    var o := store.RemoveProduct(2);
    assert o == Ok && store.cart == [];
    o := store.RemoveProduct(2);
    assert o == RemoveFailed && store.cart == [] && store.stored == Some([]);
  }

  /** Stock 10: update to 9 succeeds, update to 10 is refused; a store reloaded
      from storage then holds amount 9. */
  method UpdateUpToStock()
  {
    var store := new CartStore(Some([Entry(3, 1, "cap")]));
    var o := store.UpdateProductAmount(3, 9, Some(10));
    assert o == Ok && store.cart == [Entry(3, 9, "cap")];
    o := store.UpdateProductAmount(3, 10, Some(10));
    assert o == OutOfStock && store.cart == [Entry(3, 9, "cap")];
    var reloaded := new CartStore(store.stored);
    assert reloaded.cart == [Entry(3, 9, "cap")];
  }
}
