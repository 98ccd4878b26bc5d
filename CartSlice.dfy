/** The client's cart state: the cart last returned by the server, and the loading and error flags. */
module CartSlice {
  import opened Common
  import opened Thunk
  import opened CartModel

  /**
   * The actions the cart reducer handles. Only fetching has all three phases; adding, updating, removing and
   * clearing are handled when fulfilled and ignored otherwise.
   */
  datatype CartAction =
    | FetchCart(fetched: Phase<Cart>)
    | AddToCart(added: Phase<Cart>)
    | UpdateCartItem(updated: Phase<Cart>)
    | RemoveFromCart(removed: Phase<Cart>)
    | ClearCart(cleared: Phase<Cart>)
    | ClearError

  /** An action that replaces the cart wholesale: a fulfilled fetch, add, update, remove or clear. */
  predicate Replaces(a: CartAction) {
    match a
    case FetchCart(p) => p.Fulfilled?
    case AddToCart(p) => p.Fulfilled?
    case UpdateCartItem(p) => p.Fulfilled?
    case RemoveFromCart(p) => p.Fulfilled?
    case ClearCart(p) => p.Fulfilled?
    case ClearError => false
  }

  /** The payload of a replacing action. */
  function Payload(a: CartAction): Cart
    requires Replaces(a)
  {
    match a
    case FetchCart(p) => p.payload
    case AddToCart(p) => p.payload
    case UpdateCartItem(p) => p.payload
    case RemoveFromCart(p) => p.payload
    case ClearCart(p) => p.payload
  }

  class CartState {
    var cart: Option<Cart>
    var isLoading: bool
    var error: Option<string>

    constructor ()
      ensures cart == None && !isLoading && error == None
    {
      cart := None;
      isLoading := false;
      error := None;
    }

    /**
     * The reducer. A fulfilled action stores its cart (a fulfilled fetch also clears loading); a pending fetch sets
     * loading without clearing the error; a rejected fetch clears loading and stores the message; a pending or
     * rejected add, update, remove or clear changes nothing.
     */
    method Dispatch(a: CartAction)
      modifies this
      ensures Replaces(a) ==> cart == Some(Payload(a)) && error == old(error)
      ensures Replaces(a) && !a.FetchCart? ==> isLoading == old(isLoading)
      ensures a == FetchCart(Pending) ==> isLoading && cart == old(cart) && error == old(error)
      ensures a.FetchCart? && a.fetched.Fulfilled? ==> !isLoading
      ensures a.FetchCart? && a.fetched.Rejected? ==> !isLoading && error == Some(a.fetched.message) && cart == old(cart)
      ensures a == ClearError ==> error == None && cart == old(cart) && isLoading == old(isLoading)
      ensures !a.FetchCart? && !a.ClearError? && !Replaces(a) ==>
        cart == old(cart) && isLoading == old(isLoading) && error == old(error)
    {
      match a
      case FetchCart(Pending) =>
        isLoading := true;
      case FetchCart(Fulfilled(c)) =>
        isLoading := false;
        cart := Some(c);
      case FetchCart(Rejected(m)) =>
        isLoading := false;
        error := Some(m);
      case AddToCart(Fulfilled(c)) =>
        cart := Some(c);
      case UpdateCartItem(Fulfilled(c)) =>
        cart := Some(c);
      case RemoveFromCart(Fulfilled(c)) =>
        cart := Some(c);
      case ClearCart(Fulfilled(c)) =>
        cart := Some(c);
      case ClearError =>
        error := None;
      case _ =>
    }
  }
}
