/** The client's catalogue state: the listed products and their pagination, the product on display, and the flags. */
module ProductSlice {
  import opened Common
  import opened Thunk
  import opened ProductModel
  import opened Pagination

  /** The actions the product reducer handles; a listing is fulfilled with the products and their pagination. */
  datatype ProductAction =
    | FetchProducts(listed: Phase<Listing<Product>>)
    | FetchProductById(fetched: Phase<Product>)
    | ClearCurrentProduct
    | ClearError

  class ProductState {
    var products: seq<Product>
    var currentProduct: Option<Product>
    var pagination: Option<PageInfo>
    var isLoading: bool
    var error: Option<string>

    constructor ()
      ensures products == [] && currentProduct == None && pagination == None && !isLoading && error == None
    {
      products := [];
      currentProduct := None;
      pagination := None;
      isLoading := false;
      error := None;
    }

    /**
     * The reducer. Pending sets loading and clears the error; a fulfilled listing stores both the products and
     * their pagination; a fulfilled fetch by id stores only the product on display; a rejection clears loading
     * and stores the message, keeping what was listed.
     */
    method Dispatch(a: ProductAction)
      modifies this
      ensures match a
        case FetchProducts(Pending) | FetchProductById(Pending) =>
          && isLoading && error == None
          && products == old(products) && pagination == old(pagination) && currentProduct == old(currentProduct)
        case FetchProducts(Fulfilled(l)) =>
          && !isLoading && error == old(error)
          && products == l.items && pagination == Some(l.pagination) && currentProduct == old(currentProduct)
        case FetchProductById(Fulfilled(p)) =>
          && !isLoading && error == old(error)
          && products == old(products) && pagination == old(pagination) && currentProduct == Some(p)
        case FetchProducts(Rejected(m)) =>
          && !isLoading && error == Some(m)
          && products == old(products) && pagination == old(pagination) && currentProduct == old(currentProduct)
        case FetchProductById(Rejected(m)) =>
          && !isLoading && error == Some(m)
          && products == old(products) && pagination == old(pagination) && currentProduct == old(currentProduct)
        case ClearCurrentProduct =>
          && currentProduct == None && isLoading == old(isLoading) && error == old(error)
          && products == old(products) && pagination == old(pagination)
        case ClearError =>
          && error == None && isLoading == old(isLoading) && currentProduct == old(currentProduct)
          && products == old(products) && pagination == old(pagination)
    {
      match a
      case FetchProducts(Pending) | FetchProductById(Pending) =>
        isLoading := true;
        error := None;
      case FetchProducts(Fulfilled(l)) =>
        isLoading := false;
        products := l.items;
        pagination := Some(l.pagination);
      case FetchProductById(Fulfilled(p)) =>
        isLoading := false;
        currentProduct := Some(p);
      case FetchProducts(Rejected(m)) =>
        isLoading := false;
        error := Some(m);
      case FetchProductById(Rejected(m)) =>
        isLoading := false;
        error := Some(m);
      case ClearCurrentProduct =>
        currentProduct := None;
      case ClearError =>
        error := None;
    }
  }
}
