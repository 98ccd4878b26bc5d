/** The product document: its fields, their defaults and the schema's validators. */
module ProductModel {
  import opened Common
  import opened Text

  datatype Image = Image(url: string, publicId: Option<string>)

  datatype Product = Product(
    id: ProductId,
    title: string,
    description: string,
    price: Paise,
    categoryId: CategoryId,
    images: seq<Image>,
    stock: int,
    ratingAvg: real,
    ratingCount: int,
    brand: Option<string>,
    featured: bool,
    isActive: bool)

  /** What the schema accepts on save: required text present, title and brand trimmed, the numeric bounds. */
  predicate Valid(p: Product) {
    && p.title != [] && Trimmed(p.title)
    && p.description != []
    && p.price >= 0
    && p.stock >= 0
    && 0.0 <= p.ratingAvg <= 5.0
    && (p.brand.Some? ==> Trimmed(p.brand.value))
    && (forall i | 0 <= i < |p.images| :: p.images[i].url != [])
  }

  /** The fields a client supplies when a product is created; absent ones are `None`. */
  datatype ProductInput = ProductInput(
    title: string,
    description: string,
    price: Option<Paise>,
    categoryId: Option<CategoryId>,
    images: seq<Image>,
    stock: Option<int>,
    ratingAvg: Option<real>,
    ratingCount: Option<int>,
    brand: Option<string>,
    featured: Option<bool>,
    isActive: Option<bool>)

  function TrimOpt(s: Option<string>): (r: Option<string>)
    ensures r.Some? <==> s.Some?
    ensures r.Some? ==> Trimmed(r.value) && r.value == Trim(s.value)
  {
    if s.Some? then TrimmedIsFixed(s.value); Some(Trim(s.value)) else None
  }

  /** The document `Product.create` builds from an input: trimming setters and defaults, then validation. */
  function Create(id: ProductId, input: ProductInput): (r: Result<Product>)
    ensures r.Ok? <==>
      && Trim(input.title) != [] && input.description != []
      && input.price.Some? && input.price.value >= 0
      && input.categoryId.Some?
      && input.stock.GetOr(0) >= 0
      && 0.0 <= input.ratingAvg.GetOr(0.0) <= 5.0
      && (forall i | 0 <= i < |input.images| :: input.images[i].url != [])
    ensures r.Ok? ==> Valid(r.value) && r.value.id == id
    ensures r.Ok? ==> r.value.stock == input.stock.GetOr(0) && r.value.ratingAvg == input.ratingAvg.GetOr(0.0)
    ensures r.Ok? ==> r.value.ratingCount == input.ratingCount.GetOr(0)
    ensures r.Ok? ==> r.value.isActive == input.isActive.GetOr(true) && r.value.featured == input.featured.GetOr(false)
    ensures r.Ok? ==> r.value.title == Trim(input.title) && r.value.price == input.price.value
  {
    TrimmedIsFixed(input.title);
    if input.price.None? || input.categoryId.None? then Err(Thrown(ValidationFailed))
    else
      var p := Product(id, Trim(input.title), input.description, input.price.value, input.categoryId.value,
                       input.images, input.stock.GetOr(0), input.ratingAvg.GetOr(0.0), input.ratingCount.GetOr(0),
                       TrimOpt(input.brand), input.featured.GetOr(false), input.isActive.GetOr(true));
      if Valid(p) then Ok(p) else Err(Thrown(ValidationFailed))
  }

  /** Changing only the stock, to a non-negative amount, keeps a product valid. */
  lemma StockChangeKeepsValid(p: Product, stock: int)
    requires Valid(p) && stock >= 0
    ensures Valid(p.(stock := stock))
  {
  }
}
