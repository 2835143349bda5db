/** The behaviour of the product service as functions over the product collection: one
    function per operation, giving the new collection and the answer (or the error). The
    service class in module Service is proved to do exactly what these functions say. */
module Catalog {
  import opened Wrappers
  import opened Model

  /** The product collection, keyed by SKU (the unique index on `sku`), together with the
      store's identifier generator: the next id it hands out. */
  datatype Store = Store(products: map<Sku, Product>, nextId: nat)

  /** What an operation leaves behind and what it answers. */
  datatype Step<T> = Step(store: Store, result: Result<T, Error>)

  /** The store invariant: each product sits under its own SKU, its id was handed out by the
      generator, and no two products share an id. */
  ghost predicate WellFormed(st: Store)
  {
    && (forall k :: k in st.products ==> st.products[k].sku == k && st.products[k].id < st.nextId)
    && (forall k1, k2 ::
          k1 in st.products && k2 in st.products && st.products[k1].id == st.products[k2].id ==> k1 == k2)
  }

  /** The admin preview URL: resolved through the file service when the product has an image,
      null otherwise. */
  function PreviewOf(p: Product, preview: PreviewFn): (u: Option<Url>)
    ensures u.None? <==> p.imageObjectName.None?
    ensures u.Some? ==> u.value == preview(p.imageObjectName)
  {
    if p.imageObjectName.Some? then Some(preview(p.imageObjectName)) else None
  }

  // ---------------------------------------------------------------------------------------
  // Operations that change the collection
  // ---------------------------------------------------------------------------------------

  /** `createAdminProduct`: refuse a known SKU; otherwise upload the image when one is given
      (a failed upload aborts), then save an enabled product under a fresh id. */
  function Create(st: Store, request: ProductRequest, file: Option<ImageFile>, upload: UploadResult)
    : (r: Step<AdminProductResponse>)
    ensures r.result.Success? <==> request.sku !in st.products && !(HasImage(file) && upload.UploadFailed?)
    ensures r.result == Failure(AlreadyExists(request.sku)) <==> request.sku in st.products
    ensures r.result == Failure(UploadError) <==>
              request.sku !in st.products && HasImage(file) && upload.UploadFailed?
    ensures r.result.Failure? ==> r.store == st
    ensures r.result.Success? ==>
              && r.store.nextId == st.nextId + 1
              && r.store.products.Keys == st.products.Keys + {request.sku}
              && (forall k :: k in st.products ==> r.store.products[k] == st.products[k])
    ensures r.result.Success? ==>
              var p := r.store.products[request.sku];
              && p.id == st.nextId && p.sku == request.sku && p.name == request.name
              && p.description == request.description && p.price == request.price && p.enabled
              && (p.imageObjectName.Some? <==> HasImage(file))
              && Describes(r.result.value, p)
              && (HasImage(file) ==>
                    p.imageObjectName == Some(upload.dto.objectName)
                    && r.result.value.previewUrl == Some(upload.dto.presignedUrl))
              && (!HasImage(file) ==> r.result.value.previewUrl.None?)
  {
    if request.sku in st.products then
      Step(st, Failure(AlreadyExists(request.sku)))
    else if HasImage(file) && upload.UploadFailed? then
      Step(st, Failure(UploadError))
    else
      var image := if HasImage(file) then Some(upload.dto.objectName) else None;
      var p := Product(st.nextId, request.sku, request.name, request.description, request.price, true, image);
      var previewUrl := if HasImage(file) then Some(upload.dto.presignedUrl) else None;
      Step(Store(st.products[request.sku := p], st.nextId + 1), Success(AdminView(p, previewUrl)))
  }

  /** `updateAdminProduct`: overwrite name, description and price of a known product; when a
      file is given, upload it and store the new object name (a failed upload saves nothing). */
  function Update(st: Store, sku: Sku, request: ProductUpdateRequest, file: Option<ImageFile>,
                  upload: UploadResult, preview: PreviewFn)
    : (r: Step<AdminProductResponse>)
    ensures r.result.Success? <==> sku in st.products && !(HasImage(file) && upload.UploadFailed?)
    ensures r.result == Failure(NotFound(sku)) <==> sku !in st.products
    ensures r.result == Failure(UploadError) <==>
              sku in st.products && HasImage(file) && upload.UploadFailed?
    ensures r.result.Failure? ==> r.store == st
    ensures r.result.Success? ==>
              && r.store.nextId == st.nextId
              && r.store.products.Keys == st.products.Keys
              && (forall k :: k in st.products && k != sku ==> r.store.products[k] == st.products[k])
    ensures r.result.Success? ==>
              var before, p := st.products[sku], r.store.products[sku];
              && p.name == request.name && p.description == request.description && p.price == request.price
              && p.id == before.id && p.sku == before.sku && p.enabled == before.enabled
              && Describes(r.result.value, p)
              && (HasImage(file) ==>
                    p.imageObjectName == Some(upload.dto.objectName)
                    && r.result.value.previewUrl == Some(upload.dto.presignedUrl))
              && (!HasImage(file) ==>
                    p.imageObjectName == before.imageObjectName
                    && r.result.value.previewUrl == PreviewOf(p, preview))
  {
    if sku !in st.products then
      Step(st, Failure(NotFound(sku)))
    else
      var p := st.products[sku].(name := request.name, description := request.description, price := request.price);
      if HasImage(file) then
        match upload
        case UploadFailed => Step(st, Failure(UploadError))
        case Uploaded(dto) =>
          var q := p.(imageObjectName := Some(dto.objectName));
          Step(Store(st.products[sku := q], st.nextId), Success(AdminView(q, Some(dto.presignedUrl))))
      else
        Step(Store(st.products[sku := p], st.nextId), Success(AdminView(p, PreviewOf(p, preview))))
  }

  /** `updateProductImage`: an absent or empty file is refused before the product is looked
      up; then the SKU must be known; then the upload must succeed. */
  function ReplaceImage(st: Store, sku: Sku, file: Option<ImageFile>, upload: UploadResult)
    : (r: Step<AdminProductResponse>)
    ensures r.result.Success? <==> HasImage(file) && sku in st.products && upload.Uploaded?
    ensures r.result == Failure(InvalidInput) <==> !HasImage(file)
    ensures r.result == Failure(NotFound(sku)) <==> HasImage(file) && sku !in st.products
    ensures r.result == Failure(UploadError) <==>
              HasImage(file) && sku in st.products && upload.UploadFailed?
    ensures r.result.Failure? ==> r.store == st
    ensures r.result.Success? ==>
              && r.store.nextId == st.nextId
              && r.store.products == st.products[sku := st.products[sku].(imageObjectName := Some(upload.dto.objectName))]
              && Describes(r.result.value, r.store.products[sku])
              && r.result.value.previewUrl == Some(upload.dto.presignedUrl)
  {
    if !HasImage(file) then
      Step(st, Failure(InvalidInput))
    else if sku !in st.products then
      Step(st, Failure(NotFound(sku)))
    else
      match upload
      case UploadFailed => Step(st, Failure(UploadError))
      case Uploaded(dto) =>
        var p := st.products[sku].(imageObjectName := Some(dto.objectName));
        Step(Store(st.products[sku := p], st.nextId), Success(AdminView(p, Some(dto.presignedUrl))))
  }

  /** `disableProduct` (enabled = false) and `enableProduct` (enabled = true). */
  function SetEnabled(st: Store, sku: Sku, enabled: bool): (r: Step<()>)
    ensures r.result.Success? <==> sku in st.products
    ensures r.result == Failure(NotFound(sku)) <==> sku !in st.products
    ensures r.result.Failure? ==> r.store == st
    ensures r.result.Success? ==>
              r.store == Store(st.products[sku := st.products[sku].(enabled := enabled)], st.nextId)
  {
    if sku !in st.products then
      Step(st, Failure(NotFound(sku)))
    else
      Step(Store(st.products[sku := st.products[sku].(enabled := enabled)], st.nextId), Success(()))
  }

  /** `findAllBySkuIn`: the stored products whose SKU is listed. */
  function FindAllBySkuIn(products: map<Sku, Product>, skus: seq<Sku>): (found: set<Product>)
  {
    set p | p in products.Values && p.sku in skus
  }

  function IdsOf(ps: set<Product>): (ids: set<nat>)
  {
    set p | p in ps :: p.id
  }

  /** `deleteProducts`: find the listed products; if there are none, do nothing; otherwise
      delete them, each by its id, as the repository's `deleteAll` does. */
  function Delete(st: Store, skus: seq<Sku>): (r: Store)
    ensures r.nextId == st.nextId
    ensures r.products.Keys <= st.products.Keys
    ensures forall k :: k in r.products ==> r.products[k] == st.products[k]
  {
    var found := FindAllBySkuIn(st.products, skus);
    if found == {} then
      st
    else
      var ids := IdsOf(found);
      Store(map k | k in st.products && st.products[k].id !in ids :: st.products[k], st.nextId)
  }

  // ---------------------------------------------------------------------------------------
  // Reads
  // ---------------------------------------------------------------------------------------

  /** `getAdminProduct`: any known product, enabled or not. */
  function GetAdminProduct(products: map<Sku, Product>, sku: Sku, preview: PreviewFn)
    : (r: Result<AdminProductResponse, Error>)
    ensures r.Success? <==> sku in products
    ensures r.Failure? ==> r.error == NotFound(sku)
    ensures r.Success? ==>
              && Describes(r.value, products[sku])
              && r.value.previewUrl == PreviewOf(products[sku], preview)
  {
    if sku !in products then Failure(NotFound(sku))
    else Success(AdminView(products[sku], PreviewOf(products[sku], preview)))
  }

  /** `getAdminProducts` without the paging: one admin view per stored product. */
  function GetAdminProducts(products: map<Sku, Product>, preview: PreviewFn)
    : (r: set<AdminProductResponse>)
    ensures forall k :: k in products ==> AdminView(products[k], PreviewOf(products[k], preview)) in r
    ensures forall v :: v in r ==>
              exists k :: k in products && Describes(v, products[k]) && v.previewUrl == PreviewOf(products[k], preview)
  {
    set k | k in products :: AdminView(products[k], PreviewOf(products[k], preview))
  }

  /** `getPublicProductBySku`: only an enabled product is visible; its image URL is always
      resolved, null object name included. */
  function GetPublicProductBySku(products: map<Sku, Product>, sku: Sku, preview: PreviewFn)
    : (r: Result<ProductResponse, Error>)
    ensures r.Success? <==> sku in products && products[sku].enabled
    ensures r.Failure? ==> r.error == NotFound(sku)
    ensures r.Success? ==>
              && r.value.id == products[sku].id && r.value.name == products[sku].name
              && r.value.description == products[sku].description && r.value.price == products[sku].price
              && r.value.imageUrl == preview(products[sku].imageObjectName)
  {
    if sku in products && products[sku].enabled then
      Success(PublicView(products[sku], preview(products[sku].imageObjectName)))
    else
      Failure(NotFound(sku))
  }

  /** `getPublicProducts` without the paging: one public view per enabled product. */
  function GetPublicProducts(products: map<Sku, Product>, preview: PreviewFn)
    : (r: set<ProductResponse>)
    ensures forall k :: k in products && products[k].enabled ==>
              PublicView(products[k], preview(products[k].imageObjectName)) in r
    ensures forall v :: v in r ==>
              exists k :: k in products && products[k].enabled
                          && v == PublicView(products[k], preview(products[k].imageObjectName))
  {
    set k | k in products && products[k].enabled :: PublicView(products[k], preview(products[k].imageObjectName))
  }
}
