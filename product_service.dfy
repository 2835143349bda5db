/** The product service as the source has it: an object holding the product collection,
    whose operations look a product up, change it through its setters and save it back.
    Each method is proved to do what the matching function of module Catalog says, and to
    keep the store invariant. The read operations change nothing and are the functions
    GetAdminProduct, GetAdminProducts, GetPublicProductBySku and GetPublicProducts of
    module Catalog, applied to `products`. */
module Service {
  import opened Wrappers
  import opened Model
  import opened Catalog
  import CatalogLemmas

  class ProductService {
    /** The product collection, keyed by SKU. */
    var products: map<Sku, Product>
    /** The id the store hands to the next product it inserts. */
    var nextId: nat

    function State(): (st: Store)
      reads this
    {
      Store(products, nextId)
    }

    ghost predicate Valid()
      reads this
    {
      WellFormed(State())
    }

    /** A service over an existing collection (possibly empty). */
    constructor (initial: Store)
      requires WellFormed(initial)
      ensures Valid()
      ensures State() == initial
    {
      products := initial.products;
      nextId := initial.nextId;
    }

    /** `save` of a new product: the store assigns the next id. */
    method Insert(p: Product) returns (saved: Product)
      requires p.sku !in products
      modifies this
      ensures saved == p.(id := old(nextId))
      ensures products == old(products)[p.sku := saved] && nextId == old(nextId) + 1
    {
      saved := p.(id := nextId);
      products := products[p.sku := saved];
      nextId := nextId + 1;
    }

    /** `save` of a product read from the store: its document is overwritten. */
    method Save(p: Product)
      modifies this
      ensures products == old(products)[p.sku := p] && nextId == old(nextId)
    {
      products := products[p.sku := p];
    }

    /** `createAdminProduct(request, file)`. */
    method CreateAdminProduct(request: ProductRequest, file: Option<ImageFile>, upload: UploadResult)
      returns (r: Result<AdminProductResponse, Error>)
      requires Valid()
      modifies this
      ensures Valid()
      ensures Step(State(), r) == Create(old(State()), request, file, upload)
    {
      CatalogLemmas.ApplyKeepsWellFormed(State(), CatalogLemmas.CreateOp(request, file, upload));
      if request.sku in products {
        return Failure(AlreadyExists(request.sku));
      }
      var product := Product(0, request.sku, request.name, request.description, request.price, true, None);
      if HasImage(file) {
        if upload.UploadFailed? {
          return Failure(UploadError);
        }
        var dto := upload.dto;
        product := product.(imageObjectName := Some(dto.objectName));
        var saved := Insert(product);
        return Success(AdminView(saved, Some(dto.presignedUrl)));
      }
      var saved := Insert(product);
      return Success(AdminView(saved, None));
    }

    /** `createAdminProduct(request)`: the same with no file, so the file service is never called. */
    method CreateAdminProductWithoutImage(request: ProductRequest)
      returns (r: Result<AdminProductResponse, Error>)
      requires Valid()
      modifies this
      ensures Valid()
      ensures forall upload :: Step(State(), r) == Create(old(State()), request, None, upload)
    {
      r := CreateAdminProduct(request, None, UploadFailed);
    }

    /** `updateAdminProduct(sku, request, file)`. */
    method UpdateAdminProduct(sku: Sku, request: ProductUpdateRequest, file: Option<ImageFile>,
                              upload: UploadResult, preview: PreviewFn)
      returns (r: Result<AdminProductResponse, Error>)
      requires Valid()
      modifies this
      ensures Valid()
      ensures Step(State(), r) == Update(old(State()), sku, request, file, upload, preview)
    {
      CatalogLemmas.ApplyKeepsWellFormed(State(), CatalogLemmas.UpdateOp(sku, request, file, upload, preview));
      if sku !in products {
        return Failure(NotFound(sku));
      }
      var product := products[sku];
      product := product.(name := request.name);
      product := product.(description := request.description);
      product := product.(price := request.price);
      if HasImage(file) {
        if upload.UploadFailed? {
          return Failure(UploadError);
        }
        var dto := upload.dto;
        product := product.(imageObjectName := Some(dto.objectName));
        Save(product);
        return Success(AdminView(product, Some(dto.presignedUrl)));
      }
      Save(product);
      var previewUrl := if product.imageObjectName.Some? then Some(preview(product.imageObjectName)) else None;
      return Success(AdminView(product, previewUrl));
    }

    /** `updateProductImage(sku, file)`. */
    method UpdateProductImage(sku: Sku, file: Option<ImageFile>, upload: UploadResult)
      returns (r: Result<AdminProductResponse, Error>)
      requires Valid()
      modifies this
      ensures Valid()
      ensures Step(State(), r) == ReplaceImage(old(State()), sku, file, upload)
    {
      CatalogLemmas.ApplyKeepsWellFormed(State(), CatalogLemmas.ReplaceImageOp(sku, file, upload));
      if !HasImage(file) {
        return Failure(InvalidInput);
      }
      if sku !in products {
        return Failure(NotFound(sku));
      }
      var product := products[sku];
      if upload.UploadFailed? {
        return Failure(UploadError);
      }
      var dto := upload.dto;
      product := product.(imageObjectName := Some(dto.objectName));
      Save(product);
      return Success(AdminView(product, Some(dto.presignedUrl)));
    }

    /** `disableProduct(sku)`. */
    method DisableProduct(sku: Sku) returns (r: Result<(), Error>)
      requires Valid()
      modifies this
      ensures Valid()
      ensures Step(State(), r) == SetEnabled(old(State()), sku, false)
    {
      CatalogLemmas.ApplyKeepsWellFormed(State(), CatalogLemmas.SetEnabledOp(sku, false));
      if sku !in products {
        return Failure(NotFound(sku));
      }
      var product := products[sku];
      product := product.(enabled := false);
      Save(product);
      return Success(());
    }

    /** `enableProduct(sku)`. */
    method EnableProduct(sku: Sku) returns (r: Result<(), Error>)
      requires Valid()
      modifies this
      ensures Valid()
      ensures Step(State(), r) == SetEnabled(old(State()), sku, true)
    {
      CatalogLemmas.ApplyKeepsWellFormed(State(), CatalogLemmas.SetEnabledOp(sku, true));
      if sku !in products {
        return Failure(NotFound(sku));
      }
      var product := products[sku];
      product := product.(enabled := true);
      Save(product);
      return Success(());
    }

    /** `deleteProducts(skus)`: unknown SKUs are ignored, and there is no error case. */
    method DeleteProducts(skus: seq<Sku>)
      requires Valid()
      modifies this
      ensures Valid()
      ensures State() == Delete(old(State()), skus)
      ensures forall k :: k in products <==> k in old(products) && k !in skus
    {
      CatalogLemmas.ApplyKeepsWellFormed(State(), CatalogLemmas.DeleteOp(skus));
      CatalogLemmas.DeleteRemovesExactlyListed(State(), skus);
      var found := FindAllBySkuIn(products, skus);
      if found == {} {
        return;
      }
      var ids := IdsOf(found);
      products := map k | k in products && products[k].id !in ids :: products[k];
    }
  }
}
