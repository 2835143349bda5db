# Product catalog service: a Dafny model

This project models the product service of a product-catalog microservice. The service
keeps a collection of products. Each product has an internal id, a unique SKU, a name, a
description, a price, an `enabled` flag and an optional image object name. The service
creates products, updates their fields, replaces their image, enables and disables them,
deletes them in batches, and reads them through an admin surface and a public surface.
The public surface hides disabled products. Images live in a separate file service: the
product service uploads them there and asks it for preview URLs.

Modules:

- `Wrappers` (`wrappers.dfy`): `Option` for the source's nullable references and `Result`
  for its exceptions.
- `Model` (`model.dfy`): the product, the request and response records, the file-service
  records and the errors `AlreadyExists`, `NotFound`, `InvalidInput` and `UploadError`.
  `AdminView` and `PublicView` are the two-argument `from(product, url)` calls that build the
  responses.
- `Catalog` (`catalog.dfy`): the specification. The collection is a `map<Sku, Product>`
  together with the store's id generator (`Store`). There is one function per operation,
  returning the new store and the answer or error, plus the four read functions.
  `FindAllBySkuIn` is the repository query of that name (ProductRepository.java:26). The store
  invariant `WellFormed` says that every product sits under its own SKU (the unique index
  on `sku`) and that ids come from the generator and are pairwise distinct.
- `CatalogLemmas` (`catalog_lemmas.dfy`): properties that relate several operations, and
  the store invariant over any history of requests (`Run`).
- `Service` (`product_service.dfy`): the class `ProductService`. It holds the collection
  and the id generator as fields, with one method per state-changing operation. Like the
  source, each method looks the product up, changes it field by field and saves it. Each
  method is proved to keep `Valid()` and to produce exactly the store and answer of the
  matching `Catalog` function. The reads change nothing, so they are the `Catalog` read
  functions applied to the `products` field.

The file service is not modelled; it appears only as inputs. An upload's outcome is a
parameter (`Uploaded(FileDto(objectName, presignedUrl))` or `UploadFailed`), and it is
consulted only when the source would call the upload. The preview-URL call is a total
function `Option<ObjectName> -> Url`, because the client falls back to a placeholder path
instead of failing. The public reads pass it a null object name too, as the source does.

Where the code and its documentation disagree, the model follows `ProductService.java`:

- `Product.java` declares neither `enabled` nor `imageObjectName`, yet the service relies
  on both, and the repository's `findAllByEnabledTrue` relies on `enabled`. The model's
  `Product` has them.
- `AdminProductResponse` and `ProductResponse` declare only a one-argument `from`, while
  the service calls a two-argument `from(product, url)`. The model's `AdminView` and
  `PublicView` take the URL.
- `updateProductImage` checks the file before it looks up the SKU. An empty file is
  therefore `InvalidInput` even for an unknown SKU (ProductService.java:108-114 checks the
  file first).
- `updateAdminProduct` does replace the image when it is given a file. Its only caller, the
  admin controller, always passes none (AdminProductController.java:124).

## Model

| member | source | states |
|---|---|---|
| `Catalog.PreviewOf` | src/main/java/com/akul/microservices/product/service/ProductService.java:193-197 | the admin preview URL is null exactly when the product has no image object name, and is the file service's URL for it otherwise |
| `Catalog.Create` | src/main/java/com/akul/microservices/product/service/ProductService.java:40-66 | succeeds exactly when the SKU is new and no given non-empty file failed to upload; a stored SKU fails with AlreadyExists; a given non-empty file whose upload fails fails with UploadError; every failure leaves the store unchanged; success adds exactly one entry under the request's SKU, with a fresh id, the request's name, description and price, enabled, and an image object name exactly when a non-empty file was given (the upload's name); other entries are untouched; the answer shows the saved product with the upload's presigned URL or null |
| `Catalog.Update` | src/main/java/com/akul/microservices/product/service/ProductService.java:69-97 | succeeds exactly when the SKU is stored and no given non-empty file failed to upload; an absent SKU fails with NotFound and a failed upload with UploadError, both leaving the store unchanged; success overwrites exactly name, description and price, keeps id, SKU and enabled, keeps the image when no file is given (answering with the resolved preview) and stores the upload's object name when one is given; other entries are untouched |
| `Catalog.ReplaceImage` | src/main/java/com/akul/microservices/product/service/ProductService.java:106-122 | succeeds exactly when a non-empty file is given, the SKU is stored and the upload succeeds; a null or empty file fails with InvalidInput before any lookup; then an absent SKU fails with NotFound; then a failed upload fails with UploadError; failures change nothing; success changes only that product's image object name and answers with the presigned URL |
| `Catalog.SetEnabled` | src/main/java/com/akul/microservices/product/service/ProductService.java:124-142 | succeeds exactly when the SKU is stored; an absent SKU fails with NotFound and changes nothing; otherwise only that product's enabled flag is set to the given value |
| `Catalog.Delete` | src/main/java/com/akul/microservices/product/service/ProductService.java:156-163 | batch delete never touches the id generator, only removes entries, and keeps every remaining entry as it was |
| `Catalog.GetAdminProduct` | src/main/java/com/akul/microservices/product/service/ProductService.java:189-200 | succeeds exactly when the SKU is stored, whether enabled or not, else NotFound; the answer shows every stored field, and its preview URL is null exactly when there is no image and is otherwise the file service's URL for the image |
| `Catalog.GetAdminProducts` | src/main/java/com/akul/microservices/product/service/ProductService.java:144-154 | the admin listing holds the view of every stored product, disabled ones included, and nothing else |
| `Catalog.GetPublicProductBySku` | src/main/java/com/akul/microservices/product/service/ProductService.java:177-187 | succeeds exactly when the SKU is stored and enabled, else NotFound; the image URL is always resolved from the (possibly null) object name |
| `Catalog.GetPublicProducts` | src/main/java/com/akul/microservices/product/service/ProductService.java:166-175 | the public listing holds the view of every enabled product and only of enabled products |
| `CatalogLemmas.DeleteRemovesExactlyListed` | src/main/java/com/akul/microservices/product/service/ProductService.java:156-163 | in a well-formed store, batch delete (by id, of the products found by SKU) leaves exactly the old entries whose SKU is not listed, unchanged; unknown SKUs are ignored |
| `CatalogLemmas.DeleteOfUnknownIsNoOp` | src/main/java/com/akul/microservices/product/service/ProductService.java:157-160 | when no listed SKU is stored, batch delete changes nothing |
| `CatalogLemmas.SetEnabledIdempotent` | src/main/java/com/akul/microservices/product/service/ProductService.java:124-142 | disabling or enabling twice is the same as doing it once |
| `CatalogLemmas.DisableThenEnableRestores` | src/main/java/com/akul/microservices/product/service/ProductService.java:124-142 | disabling and then enabling an enabled product gives back the original store |
| `CatalogLemmas.DisabledHiddenFromPublic` | src/main/java/com/akul/microservices/product/service/ProductService.java:177-180 | after disabling, the public lookup fails with NotFound and no public listing entry carries the product's id, while the admin lookup still finds it, disabled |
| `CatalogLemmas.OtherProductsHaveOtherIds` | src/main/java/com/akul/microservices/product/model/Product.java:28-32 | in a well-formed store, two different SKUs hold products with different ids |
| `CatalogLemmas.EnabledIsPublic` | src/main/java/com/akul/microservices/product/service/ProductService.java:134-142 | after enabling, the product is found by the public lookup and appears in the public listing |
| `CatalogLemmas.UpdateWithoutFileKeepsImage` | src/main/java/com/akul/microservices/product/service/ProductService.java:77-89 | a field update of a stored product without a file succeeds and changes exactly name, description and price, so the image is kept |
| `CatalogLemmas.ReplaceImageChangesOnlyImage` | src/main/java/com/akul/microservices/product/service/ProductService.java:116-119 | a successful image replacement stores the upload's object name and leaves every other field of the product as it was |
| `CatalogLemmas.ApplyKeepsWellFormed` | src/main/java/com/akul/microservices/product/model/Product.java:28-32 | every state-changing request keeps SKUs unique and ids distinct and generated, and never moves the id generator back |
| `CatalogLemmas.ApplyKeepsIdentity` | src/main/java/com/akul/microservices/product/model/Product.java:28-32 | a product that stays stored across a request keeps its id and its SKU |
| `CatalogLemmas.RunKeepsWellFormed` | src/main/java/com/akul/microservices/product/model/Product.java:28-32 | the store invariant holds after any history of requests |
| `CatalogLemmas.IdsNeverReassigned` | src/main/java/com/akul/microservices/product/model/Product.java:28-29 | after any history, a product carrying an id that had already been handed out is a product that was stored before, under the same SKU and id |
| `CatalogLemmas.RecreatedGetsNewId` | src/main/java/com/akul/microservices/product/service/ProductService.java:156-163 | a product deleted by a batch delete and created again under its SKU, after any further history, carries an id different from the one it had |
| `CatalogLemmas.CreateThenDisableScenario` | src/main/java/com/akul/microservices/product/service/ProductService.java:177-200 | create SKU-1 on an empty store (enabled, and in the public listing), disable it: the public lookup fails with NotFound, the admin lookup succeeds and shows it disabled |
| `Service.ProductService.constructor` | src/main/java/com/akul/microservices/product/service/ProductService.java:29-34 | a service over any well-formed existing collection starts with exactly that collection and satisfies the store invariant |
| `Service.ProductService.Insert` | src/main/java/com/akul/microservices/product/service/ProductService.java:59 | saving a new product stores it under its SKU with the next generated id |
| `Service.ProductService.Save` | src/main/java/com/akul/microservices/product/service/ProductService.java:119 | saving a product read from the store overwrites its entry and nothing else |
| `Service.ProductService.CreateAdminProduct` | src/main/java/com/akul/microservices/product/service/ProductService.java:40-66 | keeps the store invariant and produces exactly the store and answer of `Catalog.Create` |
| `Service.ProductService.CreateAdminProductWithoutImage` | src/main/java/com/akul/microservices/product/service/ProductService.java:36-38 | behaves as create with no file, whatever the file service would have answered |
| `Service.ProductService.UpdateAdminProduct` | src/main/java/com/akul/microservices/product/service/ProductService.java:69-97 | keeps the store invariant and produces exactly the store and answer of `Catalog.Update` |
| `Service.ProductService.UpdateProductImage` | src/main/java/com/akul/microservices/product/service/ProductService.java:106-122 | keeps the store invariant and produces exactly the store and answer of `Catalog.ReplaceImage` |
| `Service.ProductService.DisableProduct` | src/main/java/com/akul/microservices/product/service/ProductService.java:124-132 | keeps the store invariant and produces exactly the store and answer of `Catalog.SetEnabled` with false |
| `Service.ProductService.EnableProduct` | src/main/java/com/akul/microservices/product/service/ProductService.java:134-142 | keeps the store invariant and produces exactly the store and answer of `Catalog.SetEnabled` with true |
| `Service.ProductService.DeleteProducts` | src/main/java/com/akul/microservices/product/service/ProductService.java:156-163 | keeps the store invariant, produces the store of `Catalog.Delete`, and leaves exactly the old SKUs that were not listed |

## Left out

- Pagination and sorting of the two listings (`Page`, `Pageable`, `Sort`) are library types. The listings are modelled as sets, without order or page arithmetic.
- The file service and its resilient client (circuit breaker, retry, bulkhead, placeholder fallback) are library behaviour, network I/O and concurrency. An upload is an input outcome, and preview resolution is a total function.
- The contents of an upload's `FileDto` other than the object name and the presigned URL (content type, size) are never stored, so they are not modelled.
- Concurrency, including the race between the existence check and the save on create. Each operation is atomic in the model.
- A save that fails after a successful upload, which would leave an orphaned image in the file service. The model's store never fails.
- `createdAt` is not modelled. `Product.java` does not declare it and no service code sets it. `AdminProductResponse` declares it and its one-argument `from` reads it (AdminProductResponse.java:21,31). The service calls a two-argument `from` instead, so the model's admin view has no `createdAt`. The admin listing's default sort on it (AdminProductController.java:50) is left out with sorting.
- Bean validation of requests (`@NotBlank`, `@Positive`) is applied by the web layer, not by the service. Nullability of name, description and price is not modelled either; the service only copies these values.
- Prices are `BigDecimal` in the entity and `Double` in the public response. Since prices are only copied, they are modelled as integers.
- Controllers, HTTP status mapping, the exception handler, the public controller (which calls service methods that do not exist), client wiring and configuration are HTTP and framework plumbing.
- Log statements are not modelled.
- `Catalog.Delete`: its own contract states only that delete removes entries and changes nothing else. That it removes exactly the listed SKUs relies on the store invariant, so `CatalogLemmas.DeleteRemovesExactlyListed` states it.
