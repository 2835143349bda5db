/** The entity, the request and response records, the file-service records and the
    error taxonomy of the product service. None of these has behaviour of its own. */
module Model {
  import opened Wrappers

  /** The business key of a product. */
  type Sku = string

  /** The name under which the file service stores an uploaded image. */
  type ObjectName = string

  type Url = string

  /** A BigDecimal in the source. The service only copies prices, so any value type will do. */
  type Price = int

  /** A stored product document. `id` is assigned by the store when the product is first
      saved; `imageObjectName` is None until an image has been uploaded. */
  datatype Product = Product(
    id: nat,
    sku: Sku,
    name: string,
    description: string,
    price: Price,
    enabled: bool,
    imageObjectName: Option<ObjectName>)

  /** The body of a create request. */
  datatype ProductRequest = ProductRequest(sku: Sku, name: string, description: string, price: Price)

  /** The body of a field-update request: the SKU comes from the path and is never changed. */
  datatype ProductUpdateRequest = ProductUpdateRequest(name: string, description: string, price: Price)

  /** The bytes of a multipart image part; a null part is `None` where it is passed. */
  datatype ImageFile = ImageFile(bytes: seq<bv8>)

  /** True when a file was given and it is not empty: the test `file != null && !file.isEmpty()`. */
  predicate HasImage(file: Option<ImageFile>)
  {
    file.Some? && |file.value.bytes| > 0
  }

  /** What the file service answers to an upload. */
  datatype FileDto = FileDto(objectName: ObjectName, presignedUrl: Url)

  /** The outcome of the upload call, decided by the file service: it is an input of the model. */
  datatype UploadResult = Uploaded(dto: FileDto) | UploadFailed

  /** The preview-URL call of the file-service client. It never fails: a missing object or an
      unreachable service yields a placeholder path, so it is modelled as a total function. */
  type PreviewFn = Option<ObjectName> -> Url

  datatype Error =
    | AlreadyExists(sku: Sku)   // ProductAlreadyExistsException
    | NotFound(sku: Sku)        // ProductNotFoundException
    | InvalidInput              // IllegalArgumentException: empty image file
    | UploadError               // the upload call to the file service threw

  /** The admin view of a product; `previewUrl` is None where the source passes null. */
  datatype AdminProductResponse = AdminProductResponse(
    id: nat,
    sku: Sku,
    name: string,
    description: string,
    price: Price,
    enabled: bool,
    previewUrl: Option<Url>)

  /** The public view of a product. */
  datatype ProductResponse = ProductResponse(
    id: nat,
    name: string,
    description: string,
    price: Price,
    imageUrl: Url)

  /** `AdminProductResponse.from(product, previewUrl)`. */
  function AdminView(p: Product, previewUrl: Option<Url>): (v: AdminProductResponse)
  {
    AdminProductResponse(p.id, p.sku, p.name, p.description, p.price, p.enabled, previewUrl)
  }

  /** `ProductResponse.from(product, imageUrl)`. */
  function PublicView(p: Product, imageUrl: Url): (v: ProductResponse)
  {
    ProductResponse(p.id, p.name, p.description, p.price, imageUrl)
  }

  /** The admin view shows every stored field of the product. */
  predicate Describes(v: AdminProductResponse, p: Product)
  {
    && v.id == p.id && v.sku == p.sku && v.name == p.name
    && v.description == p.description && v.price == p.price && v.enabled == p.enabled
  }
}
