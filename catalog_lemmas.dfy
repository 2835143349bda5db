/** Properties that relate several operations of the product service, and the store
    invariant over any history of requests. */
module CatalogLemmas {
  import opened Wrappers
  import opened Model
  import opened Catalog

  /** One request that changes the collection. */
  datatype Op =
    | CreateOp(request: ProductRequest, file: Option<ImageFile>, upload: UploadResult)
    | UpdateOp(sku: Sku, update: ProductUpdateRequest, file: Option<ImageFile>, upload: UploadResult, preview: PreviewFn)
    | ReplaceImageOp(sku: Sku, file: Option<ImageFile>, upload: UploadResult)
    | SetEnabledOp(sku: Sku, enabled: bool)
    | DeleteOp(skus: seq<Sku>)

  function Apply(st: Store, op: Op): (after: Store)
  {
    match op
    case CreateOp(request, file, upload) => Create(st, request, file, upload).store
    case UpdateOp(sku, update, file, upload, preview) => Update(st, sku, update, file, upload, preview).store
    case ReplaceImageOp(sku, file, upload) => ReplaceImage(st, sku, file, upload).store
    case SetEnabledOp(sku, enabled) => SetEnabled(st, sku, enabled).store
    case DeleteOp(skus) => Delete(st, skus)
  }

  /** The collection after a sequence of requests, each handled to completion in turn. */
  function Run(st: Store, ops: seq<Op>): (after: Store)
    decreases |ops|
  {
    if ops == [] then st else Run(Apply(st, ops[0]), ops[1..])
  }

  // ---------------------------------------------------------------------------------------
  // Deletion
  // ---------------------------------------------------------------------------------------

  /** Batch delete removes exactly the listed SKUs that are stored and keeps every other
      product as it was; unknown SKUs are ignored. This rests on the invariant: products are
      deleted by id, and only one stored product carries a given id. */
  lemma {:induction false} DeleteRemovesExactlyListed(st: Store, skus: seq<Sku>)
    requires WellFormed(st)
    ensures forall k :: k in Delete(st, skus).products <==> k in st.products && k !in skus
    ensures forall k :: k in Delete(st, skus).products ==> Delete(st, skus).products[k] == st.products[k]
  {
    var found := FindAllBySkuIn(st.products, skus);
    forall k | k in st.products && k in skus
      ensures st.products[k] in found
    {
      assert st.products[k] in st.products.Values;
    }
    if found != {} {
      var ids := IdsOf(found);
      forall k | k in st.products && st.products[k].id in ids
        ensures k in skus
      {
        var p :| p in found && p.id == st.products[k].id;
        var k' :| k' in st.products && st.products[k'] == p;
        assert k' == k;
      }
    }
  }

  /** When no listed SKU is stored, batch delete changes nothing. */
  lemma DeleteOfUnknownIsNoOp(st: Store, skus: seq<Sku>)
    requires WellFormed(st)
    requires forall s :: s in skus ==> s !in st.products
    ensures Delete(st, skus) == st
  {
    assert FindAllBySkuIn(st.products, skus) == {};
  }

  // ---------------------------------------------------------------------------------------
  // Enabling and disabling
  // ---------------------------------------------------------------------------------------

  /** Setting the flag twice is the same as setting it once. */
  lemma SetEnabledIdempotent(st: Store, sku: Sku, enabled: bool)
    ensures SetEnabled(SetEnabled(st, sku, enabled).store, sku, enabled) == SetEnabled(st, sku, enabled)
  {
  }

  /** Disabling and then enabling an enabled product gives back the collection it started from. */
  lemma DisableThenEnableRestores(st: Store, sku: Sku)
    requires sku in st.products && st.products[sku].enabled
    ensures SetEnabled(SetEnabled(st, sku, false).store, sku, true).store == st
  {
    var after := SetEnabled(SetEnabled(st, sku, false).store, sku, true).store;
    assert after.products[sku] == st.products[sku];
    assert after.products == st.products;
  }

  /** A disabled product disappears from the public surface, lookup and listing, but the
      admin lookup still returns it, marked disabled. */
  lemma {:induction false} DisabledHiddenFromPublic(st: Store, sku: Sku, preview: PreviewFn)
    requires WellFormed(st) && sku in st.products
    ensures var after := SetEnabled(st, sku, false).store.products;
            && GetPublicProductBySku(after, sku, preview) == Failure(NotFound(sku))
            && (forall v :: v in GetPublicProducts(after, preview) ==> v.id != st.products[sku].id)
            && GetAdminProduct(after, sku, preview).Success?
            && !GetAdminProduct(after, sku, preview).value.enabled
  {
    var after := st.products[sku := st.products[sku].(enabled := false)];
    assert SetEnabled(st, sku, false).store.products == after;
    forall v | v in GetPublicProducts(after, preview)
      ensures v.id != st.products[sku].id
    {
      var k :| k in after && after[k].enabled && v.id == after[k].id;
      OtherProductsHaveOtherIds(st, sku, k);
    }
  }

  /** Helper for DisabledHiddenFromPublic: the id part of the store invariant, read the other
      way round (different SKUs hold different ids). */
  lemma OtherProductsHaveOtherIds(st: Store, sku: Sku, k: Sku)
    requires WellFormed(st) && sku in st.products && k in st.products && k != sku
    ensures st.products[k].id != st.products[sku].id
  {
  }

  /** Enabling a product puts it (back) into the public listing and public lookup. */
  lemma EnabledIsPublic(st: Store, sku: Sku, preview: PreviewFn)
    requires sku in st.products
    ensures var after := SetEnabled(st, sku, true).store.products;
            && GetPublicProductBySku(after, sku, preview).Success?
            && PublicView(after[sku], preview(after[sku].imageObjectName)) in GetPublicProducts(after, preview)
  {
  }

  // ---------------------------------------------------------------------------------------
  // Updates touch only what they name
  // ---------------------------------------------------------------------------------------

  /** A field update without a file keeps the image; only the image endpoint replaces it. */
  lemma UpdateWithoutFileKeepsImage(st: Store, sku: Sku, request: ProductUpdateRequest,
                                    upload: UploadResult, preview: PreviewFn)
    requires sku in st.products
    ensures var r := Update(st, sku, request, None, upload, preview);
            && r.result.Success?
            && r.store.products[sku] == st.products[sku].(name := request.name,
                                                          description := request.description,
                                                          price := request.price)
  {
  }

  /** A successful image replacement changes nothing but the image object name. */
  lemma ReplaceImageChangesOnlyImage(st: Store, sku: Sku, file: Option<ImageFile>, dto: FileDto)
    requires sku in st.products && HasImage(file)
    ensures var r := ReplaceImage(st, sku, file, Uploaded(dto));
            && r.result.Success?
            && r.store.products[sku].imageObjectName == Some(dto.objectName)
            && r.store.products[sku].(imageObjectName := st.products[sku].imageObjectName) == st.products[sku]
  {
  }

  // ---------------------------------------------------------------------------------------
  // The store invariant over any history
  // ---------------------------------------------------------------------------------------

  /** Every request keeps the store invariant and never moves the id generator back. */
  lemma {:induction false} ApplyKeepsWellFormed(st: Store, op: Op)
    requires WellFormed(st)
    ensures WellFormed(Apply(st, op))
    ensures Apply(st, op).nextId >= st.nextId
  {
    match op
    case DeleteOp(skus) =>
      DeleteRemovesExactlyListed(st, skus);
    case _ =>
  }

  /** A stored product keeps its SKU and its id across any request that leaves it stored. */
  lemma ApplyKeepsIdentity(st: Store, op: Op, k: Sku)
    requires k in st.products && k in Apply(st, op).products
    ensures Apply(st, op).products[k].id == st.products[k].id
    ensures Apply(st, op).products[k].sku == st.products[k].sku
  {
  }

  /** The store invariant holds after any history of requests: SKUs stay unique and ids are
      never shared. */
  lemma {:induction false} RunKeepsWellFormed(st: Store, ops: seq<Op>)
    requires WellFormed(st)
    ensures WellFormed(Run(st, ops))
    ensures Run(st, ops).nextId >= st.nextId
    decreases |ops|
  {
    if ops != [] {
      ApplyKeepsWellFormed(st, ops[0]);
      RunKeepsWellFormed(Apply(st, ops[0]), ops[1..]);
    }
  }

  /** Ids are never reassigned: a product found after any history with an id the store had
      already handed out is a product that was stored before, under the same SKU and id. */
  lemma {:induction false} IdsNeverReassigned(st: Store, ops: seq<Op>, k: Sku)
    requires WellFormed(st)
    requires k in Run(st, ops).products && Run(st, ops).products[k].id < st.nextId
    ensures k in st.products && st.products[k].id == Run(st, ops).products[k].id
    decreases |ops|
  {
    if ops != [] {
      var mid := Apply(st, ops[0]);
      ApplyKeepsWellFormed(st, ops[0]);
      IdsNeverReassigned(mid, ops[1..], k);
      if k in st.products {
        ApplyKeepsIdentity(st, ops[0], k);
      }
    }
  }

  /** A product deleted and then created again under its SKU, after any further history,
      carries a new id. */
  lemma {:induction false} RecreatedGetsNewId(st: Store, skus: seq<Sku>, ops: seq<Op>, k: Sku)
    requires WellFormed(st) && k in st.products && k in skus
    requires k in Run(Delete(st, skus), ops).products
    ensures Run(Delete(st, skus), ops).products[k].id != st.products[k].id
  {
    var mid := Delete(st, skus);
    DeleteRemovesExactlyListed(st, skus);
    ApplyKeepsWellFormed(st, DeleteOp(skus));
    assert Apply(st, DeleteOp(skus)) == mid;
    if Run(mid, ops).products[k].id == st.products[k].id {
      IdsNeverReassigned(mid, ops, k);
    }
  }

  // ---------------------------------------------------------------------------------------
  // A complete history
  // ---------------------------------------------------------------------------------------

  /** Create a product on an empty store: it is in the public listing. Then disable it: the
      public lookup no longer finds it, while the admin lookup still does and shows it disabled. */
  lemma CreateThenDisableScenario(preview: PreviewFn)
    ensures var created := Create(Store(map[], 0), ProductRequest("SKU-1", "X", "", 10), None, UploadFailed);
            var disabled := SetEnabled(created.store, "SKU-1", false);
            && created.result.Success? && created.result.value.enabled
            && PublicView(created.store.products["SKU-1"], preview(None)) in GetPublicProducts(created.store.products, preview)
            && disabled.result.Success?
            && GetPublicProductBySku(disabled.store.products, "SKU-1", preview) == Failure(NotFound("SKU-1"))
            && GetAdminProduct(disabled.store.products, "SKU-1", preview).Success?
            && !GetAdminProduct(disabled.store.products, "SKU-1", preview).value.enabled
  {
  }
}
