/** The catalog tables of migration 0002, their per-product views and the document
    `catalog_document` projects out of them. */
module CatalogTables {
  import opened Wrappers
  import opened Uuids
  import opened Orders

  datatype ProductRow = ProductRow(slug: string, brand: Option<Uuid>, status: string, revision: int, createdAt: int)

  datatype Translation = Translation(name: string, description: string, seoTitle: string, seoDescription: string)

  datatype VariantRow = VariantRow(product: Uuid, sku: string, name: string, price: int, active: bool)

  datatype AuditRow = AuditRow(actor: Uuid, action: string, entity: Uuid, request: Uuid,
                               oldRevision: Option<int>, newRevision: int, status: string)

  /** Rows the catalog points at. No statement of the system deletes any of them. */
  datatype References = References(users: set<Uuid>, brands: set<Uuid>, categories: set<Uuid>,
                                   attributes: set<string>, media: set<Uuid>)

  /** Primary keys are the map keys: (product, category), (product, locale), (variant, code), (product, media). */
  datatype Tables = Tables(products: map<Uuid, ProductRow>,
                           productCategories: set<(Uuid, Uuid)>,
                           translations: map<(Uuid, string), Translation>,
                           variants: map<Uuid, VariantRow>,
                           attributeValues: map<(Uuid, string), string>,
                           images: map<(Uuid, Uuid), int>,
                           audit: seq<AuditRow>,
                           refs: References)

  const MAX_REVISION: int := 0x7FFF_FFFF
  const MAX_PRICE: int := 100000000
  const LOCALES: set<string> := {"ru", "ro"}
  const STATUSES: set<string> := {"draft", "active", "archived"}

  // Views of one product or one variant: what the rows of one table say about it.

  function CategoriesIn(links: set<(Uuid, Uuid)>, pid: Uuid): set<Uuid>
  {
    set r | r in links && r.0 == pid :: r.1
  }

  function LocalesIn(rows: map<(Uuid, string), Translation>, pid: Uuid): set<string>
  {
    set k | k in rows && k.0 == pid :: k.1
  }

  function TranslationsIn(rows: map<(Uuid, string), Translation>, pid: Uuid): map<string, Translation>
  {
    map l | l in LocalesIn(rows, pid) :: rows[(pid, l)]
  }

  function VariantsIn(rows: map<Uuid, VariantRow>, pid: Uuid): map<Uuid, VariantRow>
  {
    map v | v in rows && rows[v].product == pid :: rows[v]
  }

  function SkusIn(rows: map<Uuid, VariantRow>, pid: Uuid): map<Uuid, string>
  {
    map v | v in rows && rows[v].product == pid :: rows[v].sku
  }

  function CodesIn(rows: map<(Uuid, string), string>, vid: Uuid): set<string>
  {
    set k | k in rows && k.0 == vid :: k.1
  }

  function AttributesIn(rows: map<(Uuid, string), string>, vid: Uuid): map<string, string>
  {
    map c | c in CodesIn(rows, vid) :: rows[(vid, c)]
  }

  function MediaIn(rows: map<(Uuid, Uuid), int>, pid: Uuid): set<Uuid>
  {
    set k | k in rows && k.0 == pid :: k.1
  }

  function PositionsIn(rows: map<(Uuid, Uuid), int>, pid: Uuid): map<Uuid, int>
  {
    map m | m in MediaIn(rows, pid) :: rows[(pid, m)]
  }

  function CategoriesOf(t: Tables, pid: Uuid): set<Uuid> { CategoriesIn(t.productCategories, pid) }

  function TranslationsOf(t: Tables, pid: Uuid): map<string, Translation> { TranslationsIn(t.translations, pid) }

  function VariantsOf(t: Tables, pid: Uuid): map<Uuid, VariantRow> { VariantsIn(t.variants, pid) }

  function SkusOf(t: Tables, pid: Uuid): map<Uuid, string> { SkusIn(t.variants, pid) }

  function AttributesOf(t: Tables, vid: Uuid): map<string, string> { AttributesIn(t.attributeValues, vid) }

  function PositionsOf(t: Tables, pid: Uuid): map<Uuid, int> { PositionsIn(t.images, pid) }

  // The document.

  datatype VariantDoc = VariantDoc(id: Uuid, sku: string, name: string, priceMinor: int, currency: string,
                                   active: bool, attributes: map<string, string>)

  datatype ImageDoc = ImageDoc(id: Uuid, url: string, srcSet: seq<(string, nat)>)

  datatype Document = Document(id: Uuid, slug: string, status: string, revision: int, brandId: Option<Uuid>,
                               categoryIds: seq<Uuid>, translations: map<string, Translation>,
                               variants: seq<VariantDoc>, images: seq<ImageDoc>)

  /** The two orders the projection sorts by: text collation and uuid order. Any total orders. */
  datatype Collation = Collation(text: (string, string) -> bool, uuid: (Uuid, Uuid) -> bool)
  {
    ghost predicate Valid() { TotalOrder(text) && TotalOrder(uuid) }
  }

  function ImagePath(id: Uuid, width: nat): string
  {
    "/api/v1/media/" + id + (if width == 320 then "/320.webp" else if width == 640 then "/640.webp" else "/1280.webp")
  }

  function ImageDocOf(id: Uuid): ImageDoc
  {
    ImageDoc(id, ImagePath(id, 640), [(ImagePath(id, 320), 320), (ImagePath(id, 640), 640),
      (ImagePath(id, 1280), 1280)])
  }

  function VariantDocOf(t: Tables, v: Uuid): VariantDoc
    requires v in t.variants
  {
    var row := t.variants[v];
    VariantDoc(v, row.sku, row.name, row.price, "MDL", row.active, AttributesOf(t, v))
  }

  function Identity(s: set<Uuid>): map<Uuid, Uuid>
  {
    map c | c in s :: c
  }

  /** `sku` is unique and positions are unique within a product, so both orderings are strict. */
  ghost predicate Projectable(t: Tables, pid: Uuid)
  {
    pid in t.products && Injective(SkusOf(t, pid)) && Injective(PositionsOf(t, pid))
  }

  function VariantDocs(t: Tables, vs: seq<Uuid>): (r: seq<VariantDoc>)
    requires forall i :: 0 <= i < |vs| ==> vs[i] in t.variants
    ensures |r| == |vs| && forall i :: 0 <= i < |vs| ==> r[i] == VariantDocOf(t, vs[i])
  {
    seq(|vs|, i requires 0 <= i < |vs| => VariantDocOf(t, vs[i]))
  }

  function ImageDocs(ms: seq<Uuid>): (r: seq<ImageDoc>)
    ensures |r| == |ms| && forall i :: 0 <= i < |ms| ==> r[i] == ImageDocOf(ms[i])
  {
    seq(|ms|, i requires 0 <= i < |ms| => ImageDocOf(ms[i]))
  }

  lemma SkusAreOfProduct(t: Tables, pid: Uuid, r: seq<Uuid>)
    requires forall v :: v in r ==> v in SkusOf(t, pid)
    ensures forall i :: 0 <= i < |r| ==> r[i] in t.variants && t.variants[r[i]].product == pid
  {
    assert forall i :: 0 <= i < |r| ==> r[i] in r;
  }

  function VariantOrder(t: Tables, coll: Collation, pid: Uuid): (r: seq<Uuid>)
    requires coll.Valid() && Projectable(t, pid)
    ensures Distinct(r) && |r| == |SkusOf(t, pid)| && forall v :: v in r <==> v in SkusOf(t, pid)
    ensures forall i :: 0 <= i < |r| ==> r[i] in t.variants && t.variants[r[i]].product == pid
  {
    var r := Enumerate(SkusOf(t, pid), coll.text);
    SkusAreOfProduct(t, pid, r);
    r
  }

  function ImageOrder(t: Tables, pid: Uuid): (r: seq<Uuid>)
    requires Projectable(t, pid)
    ensures Distinct(r) && |r| == |PositionsOf(t, pid)| && forall m :: m in r <==> m in PositionsOf(t, pid)
  {
    Enumerate(PositionsOf(t, pid), IntLeq)
  }

  function CategoryOrder(t: Tables, coll: Collation, pid: Uuid): (r: seq<Uuid>)
    requires coll.Valid()
    ensures Distinct(r) && |r| == |CategoriesOf(t, pid)| && forall c :: c in r <==> c in CategoriesOf(t, pid)
  {
    var m := Identity(CategoriesOf(t, pid));
    assert m.Keys == CategoriesOf(t, pid);
    Enumerate(m, coll.uuid)
  }

  /** `catalog_document`. */
  function DocumentOf(t: Tables, coll: Collation, pid: Uuid): Document
    requires coll.Valid() && Projectable(t, pid)
  {
    var p := t.products[pid];
    Document(pid, p.slug, p.status, p.revision, p.brand,
             CategoryOrder(t, coll, pid),
             TranslationsOf(t, pid),
             VariantDocs(t, VariantOrder(t, coll, pid)),
             ImageDocs(ImageOrder(t, pid)))
  }

  // CHECK constraints.

  predicate Alnum(c: char) { 'a' <= c <= 'z' || '0' <= c <= '9' }

  /** Lower-case words joined by single hyphens, the pattern both the API and the table use. */
  predicate SlugPattern(s: string)
  {
    && s != "" && Alnum(s[0]) && Alnum(s[|s| - 1])
    && (forall i :: 0 <= i < |s| ==> Alnum(s[i]) || s[i] == '-')
    && (forall i :: 0 < i < |s| ==> s[i - 1] != '-' || s[i] != '-')
  }

  predicate ProductChecks(p: ProductRow)
  {
    SlugPattern(p.slug) && p.status in STATUSES && 0 < p.revision
  }

  predicate TranslationChecks(locale: string, x: Translation)
  {
    locale in LOCALES && 1 <= |x.name| <= 200 && |x.description| <= 20000 && |x.seoTitle| <= 200
      && |x.seoDescription| <= 500
  }

  predicate VariantChecks(v: VariantRow)
  {
    1 <= |v.sku| <= 64 && 1 <= |v.name| <= 160 && 0 <= v.price <= MAX_PRICE
  }
}
