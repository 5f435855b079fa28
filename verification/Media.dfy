/** Image uploads: three sizes into storage, then one row; whatever fails, no document points at nothing. */
module Media {
  import opened Wrappers
  import opened Uuids
  import opened CatalogTables
  import opened CatalogSaveSpec
  import opened CatalogRuns
  import opened CatalogQuery
  import opened CatalogPublic
  import opened CatalogDocument

  type Bytes = seq<int>

  const SIZES: seq<nat> := [320, 640, 1280]

  const MAX_UPLOAD: nat := 8 * 1024 * 1024
  const MAX_PIXELS: int := 40000000

  function ObjectKey(id: Uuid, width: nat): string
  {
    "products/" + id + (if width == 320 then "/320.webp" else if width == 640 then "/640.webp" else "/1280.webp")
  }

  /** Which step of an upload goes wrong, if one does. Steps 0, 2, 4 encode a size, 1, 3, 5 store it, 6 inserts
      the row. */
  datatype Upload = Upload(bytes: Bytes, decoded: Option<(int, int)>, id: Uuid, encoded: seq<Bytes>, fails: set<nat>)

  predicate Raster(b: Bytes)
  {
    || (|b| > 3 && b[..3] == [0xff, 0xd8, 0xff])
    || (|b| > 8 && b[..8] == [0x89, 0x50, 0x4e, 0x47, 0x0d, 0x0a, 0x1a, 0x0a])
    || (|b| > 12 && b[..4] == [0x52, 0x49, 0x46, 0x46] && b[8..12] == [0x57, 0x45, 0x42, 0x50])
  }

  predicate Decodable(u: Upload)
  {
    && 1 <= |u.bytes| <= MAX_UPLOAD && Raster(u.bytes) && u.decoded.Some?
    && u.decoded.value.0 >= 1 && u.decoded.value.1 >= 1 && u.decoded.value.0 * u.decoded.value.1 <= MAX_PIXELS
  }

  /** How many sizes are stored before the first failure. */
  function StoredSizes(u: Upload, from: nat): (n: nat)
    requires from <= 3
    ensures from <= n <= 3
    ensures n == 3 <==> forall k :: 2 * from <= k < 6 ==> k !in u.fails
    decreases 3 - from
  {
    if from == 3 || 2 * from in u.fails || 2 * from + 1 in u.fails then from else StoredSizes(u, from + 1)
  }

  function WithObjects(objects: map<string, Bytes>, u: Upload, n: nat): map<string, Bytes>
    requires n <= 3 && |u.encoded| == 3
  {
    if n == 0 then objects else WithObjects(objects, u, n - 1)[ObjectKey(u.id, SIZES[n - 1]) := u.encoded[n - 1]]
  }

  /** What an upload must be: some bytes but no more than eight megabytes, beginning like a JPEG, PNG or WebP file
      and going on, and decoded to at most forty million pixels. */
  predicate Accepted(u: Upload)
  {
    && u.bytes != [] && |u.bytes| <= 8388608
    && (BeginsLike(u.bytes, [255, 216, 255], 0)
        || BeginsLike(u.bytes, [137, 80, 78, 71, 13, 10, 26, 10], 0)
        || (BeginsLike(u.bytes, [82, 73, 70, 70], 0) && BeginsLike(u.bytes, [87, 69, 66, 80], 8)))
    && u.decoded.Some?
    && var (width, height) := u.decoded.value;
       width > 0 && height > 0 && width * height <= 40000000
  }

  /** The bytes are there from `at` on, and more after them. */
  predicate BeginsLike(b: Bytes, signature: Bytes, at: nat)
  {
    |b| > at + |signature| && forall i :: 0 <= i < |signature| ==> b[at + i] == signature[i]
  }

  lemma AcceptedIsDecodable(u: Upload)
    ensures Accepted(u) <==> Decodable(u)
  {
    RasterIsSigned(u.bytes);
    hide Raster, BeginsLike;
  }

  lemma RasterIsSigned(b: Bytes)
    ensures Raster(b) <==>
      || BeginsLike(b, [255, 216, 255], 0)
      || BeginsLike(b, [137, 80, 78, 71, 13, 10, 26, 10], 0)
      || (BeginsLike(b, [82, 73, 70, 70], 0) && BeginsLike(b, [87, 69, 66, 80], 8))
  {
    SignatureAt(b, [255, 216, 255], 0);
    SignatureAt(b, [137, 80, 78, 71, 13, 10, 26, 10], 0);
    SignatureAt(b, [82, 73, 70, 70], 0);
    SignatureAt(b, [87, 69, 66, 80], 8);
    hide BeginsLike;
  }

  lemma SignatureAt(b: Bytes, signature: Bytes, at: nat)
    ensures BeginsLike(b, signature, at) <==> |b| > at + |signature| && b[at..at + |signature|] == signature
  {
    if |b| > at + |signature| {
      var part := b[at..at + |signature|];
      assert forall i :: 0 <= i < |signature| ==> part[i] == b[at + i];
    }
  }

  /** Where the three sizes are kept. */
  function SmallKey(id: Uuid): string { "products/" + id + "/320.webp" }

  function MediumKey(id: Uuid): string { "products/" + id + "/640.webp" }

  function LargeKey(id: Uuid): string { "products/" + id + "/1280.webp" }

  /** The three sizes are under their own keys, and nothing else has changed. */
  ghost predicate AllSizesStored(before: map<string, Bytes>, after: map<string, Bytes>, u: Upload)
    requires |u.encoded| == 3
  {
    after == before[SmallKey(u.id) := u.encoded[0]][MediumKey(u.id) := u.encoded[1]][LargeKey(u.id) := u.encoded[2]]
  }

  lemma AllStored(objects: map<string, Bytes>, u: Upload)
    requires |u.encoded| == 3
    ensures AllSizesStored(objects, WithObjects(objects, u, 3), u)
  {
    KeysOfSizes(u.id);
    hide ObjectKey, SmallKey, MediumKey, LargeKey;
    assert WithObjects(objects, u, 1) == objects[ObjectKey(u.id, 320) := u.encoded[0]];
    assert WithObjects(objects, u, 2) == WithObjects(objects, u, 1)[ObjectKey(u.id, 640) := u.encoded[1]];
  }

  lemma KeysOfSizes(id: Uuid)
    ensures SmallKey(id) == ObjectKey(id, 320) && MediumKey(id) == ObjectKey(id, 640)
      && LargeKey(id) == ObjectKey(id, 1280)
  {
  }

  /** No two sizes and no two images share a key. */
  lemma KeysApart(a: Uuid, b: Uuid, v: nat, w: nat)
    requires |a| == 36 && |b| == 36 && v in SIZES && w in SIZES && ObjectKey(a, v) == ObjectKey(b, w)
    ensures a == b && v == w
  {
    var x, y := ObjectKey(a, v), ObjectKey(b, w);
    assert x[9..45] == a && y[9..45] == b;
    assert x[46] == y[46];
  }

  datatype UploadResult = Created(id: Uuid, url: string, srcSet: seq<(string, nat)>) | Failed

  class Service {
    var objects: map<string, Bytes>
    var media: set<Uuid>

    constructor ()
      ensures objects == map[] && media == {}
    {
      objects, media := map[], {};
    }

    /** `upload`. A failure leaves the objects stored so far and no row. */
    method Store(u: Upload) returns (r: UploadResult)
      requires |u.encoded| == 3
      modifies this
      ensures r.Created? <==> Accepted(u) && forall k :: 0 <= k < 7 ==> k !in u.fails
      ensures objects == WithObjects(old(objects), u, if Accepted(u) then StoredSizes(u, 0) else 0)
      ensures r.Created? ==> AllSizesStored(old(objects), objects, u)
      ensures media == old(media) + if r.Created? then {u.id} else {}
      ensures r.Created? ==>
        && r.id == u.id && r.url == "/api/v1/media/" + u.id + "/640.webp"
        && r.srcSet == [("/api/v1/media/" + u.id + "/320.webp", 320), ("/api/v1/media/" + u.id + "/640.webp", 640),
                        ("/api/v1/media/" + u.id + "/1280.webp", 1280)]
    {
      AcceptedIsDecodable(u);
      hide Accepted;
      if |u.bytes| == 0 || |u.bytes| > MAX_UPLOAD { return Failed; }
      if !Raster(u.bytes) { return Failed; }
      if u.decoded.None? { return Failed; }
      var width, height := u.decoded.value.0, u.decoded.value.1;
      if width < 1 || height < 1 || width * height > MAX_PIXELS { return Failed; }
      var i := 0;
      while i < 3
        invariant 0 <= i <= 3 && media == old(media)
        invariant objects == WithObjects(old(objects), u, i)
        invariant StoredSizes(u, 0) == StoredSizes(u, i)
        invariant forall k :: 0 <= k < 2 * i ==> k !in u.fails
      {
        if 2 * i in u.fails { return Failed; }
        if 2 * i + 1 in u.fails { return Failed; }
        objects := objects[ObjectKey(u.id, SIZES[i]) := u.encoded[i]];
        i := i + 1;
      }
      if 6 in u.fails { return Failed; }
      AllStored(old(objects), u);
      media := media + {u.id};
      AddressesOfImage(u.id);
      var doc := ImageDocOf(u.id);
      r := Created(u.id, doc.url, doc.srcSet);
    }
  }

  // Uploads interleaved with catalog saves.

  /** An upload that has stored its first `done` sizes. */
  datatype Session = Session(id: Uuid, done: nat)

  datatype State = State(tables: Tables, objects: map<string, Bytes>, uploads: seq<Session>)

  datatype Action =
    | Begin(id: Uuid)
    | Put(u: nat, bytes: Bytes)
    | Record(u: nat)
    | GiveUp(u: nat)
    | Catalog(op: Op)

  /** A catalog step that adds no media: only `upload` does. */
  ghost predicate NoMedia(t: Tables, op: Op)
  {
    op.AddReferences? ==> op.refs.media == t.refs.media
  }

  function Recorded(r: References, id: Uuid): References { r.(media := r.media + {id}) }

  function Without(uploads: seq<Session>, u: nat): seq<Session>
    requires u < |uploads|
  {
    uploads[..u] + uploads[u + 1..]
  }

  ghost predicate Next(s: State, a: Action, r: State)
  {
    match a
    case Begin(id) => Canonical(id) && r == s.(uploads := s.uploads + [Session(id, 0)])
    case Put(u, bytes) =>
      u < |s.uploads| && s.uploads[u].done < 3
      && var x := s.uploads[u];
         r == s.(objects := s.objects[ObjectKey(x.id, SIZES[x.done]) := bytes],
           uploads := s.uploads[u := Session(x.id, x.done + 1)])
    case Record(u) =>
      u < |s.uploads| && s.uploads[u].done == 3
      && r == s.(tables := Step(s.tables, AddReferences(Recorded(s.tables.refs, s.uploads[u].id))),
                 uploads := Without(s.uploads, u))
    case GiveUp(u) => u < |s.uploads| && r == s.(uploads := Without(s.uploads, u))
    case Catalog(op) => Admissible(s.tables, op) && NoMedia(s.tables, op) && r == s.(tables := Step(s.tables, op))
  }

  ghost predicate FullyStored(objects: map<string, Bytes>, id: Uuid, n: nat)
  {
    forall k :: 0 <= k < n && k < 3 ==> ObjectKey(id, SIZES[k]) in objects
  }

  ghost predicate SessionSound(objects: map<string, Bytes>, x: Session)
  {
    x.done <= 3 && Canonical(x.id) && FullyStored(objects, x.id, x.done)
  }

  ghost predicate MediaSound(s: State)
  {
    && (forall id :: id in s.tables.refs.media ==> FullyStored(s.objects, id, 3))
    && (forall u :: 0 <= u < |s.uploads| ==> SessionSound(s.objects, s.uploads[u]))
  }

  lemma PutKeepsStored(objects: map<string, Bytes>, key: string, bytes: Bytes, id: Uuid, n: nat)
    requires FullyStored(objects, id, n)
    ensures FullyStored(objects[key := bytes], id, n)
  {
  }

  lemma PutKeepsSound(s: State, u: nat, bytes: Bytes, r: State)
    requires MediaSound(s) && Next(s, Put(u, bytes), r)
    ensures MediaSound(r)
  {
    var x := s.uploads[u];
    var key := ObjectKey(x.id, SIZES[x.done]);
    forall id | id in r.tables.refs.media ensures FullyStored(r.objects, id, 3) {
      PutKeepsStored(s.objects, key, bytes, id, 3);
    }
    forall v | 0 <= v < |r.uploads| ensures SessionSound(r.objects, r.uploads[v]) {
      var y := s.uploads[v];
      assert SessionSound(s.objects, y);
      PutKeepsStored(s.objects, key, bytes, y.id, y.done);
    }
  }

  lemma RemovalKeepsSessions(s: State, u: nat)
    requires MediaSound(s) && u < |s.uploads|
    ensures forall v :: 0 <= v < |Without(s.uploads, u)| ==> SessionSound(s.objects, Without(s.uploads, u)[v])
  {
    var rest := Without(s.uploads, u);
    forall v | 0 <= v < |rest| ensures SessionSound(s.objects, rest[v]) {
      assert rest[v] == s.uploads[if v < u then v else v + 1];
    }
  }

  /** A save leaves the references alone. */
  lemma CatalogKeepsMedia(t: Tables, op: Op)
    requires Admissible(t, op) && NoMedia(t, op)
    ensures Step(t, op).refs.media == t.refs.media
  {
  }

  lemma StepKeepsSound(s: State, a: Action, r: State)
    requires MediaSound(s) && Next(s, a, r)
    ensures MediaSound(r)
  {
    match a {
      case Begin(id) =>
      case Put(u, bytes) => PutKeepsSound(s, u, bytes, r);
      case Record(u) =>
        assert SessionSound(s.objects, s.uploads[u]);
        RemovalKeepsSessions(s, u);
      case GiveUp(u) => RemovalKeepsSessions(s, u);
      case Catalog(op) => CatalogKeepsMedia(s.tables, op);
    }
  }

  lemma StepKeepsTables(s: State, a: Action, r: State)
    requires Inv(s.tables) && MediaSound(s) && Next(s, a, r)
    ensures Inv(r.tables)
  {
    match a {
      case Record(u) =>
        assert SessionSound(s.objects, s.uploads[u]);
        ReferencesKeepInv(s.tables, Recorded(s.tables.refs, s.uploads[u].id));
      case Catalog(op) => CatalogRuns.StepKeepsInv(s.tables, op);
      case _ =>
    }
  }

  ghost predicate Run(origin: References, states: seq<State>, actions: seq<Action>)
  {
    && |states| == |actions| + 1 && RefsCanonical(origin) && origin.media == {}
    && states[0] == State(Empty(origin), map[], [])
    && forall i :: 0 <= i < |actions| ==> Next(states[i], actions[i], states[i + 1])
  }

  lemma {:induction false} RunIsSound(origin: References, states: seq<State>, actions: seq<Action>, i: nat)
    requires Run(origin, states, actions) && i < |states|
    ensures Inv(states[i].tables) && MediaSound(states[i])
  {
    if i == 0 {
      EmptyIsFine(origin);
    } else {
      RunIsSound(origin, states, actions, i - 1);
      StepKeepsSound(states[i - 1], actions[i - 1], states[i]);
      StepKeepsTables(states[i - 1], actions[i - 1], states[i]);
    }
  }

  /** In every run, whatever fails: an image that has a row has its three sizes stored. */
  lemma RecordedMeansStored(origin: References, states: seq<State>, actions: seq<Action>, i: nat, id: Uuid)
    requires Run(origin, states, actions) && i < |states| && id in states[i].tables.refs.media
    ensures var objects := states[i].objects;
      SmallKey(id) in objects && MediumKey(id) in objects && LargeKey(id) in objects
  {
    RunIsSound(origin, states, actions, i);
    KeysOfSizes(id);
    var objects := states[i].objects;
    hide ObjectKey, SmallKey, MediumKey, LargeKey;
    assert FullyStored(objects, id, 3);
    assert ObjectKey(id, SIZES[0]) in objects && ObjectKey(id, SIZES[1]) in objects
      && ObjectKey(id, SIZES[2]) in objects;
  }

  ghost predicate CanStep(s: State, a: Action)
  {
    exists r :: Next(s, a, r)
  }

  /** An upload can begin at any time; it stores its next size, or is recorded once it has stored all three, and it
      can fail at any point. */
  lemma UploadsGoOn(s: State)
    ensures forall id :: Canonical(id) ==> CanStep(s, Begin(id))
    ensures forall u: nat, bytes :: u < |s.uploads| && s.uploads[u].done < 3 ==> CanStep(s, Put(u, bytes))
    ensures forall u: nat :: u < |s.uploads| && s.uploads[u].done == 3 ==> CanStep(s, Record(u))
    ensures forall u: nat :: u < |s.uploads| ==> CanStep(s, GiveUp(u))
  {
    hide Canonical, ObjectKey;
    forall id | Canonical(id) ensures CanStep(s, Begin(id)) {
      assert Next(s, Begin(id), s.(uploads := s.uploads + [Session(id, 0)]));
    }
    forall u: nat, bytes | u < |s.uploads| && s.uploads[u].done < 3 ensures CanStep(s, Put(u, bytes)) {
      var x := s.uploads[u];
      assert Next(s, Put(u, bytes), s.(objects := s.objects[ObjectKey(x.id, SIZES[x.done]) := bytes],
        uploads := s.uploads[u := Session(x.id, x.done + 1)]));
    }
    forall u: nat | u < |s.uploads| && s.uploads[u].done == 3 ensures CanStep(s, Record(u)) {
      var tables := Step(s.tables, AddReferences(Recorded(s.tables.refs, s.uploads[u].id)));
      assert Next(s, Record(u), s.(tables := tables, uploads := Without(s.uploads, u)));
    }
    forall u: nat | u < |s.uploads| ensures CanStep(s, GiveUp(u)) {
      assert Next(s, GiveUp(u), s.(uploads := Without(s.uploads, u)));
    }
  }

  /** The stored object an image address stands for. */
  ghost predicate NamesStored(objects: map<string, Bytes>, url: string, width: nat)
  {
    exists id :: url == ImagePath(id, width) && ObjectKey(id, width) in objects
  }

  ghost predicate ImageStored(objects: map<string, Bytes>, image: ImageDoc)
  {
    && NamesStored(objects, image.url, 640)
    && forall k :: 0 <= k < |image.srcSet| ==> NamesStored(objects, image.srcSet[k].0, image.srcSet[k].1)
  }

  lemma StoredImage(objects: map<string, Bytes>, id: Uuid)
    requires FullyStored(objects, id, 3)
    ensures ImageStored(objects, ImageDocOf(id))
  {
    var image := ImageDocOf(id);
    assert ObjectKey(id, SIZES[0]) in objects && ObjectKey(id, SIZES[1]) in objects
      && ObjectKey(id, SIZES[2]) in objects;
    assert NamesStored(objects, ImagePath(id, 640), 640) && NamesStored(objects, ImagePath(id, 320), 320)
      && NamesStored(objects, ImagePath(id, 1280), 1280);
  }

  lemma DocumentImage(t: Tables, coll: Collation, p: Uuid, k: nat) returns (id: Uuid)
    requires coll.Valid() && Projectable(t, p) && k < |DocumentOf(t, coll, p).images|
    ensures (p, id) in t.images && DocumentOf(t, coll, p).images[k] == ImageDocOf(id)
  {
    id := ImageOrder(t, p)[k];
    assert id in ImageOrder(t, p) && id in PositionsOf(t, p);
  }

  /** In every run, wherever uploads fail: each address in each image of each document names a stored object. */
  lemma DocumentsNameStoredObjects(origin: References, states: seq<State>, actions: seq<Action>, i: nat,
          coll: Collation, p: Uuid, k: nat)
    requires Run(origin, states, actions) && i < |states| && coll.Valid() && p in states[i].tables.products
    ensures Projectable(states[i].tables, p)
    ensures k < |DocumentOf(states[i].tables, coll, p).images| ==>
      ImageStored(states[i].objects, DocumentOf(states[i].tables, coll, p).images[k])
  {
    RunIsSound(origin, states, actions, i);
    var t := states[i].tables;
    SchemaIsProjectable(t, p);
    if k < |DocumentOf(t, coll, p).images| {
      var id := DocumentImage(t, coll, p, k);
      ImageIsKnown(t, p, id);
      StoredImage(states[i].objects, id);
    }
  }

  lemma ImageIsKnown(t: Tables, p: Uuid, id: Uuid)
    requires Schema(t) && (p, id) in t.images
    ensures id in t.refs.media
  {
  }

  /** `published`: some active product shows the image. */
  ghost predicate PublishedImage(t: Tables, id: Uuid)
  {
    exists p :: (p, id) in t.images && p in t.products && t.products[p].status == "active"
  }

  /** Every image of a document the public gets, from the list or by slug, counts as published. */
  lemma PublicImagesArePublished(t: Tables, coll: Collation, p: Uuid, key: string, f: Filter, m: Matcher, k: nat)
    requires coll.Valid() && Projectable(t, p) && k < |DocumentOf(t, coll, p).images|
    requires FoundPublicly(t, key, p) || Matches(t, f, false, m, p)
    ensures exists id :: DocumentOf(t, coll, p).images[k] == ImageDocOf(id) && PublishedImage(t, id)
  {
    var id := DocumentImage(t, coll, p, k);
    assert PublishedImage(t, id);
  }

  /** Another active product shows the image. */
  ghost predicate ShownElsewhere(t: Tables, p: Uuid, id: Uuid)
  {
    exists q :: q != p && (q, id) in t.images && q in ActiveProducts(t)
  }

  lemma ImageRowsAfter(before: map<(Uuid, Uuid), int>, p: Uuid, ids: seq<string>, q: Uuid, id: Uuid)
    ensures (q, id) in ImagesAfter(before, p, ids) <==> if q == p then id in CanonSet(ids) else (q, id) in before
  {
    hide Canon, CanonSet, PositionIn;
  }

  lemma ProductAfter(t: Tables, c: Call, q: Uuid)
    requires Wanted(c) && Verdict(t, c).None?
    ensures c.target.Some? ==> c.target.value in t.products
    ensures q in Replaced(t, c).products <==> q == Key(c) || q in t.products
    ensures q in Replaced(t, c).products ==>
      Replaced(t, c).products[q].status == if q == Key(c) then c.draft.status else t.products[q].status
    ensures Replaced(t, c).images == ImagesAfter(t.images, Key(c), c.draft.mediaIds)
  {
  }

  /** What an accepted save publishes and what it takes back: afterwards an image is public exactly when the
      draft is active and lists it, or another active product shows it. */
  lemma PublishedAfterSave(t: Tables, c: Call, id: Uuid)
    requires Wanted(c) && Verdict(t, c).None?
    ensures c.target.Some? ==> c.target.value in t.products
    ensures PublishedImage(Replaced(t, c), id) <==>
      || (c.draft.status == "active" && id in CanonSet(c.draft.mediaIds))
      || ShownElsewhere(t, Key(c), id)
  {
    hide Verdict, Replaced, CanonSet, ImagesAfter;
    ProductAfter(t, c, Key(c));
    var after := Replaced(t, c);
    forall q
      ensures (q, id) in after.images <==> if q == Key(c) then id in CanonSet(c.draft.mediaIds) else (q, id) in t.images
    {
      ImageRowsAfter(t.images, Key(c), c.draft.mediaIds, q, id);
    }
    forall q
      ensures q in after.products <==> q == Key(c) || q in t.products
      ensures q in after.products ==> after.products[q].status == if q == Key(c) then c.draft.status
        else t.products[q].status
    {
      ProductAfter(t, c, q);
    }
    if c.draft.status == "active" && id in CanonSet(c.draft.mediaIds) { assert (Key(c), id) in after.images; }
  }
}
