/**
 * lib/data-loader.ts: turns the photo catalog and the collection catalog
 * into the view objects the pages render. The two catalogs, which the
 * source reads from JSON files on every call, are parameters here.
 */
module DataLoader {
  import opened Wrappers
  import Paths

  /** Camera and exposure details; every field is optional. */
  datatype PhotoMetadata = PhotoMetadata(
    camera: Option<string>,
    lens: Option<string>,
    focalLength: Option<string>,
    aperture: Option<string>,
    shutterSpeed: Option<string>,
    iso: Option<string>,
    date: Option<string>,
    location: Option<string>)

  /** One record of the photo catalog. */
  datatype PhotoData = PhotoData(
    id: string,
    file: string,
    alt: string,
    display: seq<string>,
    span: Option<string>,
    metadata: Option<PhotoMetadata>)

  /** One record of the collection catalog. */
  datatype CollectionData = CollectionData(
    id: string,
    title: string,
    description: string,
    coverImage: string)

  /** A photo as rendered: `id` is its 1-based position in the sequence it was built into. */
  datatype Photo = Photo(
    id: int,
    src: string,
    alt: string,
    span: Option<string>,
    metadata: Option<PhotoMetadata>)

  datatype Collection = Collection(
    id: string,
    title: string,
    description: string,
    coverImage: string,
    photos: seq<Photo>)

  /** `a` can be obtained from `b` by deleting elements. */
  ghost predicate IsSubsequence<T>(a: seq<T>, b: seq<T>)
    decreases |b|
  {
    a == [] ||
    (b != [] && ((a[0] == b[0] && IsSubsequence(a[1..], b[1..])) || IsSubsequence(a, b[1..])))
  }

  /**
   * `getPhotosForDisplay(displayKey)`: the catalog records whose display
   * tags include `displayKey` exactly, in catalog order.
   */
  function PhotosForDisplay(allPhotos: seq<PhotoData>, displayKey: string): (r: seq<PhotoData>)
    ensures |r| <= |allPhotos|
    ensures IsSubsequence(r, allPhotos)
    ensures forall i :: 0 <= i < |r| ==> displayKey in r[i].display
    ensures forall i :: 0 <= i < |allPhotos| && displayKey in allPhotos[i].display ==> allPhotos[i] in r
  {
    if allPhotos == [] then []
    else if displayKey in allPhotos[0].display then [allPhotos[0]] + PhotosForDisplay(allPhotos[1..], displayKey)
    else PhotosForDisplay(allPhotos[1..], displayKey)
  }

  /** The selection distributes over concatenation of catalogs, which fixes both its contents and its order. */
  lemma {:induction false} PhotosForDisplayAppend(a: seq<PhotoData>, b: seq<PhotoData>, displayKey: string)
    ensures PhotosForDisplay(a + b, displayKey) == PhotosForDisplay(a, displayKey) + PhotosForDisplay(b, displayKey)
  {
    if a == [] {
      assert a + b == b;
    } else {
      assert (a + b)[0] == a[0];
      assert (a + b)[1..] == a[1..] + b;
      PhotosForDisplayAppend(a[1..], b, displayKey);
    }
  }

  /** No matching record gives the empty selection, and only then. */
  lemma PhotosForDisplayEmpty(allPhotos: seq<PhotoData>, displayKey: string)
    ensures PhotosForDisplay(allPhotos, displayKey) == []
        <==> forall i :: 0 <= i < |allPhotos| ==> displayKey !in allPhotos[i].display
  {
    var r := PhotosForDisplay(allPhotos, displayKey);
    if r != [] {
      assert displayKey in r[0].display;
      assert r[0] in allPhotos by { SubsequenceElements(r, allPhotos, 0); }
    }
  }

  /** Every element of a subsequence occurs in the sequence. */
  lemma {:induction false} SubsequenceElements<T>(a: seq<T>, b: seq<T>, k: nat)
    requires IsSubsequence(a, b) && k < |a|
    ensures a[k] in b
    decreases |b|
  {
    assert b != [];
    if a[0] == b[0] && IsSubsequence(a[1..], b[1..]) {
      if k > 0 {
        SubsequenceElements(a[1..], b[1..], k - 1);
      }
    } else {
      SubsequenceElements(a, b[1..], k);
    }
  }

  /** `getPhotosForCollection(collectionId)`: the records tagged `topics.<collectionId>`. */
  function PhotosForCollection(allPhotos: seq<PhotoData>, collectionId: string): (r: seq<PhotoData>)
    ensures IsSubsequence(r, allPhotos)
    ensures forall i :: 0 <= i < |r| ==> "topics." + collectionId in r[i].display
    ensures forall i :: 0 <= i < |allPhotos| && "topics." + collectionId in allPhotos[i].display ==> allPhotos[i] in r
  {
    PhotosForDisplay(allPhotos, "topics." + collectionId)
  }

  /**
   * `convertPhotoData(photoData, index)`: the view object for the record at
   * position `index`, its file resolved as `/<file>` under the base path.
   */
  function ConvertPhotoData(basePath: string, photoData: PhotoData, index: int): (p: Photo)
    ensures p.id == index + 1
    ensures p.alt == photoData.alt && p.span == photoData.span && p.metadata == photoData.metadata
    ensures p.src == Paths.WithBasePath(basePath, "/" + photoData.file)
    ensures Paths.StartsWith(p.src, basePath)
    ensures p.src == "/" + photoData.file || p.src == basePath + "/" + photoData.file
  {
    Paths.SlashPathIsNotExternal(photoData.file);
    Photo(index + 1, Paths.WithBasePath(basePath, "/" + photoData.file), photoData.alt, photoData.span, photoData.metadata)
  }

  /** `photos.map((photo, index) => convertPhotoData(photo, index))` */
  function ConvertPhotos(basePath: string, photos: seq<PhotoData>): (r: seq<Photo>)
    ensures |r| == |photos|
    ensures forall j :: 0 <= j < |r| ==> r[j].id == j + 1
    ensures forall j :: 0 <= j < |r| ==>
      r[j].alt == photos[j].alt && r[j].span == photos[j].span && r[j].metadata == photos[j].metadata
    ensures forall j :: 0 <= j < |r| ==> r[j].src == Paths.WithBasePath(basePath, "/" + photos[j].file)
  {
    seq(|photos|, j requires 0 <= j < |photos| => ConvertPhotoData(basePath, photos[j], j))
  }

  /** The view object for one collection record. */
  function BuildCollection(basePath: string, allPhotos: seq<PhotoData>, data: CollectionData): (c: Collection)
    ensures c.id == data.id && c.title == data.title && c.description == data.description
    ensures c.coverImage == Paths.WithBasePath(basePath, "/" + data.coverImage)
    ensures c.photos == ConvertPhotos(basePath, PhotosForCollection(allPhotos, data.id))
  {
    Collection(
      data.id, data.title, data.description,
      Paths.WithBasePath(basePath, "/" + data.coverImage),
      ConvertPhotos(basePath, PhotosForCollection(allPhotos, data.id)))
  }

  /**
   * `getCollections()`: one collection per collection record, in catalog
   * order, holding the records tagged `topics.<id>` numbered from 1.
   */
  function GetCollections(basePath: string, collectionData: seq<CollectionData>, allPhotos: seq<PhotoData>): (r: seq<Collection>)
    ensures |r| == |collectionData|
    ensures forall i :: 0 <= i < |r| ==>
      r[i].id == collectionData[i].id && r[i].title == collectionData[i].title
      && r[i].description == collectionData[i].description
    ensures forall i :: 0 <= i < |r| ==>
      r[i].coverImage == Paths.WithBasePath(basePath, "/" + collectionData[i].coverImage)
      && Paths.StartsWith(r[i].coverImage, basePath)
    ensures forall i :: 0 <= i < |r| ==>
      r[i].photos == ConvertPhotos(basePath, PhotosForCollection(allPhotos, collectionData[i].id))
    ensures forall i :: 0 <= i < |r| ==>
      |r[i].photos| == |PhotosForCollection(allPhotos, collectionData[i].id)|
    ensures forall i, j :: 0 <= i < |r| && 0 <= j < |r[i].photos| ==>
      r[i].photos[j].id == j + 1
      && r[i].photos[j].alt == PhotosForCollection(allPhotos, collectionData[i].id)[j].alt
  {
    var r := seq(|collectionData|, i requires 0 <= i < |collectionData| => BuildCollection(basePath, allPhotos, collectionData[i]));
    assert forall i :: 0 <= i < |r| ==> Paths.StartsWith(r[i].coverImage, basePath) by {
      forall i | 0 <= i < |r| ensures Paths.StartsWith(r[i].coverImage, basePath) {
        Paths.SlashPathIsNotExternal(collectionData[i].coverImage);
      }
    }
    r
  }

  /** `getWorkPhotos()`: the records tagged `work`, in catalog order, numbered from 1. */
  function GetWorkPhotos(basePath: string, allPhotos: seq<PhotoData>): (r: seq<Photo>)
    ensures r == ConvertPhotos(basePath, PhotosForDisplay(allPhotos, "work"))
    ensures |r| == |PhotosForDisplay(allPhotos, "work")| <= |allPhotos|
    ensures forall j :: 0 <= j < |r| ==> r[j].id == j + 1
    ensures forall j :: 0 <= j < |r| ==> r[j].alt == PhotosForDisplay(allPhotos, "work")[j].alt
    ensures forall j :: 0 <= j < |r| ==> Paths.StartsWith(r[j].src, basePath)
  {
    var r := ConvertPhotos(basePath, PhotosForDisplay(allPhotos, "work"));
    assert forall j :: 0 <= j < |r| ==> Paths.StartsWith(r[j].src, basePath) by {
      forall j | 0 <= j < |r| ensures Paths.StartsWith(r[j].src, basePath) {
        Paths.SlashPathIsNotExternal(PhotosForDisplay(allPhotos, "work")[j].file);
      }
    }
    r
  }

  /**
   * Three records tagged {work}, {work, topics.x} and {topics.x}: the work
   * selection is the first two in order, and collection `x` holds the second
   * and the third, numbered 1 and 2.
   */
  lemma ExampleCatalog(basePath: string)
    ensures var p1 := PhotoData("1", "a.jpg", "A", ["work"], None, None);
            var p2 := PhotoData("2", "b.jpg", "B", ["work", "topics.x"], None, None);
            var p3 := PhotoData("3", "c.jpg", "C", ["topics.x"], None, None);
            var cs := GetCollections(basePath, [CollectionData("x", "X", "", "c.jpg")], [p1, p2, p3]);
            && PhotosForDisplay([p1, p2, p3], "work") == [p1, p2]
            && PhotosForCollection([p1, p2, p3], "x") == [p2, p3]
            && |cs| == 1 && |cs[0].photos| == 2
            && cs[0].photos[0].id == 1 && cs[0].photos[0].alt == "B"
            && cs[0].photos[1].id == 2 && cs[0].photos[1].alt == "C"
  {
    var p1 := PhotoData("1", "a.jpg", "A", ["work"], None, None);
    var p2 := PhotoData("2", "b.jpg", "B", ["work", "topics.x"], None, None);
    var p3 := PhotoData("3", "c.jpg", "C", ["topics.x"], None, None);
    assert "topics." + "x" == "topics.x";
    assert "work" != "topics.x" && "topics.x" !in p1.display && "work" !in p3.display;
    assert [p1, p2, p3][1..] == [p2, p3] && [p2, p3][1..] == [p3] && [p3][1..] == [];
    assert PhotosForDisplay([p3], "work") == [];
    assert PhotosForDisplay([p2, p3], "work") == [p2];
    assert PhotosForDisplay([p3], "topics.x") == [p3];
    assert PhotosForDisplay([p2, p3], "topics.x") == [p2, p3];
  }
}
