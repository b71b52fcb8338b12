/**
 * lib/collections.ts: the four collections the collection pages are built
 * from, and the lookup of one of them by its id.
 */
module Collections {
  import opened Wrappers

  datatype Photo = Photo(id: int, src: string, alt: string, span: Option<string>)

  datatype Collection = Collection(
    id: string,
    title: string,
    description: string,
    coverImage: string,
    photos: seq<Photo>)

  /** The `collections` constant. */
  const AllCollections: seq<Collection> := [
    Collection(
      "tokyo-nights",
      "Tokyo Nights",
      "Urban exploration through the neon-lit streets of Tokyo",
      "/urban-street-photography-monochrome.jpg",
      [ Photo(1, "/urban-street-photography-monochrome.jpg", "Tokyo street at night", Some("md:col-span-2 md:row-span-2")),
        Photo(2, "/black-and-white-architecture.png", "Tokyo architecture", Some("md:col-span-1 md:row-span-1")),
        Photo(3, "/abstract-minimalist-photography.jpg", "Urban abstract", Some("md:col-span-1 md:row-span-1")) ]),
    Collection(
      "portraits",
      "Portraits",
      "Intimate moments captured in black and white",
      "/minimalist-black-and-white-portrait-photography.jpg",
      [ Photo(1, "/minimalist-black-and-white-portrait-photography.jpg", "Portrait photography", Some("md:col-span-1 md:row-span-2")),
        Photo(2, "/fine-art-photography-black-background.jpg", "Fine art portrait", Some("md:col-span-2 md:row-span-1")) ]),
    Collection(
      "landscapes",
      "Landscapes",
      "Natural beauty in monochrome",
      "/nature-landscape-black-and-white.jpg",
      [ Photo(1, "/nature-landscape-black-and-white.jpg", "Nature landscape", Some("md:col-span-2 md:row-span-1")),
        Photo(2, "/abstract-minimalist-photography.jpg", "Abstract nature", Some("md:col-span-1 md:row-span-2")) ]),
    Collection(
      "architecture",
      "Architecture",
      "Geometric forms and structural elegance",
      "/black-and-white-architecture.png",
      [ Photo(1, "/black-and-white-architecture.png", "Modern architecture", Some("md:col-span-2 md:row-span-2")),
        Photo(2, "/minimalist-architectural-photography-black-backgro.jpg", "Minimalist architecture", Some("md:col-span-1 md:row-span-1")) ])
  ]

  /** `cs.find((collection) => collection.id === id)` */
  function FindById(cs: seq<Collection>, id: string): (r: Option<Collection>)
    ensures r.Some? ==> r.value.id == id && r.value in cs
    ensures r.None? <==> forall k :: 0 <= k < |cs| ==> cs[k].id != id
  {
    if cs == [] then None
    else if cs[0].id == id then Some(cs[0])
    else FindById(cs[1..], id)
  }

  /** The lookup returns the first element, in list order, whose id matches. */
  lemma {:induction false} FindByIdIsFirstMatch(cs: seq<Collection>, id: string, k: nat)
    requires k < |cs| && cs[k].id == id
    requires forall j :: 0 <= j < k ==> cs[j].id != id
    ensures FindById(cs, id) == Some(cs[k])
  {
    if k > 0 {
      assert cs[0].id != id;
      FindByIdIsFirstMatch(cs[1..], id, k - 1);
    }
  }

  /** No two elements of the list share an id. */
  ghost predicate UniqueIds(cs: seq<Collection>) {
    forall i, j :: 0 <= i < j < |cs| ==> cs[i].id != cs[j].id
  }

  /** In a list with unique ids every element is found by its own id. */
  lemma FindByIdWithUniqueIds(cs: seq<Collection>, k: nat)
    requires UniqueIds(cs) && k < |cs|
    ensures FindById(cs, cs[k].id) == Some(cs[k])
  {
    FindByIdIsFirstMatch(cs, cs[k].id, k);
  }

  /** `getCollectionById(id)` over the constant list. */
  function GetCollectionById(id: string): (r: Option<Collection>)
    ensures r.Some? ==> r.value.id == id && r.value in AllCollections
    ensures r.None? <==> forall k :: 0 <= k < |AllCollections| ==> AllCollections[k].id != id
  {
    FindById(AllCollections, id)
  }

  /** The constant list has four collections with pairwise distinct ids. */
  lemma AllCollectionsUniqueIds()
    ensures |AllCollections| == 4
    ensures UniqueIds(AllCollections)
  {
    assert AllCollections[0].id[0] == 't' && AllCollections[1].id[0] == 'p';
    assert AllCollections[2].id[0] == 'l' && AllCollections[3].id[0] == 'a';
  }

  /** Within each constant collection the photo ids are 1..n in order, and no collection is empty. */
  lemma AllCollectionsPhotoIds()
    ensures forall k, j :: 0 <= k < |AllCollections| && 0 <= j < |AllCollections[k].photos| ==>
      AllCollections[k].photos[j].id == j + 1
    ensures forall k :: 0 <= k < |AllCollections| ==> |AllCollections[k].photos| > 0
  {
  }

  /** Each constant collection is returned when its own id is looked up. */
  lemma GetCollectionByIdFindsEach(k: nat)
    requires k < |AllCollections|
    ensures GetCollectionById(AllCollections[k].id) == Some(AllCollections[k])
  {
    AllCollectionsUniqueIds();
    FindByIdWithUniqueIds(AllCollections, k);
  }

  /** Any id other than the four constant ones is a normal "not found" outcome. */
  lemma GetCollectionByIdUnknown(id: string)
    requires id != "tokyo-nights" && id != "portraits" && id != "landscapes" && id != "architecture"
    ensures GetCollectionById(id) == None
  {
    assert AllCollections[0].id == "tokyo-nights" && AllCollections[1].id == "portraits";
    assert AllCollections[2].id == "landscapes" && AllCollections[3].id == "architecture";
  }
}
