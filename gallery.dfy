/**
 * components/gallery.tsx: the home page grid of six fixed photos, with the
 * same viewer state as a collection page.
 */
module Gallery {
  import opened Wrappers
  import Paths
  import Lightbox
  import Navigation

  datatype GalleryPhoto = GalleryPhoto(id: int, src: string, alt: string, span: Option<string>)

  /** The files, alternative texts and layout hints of the `photos` constant, in grid order. */
  // Each path is written as "/" + name so that its leading slash is visible to the verifier.
  const GalleryFiles: seq<string> := [
    "/" + "minimalist-black-and-white-portrait-photography.jpg",
    "/" + "black-and-white-architecture.png",
    "/" + "abstract-minimalist-photography.jpg",
    "/" + "nature-landscape-black-and-white.jpg",
    "/" + "urban-street-photography-monochrome.jpg",
    "/" + "fine-art-photography-black-background.jpg"]

  const GalleryAlts: seq<string> := [
    "Portrait photography",
    "Architectural photography",
    "Abstract photography",
    "Nature photography",
    "Street photography",
    "Fine art photography"]

  const GallerySpans: seq<string> := [
    "md:col-span-1 md:row-span-2",
    "md:col-span-2 md:row-span-1",
    "md:col-span-1 md:row-span-1",
    "md:col-span-1 md:row-span-1",
    "md:col-span-1 md:row-span-2",
    "md:col-span-2 md:row-span-1"]

  /** Every gallery file is a rooted path, so none is taken for an external URL. */
  lemma GalleryFilesAreRooted(j: int)
    requires 0 <= j < |GalleryFiles|
    ensures !Paths.StartsWith(GalleryFiles[j], Paths.ExternalPrefix)
  {
    assert GalleryFiles[j][0] == '/';
  }

  /** The `photos` constant; each file is resolved under the base path when the module loads. */
  function GalleryPhotos(basePath: string): (photos: seq<GalleryPhoto>)
    ensures |photos| == 6
    ensures forall j :: 0 <= j < |photos| ==> photos[j].id == j + 1
    ensures forall j :: 0 <= j < |photos| ==> Paths.StartsWith(photos[j].src, basePath)
  {
    var photos := seq(6, j requires 0 <= j < 6 =>
      GalleryPhoto(j + 1, Paths.WithBasePath(basePath, GalleryFiles[j]), GalleryAlts[j], Some(GallerySpans[j])));
    assert forall j :: 0 <= j < |photos| ==> Paths.StartsWith(photos[j].src, basePath) by {
      forall j | 0 <= j < |photos| ensures Paths.StartsWith(photos[j].src, basePath) {
        GalleryFilesAreRooted(j);
      }
    }
    photos
  }

  /** With six photos the updaters are `(idx + 1) mod 6` and `(idx + 5) mod 6`; six presses of next are the identity. */
  lemma SixPhotoNavigation(i: int)
    requires 0 <= i < 6
    ensures Navigation.NextIndex(6, i) == (i + 1) % 6
    ensures Navigation.PreviousIndex(6, i) == (i + 5) % 6
    ensures Navigation.NextTimes(6, i, 6) == i
  {
    Navigation.NextTimesFullCycle(6, i);
  }

  class Gallery {
    const photos: seq<GalleryPhoto>
    const window: Lightbox.Window
    var lightboxOpen: bool
    var currentPhotoIndex: int
    /** The mounted viewer, if the last render showed one. */
    var lightbox: Lightbox.Lightbox?

    /** The index stays a position of the six photos. */
    ghost predicate Valid()
      reads this, lightbox, window
    {
      && |photos| == 6
      && 0 <= currentPhotoIndex < |photos|
      && (lightbox != null ==> lightbox.window == window && lightbox.mounted && lightbox.Valid())
    }

    /** Initial state: closed at index 0, nothing mounted. */
    constructor (basePath: string, window: Lightbox.Window)
      ensures photos == GalleryPhotos(basePath) && this.window == window
      ensures !lightboxOpen && currentPhotoIndex == 0 && lightbox == null
      ensures Valid()
    {
      photos := GalleryPhotos(basePath);
      this.window := window;
      lightboxOpen := false;
      currentPhotoIndex := 0;
      lightbox := null;
    }

    /** `openLightbox(index)`, reached only by clicking the photo at `index` of the grid. */
    method OpenLightbox(index: int)
      requires Valid() && 0 <= index < |photos|
      modifies this
      ensures Valid() && lightboxOpen && currentPhotoIndex == index
      ensures lightbox == old(lightbox)
    {
      currentPhotoIndex := index;
      lightboxOpen := true;
    }

    /** `closeLightbox()`: the index is kept. */
    method CloseLightbox()
      requires Valid()
      modifies this
      ensures Valid() && !lightboxOpen && currentPhotoIndex == old(currentPhotoIndex)
      ensures lightbox == old(lightbox)
    {
      lightboxOpen := false;
    }

    /** `nextPhoto()` */
    method NextPhoto()
      requires Valid()
      modifies this
      ensures Valid() && lightboxOpen == old(lightboxOpen) && lightbox == old(lightbox)
      ensures currentPhotoIndex == Navigation.NextIndex(|photos|, old(currentPhotoIndex))
      ensures currentPhotoIndex == (old(currentPhotoIndex) + 1) % 6
    {
      currentPhotoIndex := Navigation.NextIndex(|photos|, currentPhotoIndex);
    }

    /** `previousPhoto()` */
    method PreviousPhoto()
      requires Valid()
      modifies this
      ensures Valid() && lightboxOpen == old(lightboxOpen) && lightbox == old(lightbox)
      ensures currentPhotoIndex == Navigation.PreviousIndex(|photos|, old(currentPhotoIndex))
      ensures currentPhotoIndex == (old(currentPhotoIndex) - 1 + 6) % 6
    {
      currentPhotoIndex := Navigation.PreviousIndex(|photos|, currentPhotoIndex);
    }

    /** A keydown reaches the registered listener of the mounted viewer, which calls back here. */
    method PressKey(key: string)
      requires Valid() && lightbox != null
      modifies this
      ensures Valid() && lightbox == old(lightbox)
      ensures key == "Escape" ==> !lightboxOpen && currentPhotoIndex == old(currentPhotoIndex)
      ensures key == "ArrowRight" ==> (lightboxOpen == old(lightboxOpen)
        && currentPhotoIndex == Navigation.NextIndex(|photos|, old(currentPhotoIndex)))
      ensures key == "ArrowLeft" ==> (lightboxOpen == old(lightboxOpen)
        && currentPhotoIndex == Navigation.PreviousIndex(|photos|, old(currentPhotoIndex)))
      ensures Lightbox.HandleKeyDown(key) == [] ==>
        lightboxOpen == old(lightboxOpen) && currentPhotoIndex == old(currentPhotoIndex)
    {
      var calls := Lightbox.HandleKeyDown(key);
      if calls != [] {
        match calls[0]
        case OnClose => CloseLightbox();
        case OnNext => NextPhoto();
        case OnPrevious => PreviousPhoto();
      }
    }

    /**
     * A render: `{lightboxOpen && <Lightbox photos={photos} … />}`.
     * Afterwards a viewer is mounted exactly while the state says open, and
     * a closed state leaves no listener of it.
     */
    method Render()
      requires Valid()
      modifies this, lightbox, window
      ensures Valid()
      ensures lightboxOpen == old(lightboxOpen) && currentPhotoIndex == old(currentPhotoIndex)
      ensures (lightbox != null) == lightboxOpen
      ensures lightbox != null ==> window.keydownListeners[lightbox.handler] == 1 && window.bodyOverflow == "hidden"
      ensures lightbox != null && lightbox != old(lightbox) ==> fresh(lightbox)
      ensures window.keydownListeners == old(window.keydownListeners) - old(Lightbox.HandlerOf(lightbox)) + Lightbox.HandlerOf(lightbox)
      ensures old(lightbox) != null ==> old(lightbox.handler) !in window.keydownListeners
      ensures old(lightbox) != null && lightbox == null ==> window.bodyOverflow == "unset"
      ensures old(lightbox) == null && lightbox == null ==> window.bodyOverflow == old(window.bodyOverflow)
    {
      lightbox := Lightbox.Reconcile(window, lightboxOpen, lightbox);
    }
  }

  /**
   * Open from the grid, render, press Escape, render: the viewer is gone,
   * its listener is removed, scrolling is unlocked and the index is kept.
   */
  method OpenThenEscape(g: Gallery, index: int)
    requires g.Valid() && !g.lightboxOpen && g.lightbox == null && 0 <= index < |g.photos|
    modifies g, g.window
    ensures g.Valid() && !g.lightboxOpen && g.lightbox == null && g.currentPhotoIndex == index
    ensures g.window.keydownListeners == old(g.window.keydownListeners)
    ensures g.window.bodyOverflow == "unset"
  {
    g.OpenLightbox(index);
    g.Render();
    g.PressKey("Escape");
    g.Render();
  }
}
