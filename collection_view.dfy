/**
 * components/collection-view.tsx: the page of one collection. It holds
 * whether the viewer is open and which photo it shows, and renders the
 * viewer over `collection.photos` while it is open.
 */
module CollectionView {
  import Collections
  import Lightbox
  import Navigation

  class CollectionView {
    const collection: Collections.Collection
    const window: Lightbox.Window
    var lightboxOpen: bool
    var currentPhotoIndex: int
    /** The mounted viewer, if the last render showed one. */
    var lightbox: Lightbox.Lightbox?

    /**
     * The index stays a position of `collection.photos` (or the initial 0 of
     * an empty collection), and an open or mounted viewer implies photos.
     */
    ghost predicate Valid()
      reads this, lightbox, window
    {
      && 0 <= currentPhotoIndex
      && (currentPhotoIndex < |collection.photos| || currentPhotoIndex == 0)
      && (lightboxOpen ==> currentPhotoIndex < |collection.photos|)
      && (lightbox != null ==> |collection.photos| > 0)
      && (lightbox != null ==> lightbox.window == window && lightbox.mounted && lightbox.Valid())
    }

    /** Initial state: closed at index 0, nothing mounted. */
    constructor (collection: Collections.Collection, window: Lightbox.Window)
      ensures this.collection == collection && this.window == window
      ensures !lightboxOpen && currentPhotoIndex == 0 && lightbox == null
      ensures Valid()
    {
      this.collection := collection;
      this.window := window;
      lightboxOpen := false;
      currentPhotoIndex := 0;
      lightbox := null;
    }

    /** `openLightbox(index)`, reached only by clicking the photo at `index` of the grid. */
    method OpenLightbox(index: int)
      requires Valid() && 0 <= index < |collection.photos|
      modifies this
      ensures Valid() && lightboxOpen && currentPhotoIndex == index
      ensures lightbox == old(lightbox)
    {
      currentPhotoIndex := index;
      lightboxOpen := true;
    }

    /** `closeLightbox()`: the index is kept. */
    method CloseLightbox()
      requires Valid()
      modifies this
      ensures Valid() && !lightboxOpen && currentPhotoIndex == old(currentPhotoIndex)
      ensures lightbox == old(lightbox)
    {
      lightboxOpen := false;
    }

    /** `nextPhoto()`; with no photos the source would compute `NaN`, and no viewer can call it then. */
    method NextPhoto()
      requires Valid() && |collection.photos| > 0
      modifies this
      ensures Valid() && lightboxOpen == old(lightboxOpen) && lightbox == old(lightbox)
      ensures currentPhotoIndex == Navigation.NextIndex(|collection.photos|, old(currentPhotoIndex))
      ensures 0 <= currentPhotoIndex < |collection.photos|
    {
      currentPhotoIndex := Navigation.NextIndex(|collection.photos|, currentPhotoIndex);
    }

    /** `previousPhoto()` */
    method PreviousPhoto()
      requires Valid() && |collection.photos| > 0
      modifies this
      ensures Valid() && lightboxOpen == old(lightboxOpen) && lightbox == old(lightbox)
      ensures currentPhotoIndex == Navigation.PreviousIndex(|collection.photos|, old(currentPhotoIndex))
      ensures 0 <= currentPhotoIndex < |collection.photos|
    {
      currentPhotoIndex := Navigation.PreviousIndex(|collection.photos|, currentPhotoIndex);
    }

    /** A keydown reaches the registered listener of the mounted viewer, which calls back here. */
    method PressKey(key: string)
      requires Valid() && lightbox != null
      modifies this
      ensures Valid() && lightbox == old(lightbox)
      ensures key == "Escape" ==> !lightboxOpen && currentPhotoIndex == old(currentPhotoIndex)
      ensures key == "ArrowRight" ==> (lightboxOpen == old(lightboxOpen)
        && currentPhotoIndex == Navigation.NextIndex(|collection.photos|, old(currentPhotoIndex)))
      ensures key == "ArrowLeft" ==> (lightboxOpen == old(lightboxOpen)
        && currentPhotoIndex == Navigation.PreviousIndex(|collection.photos|, old(currentPhotoIndex)))
      ensures Lightbox.HandleKeyDown(key) == [] ==>
        lightboxOpen == old(lightboxOpen) && currentPhotoIndex == old(currentPhotoIndex)
    {
      var calls := Lightbox.HandleKeyDown(key);
      if calls != [] {
        match calls[0]
        case OnClose => CloseLightbox();
        case OnNext => NextPhoto();
        case OnPrevious => PreviousPhoto();
      }
    }

    /**
     * A render: `{lightboxOpen && <Lightbox photos={collection.photos} … />}`.
     * Afterwards a viewer is mounted exactly while the state says open, it
     * shows an existing photo, and a closed state leaves no listener of it.
     */
    method Render()
      requires Valid()
      modifies this, lightbox, window
      ensures Valid()
      ensures lightboxOpen == old(lightboxOpen) && currentPhotoIndex == old(currentPhotoIndex)
      ensures (lightbox != null) == lightboxOpen
      ensures lightbox != null ==> 0 <= currentPhotoIndex < |collection.photos|
      ensures lightbox != null ==> window.keydownListeners[lightbox.handler] == 1 && window.bodyOverflow == "hidden"
      ensures lightbox != null && lightbox != old(lightbox) ==> fresh(lightbox)
      ensures window.keydownListeners == old(window.keydownListeners) - old(Lightbox.HandlerOf(lightbox)) + Lightbox.HandlerOf(lightbox)
      ensures old(lightbox) != null ==> old(lightbox.handler) !in window.keydownListeners
      ensures old(lightbox) != null && lightbox == null ==> window.bodyOverflow == "unset"
      ensures old(lightbox) == null && lightbox == null ==> window.bodyOverflow == old(window.bodyOverflow)
    {
      lightbox := Lightbox.Reconcile(window, lightboxOpen, lightbox);
    }
  }
}
