/**
 * components/lightbox.tsx: the full-screen viewer. The parent passes the
 * photos, the current index and three callbacks; the viewer dispatches
 * keys to the callbacks, shows the previous/next buttons away from the
 * ends, shows a counter, and while mounted holds two browser-global
 * resources: a keydown listener on the window and `overflow: hidden` on
 * the document body.
 */
module Lightbox {

  /** The callbacks the parent hands to the viewer. */
  datatype Callback = OnClose | OnNext | OnPrevious

  /**
   * `handleKeyDown`: the three independent tests of the key, in source
   * order; the result lists the callbacks invoked.
   */
  function HandleKeyDown(key: string): (calls: seq<Callback>)
    ensures key == "Escape" <==> calls == [OnClose]
    ensures key == "ArrowRight" <==> calls == [OnNext]
    ensures key == "ArrowLeft" <==> calls == [OnPrevious]
    ensures calls == [] <==> key != "Escape" && key != "ArrowRight" && key != "ArrowLeft"
    ensures |calls| <= 1
  {
    assert "Escape" != "ArrowRight" && "ArrowRight" != "ArrowLeft" && "Escape" != "ArrowLeft";
    var calls :=
      (if key == "Escape" then [OnClose] else [])
      + (if key == "ArrowRight" then [OnNext] else [])
      + (if key == "ArrowLeft" then [OnPrevious] else []);
    assert calls == (if key == "Escape" then [OnClose]
                     else if key == "ArrowRight" then [OnNext]
                     else if key == "ArrowLeft" then [OnPrevious]
                     else []);
    calls
  }

  /** `currentIndex > 0 && <previous button>` */
  predicate ShowPreviousButton(currentIndex: int): (shown: bool)
    ensures shown ==> currentIndex - 1 >= 0
  {
    currentIndex > 0
  }

  /** `currentIndex < photos.length - 1 && <next button>` */
  predicate ShowNextButton(photoCount: int, currentIndex: int): (shown: bool)
    ensures shown && 0 <= currentIndex ==> currentIndex + 1 < photoCount
  {
    currentIndex < photoCount - 1
  }

  /** A visible button always leads to an existing photo. */
  lemma ButtonTargetsInRange(photoCount: int, currentIndex: int)
    requires 0 <= currentIndex < photoCount
    ensures ShowPreviousButton(currentIndex) ==> 0 <= currentIndex - 1 < photoCount
    ensures ShowNextButton(photoCount, currentIndex) ==> 0 <= currentIndex + 1 < photoCount
    ensures photoCount == 1 ==> !ShowPreviousButton(currentIndex) && !ShowNextButton(photoCount, currentIndex)
  {
  }

  /** The text `{currentIndex + 1} / {photos.length}`. */
  datatype Counter = Counter(position: int, total: int)

  function CounterOf(photoCount: nat, currentIndex: int): (c: Counter)
    ensures c.total == photoCount
    ensures 0 <= currentIndex < photoCount ==> 1 <= c.position <= c.total
    ensures c.position - 1 == currentIndex
  {
    Counter(currentIndex + 1, photoCount)
  }

  /** `photos[currentIndex]`: the viewer does no clamping, so the index must be in range. */
  function CurrentPhoto<P>(photos: seq<P>, currentIndex: int): (p: P)
    requires 0 <= currentIndex < |photos|
    ensures p in photos
  {
    photos[currentIndex]
  }

  /** The `handleKeyDown` closure; each effect run creates a new one, so identity is by object. */
  class KeyListener {
    constructor () {}
  }

  /** The two browser globals the effect touches. */
  class Window {
    var keydownListeners: multiset<KeyListener>
    var bodyOverflow: string

    constructor (listeners: multiset<KeyListener>, overflow: string)
      ensures keydownListeners == listeners && bodyOverflow == overflow
    {
      keydownListeners := listeners;
      bodyOverflow := overflow;
    }
  }

  /**
   * A mounted viewer. `handler` is the listener installed by the latest run
   * of the effect and captured by its cleanup.
   */
  class Lightbox {
    const window: Window
    var handler: KeyListener
    var mounted: bool

    /** While mounted, the viewer's listener is registered exactly once and scrolling is locked. */
    ghost predicate Valid()
      reads this, window
    {
      mounted ==> window.keydownListeners[handler] == 1 && window.bodyOverflow == "hidden"
    }

    /** The component mounts: its first render is followed by the effect's setup. */
    constructor Mount(window: Window)
      modifies window
      ensures this.window == window && mounted && Valid()
      ensures fresh(handler)
      ensures window.keydownListeners == old(window.keydownListeners) + multiset{handler}
      ensures window.bodyOverflow == "hidden"
    {
      this.window := window;
      handler := new KeyListener();
      mounted := false;
      new;
      Setup();
    }

    /** The effect body: `addEventListener("keydown", …)` and `overflow = "hidden"`. */
    method Setup()
      requires !mounted
      modifies this, window
      ensures mounted && Valid() && fresh(handler)
      ensures window.keydownListeners == old(window.keydownListeners) + multiset{handler}
      ensures window.bodyOverflow == "hidden"
    {
      var h := new KeyListener();
      window.keydownListeners := window.keydownListeners + multiset{h};
      window.bodyOverflow := "hidden";
      handler := h;
      mounted := true;
    }

    /** The cleanup the effect returns: `removeEventListener` of the same closure and `overflow = "unset"`. */
    method Cleanup()
      requires mounted && Valid()
      modifies this, window
      ensures !mounted && handler == old(handler)
      ensures window.keydownListeners == old(window.keydownListeners) - multiset{handler}
      ensures handler !in window.keydownListeners
      ensures window.bodyOverflow == "unset"
    {
      window.keydownListeners := window.keydownListeners - multiset{handler};
      window.bodyOverflow := "unset";
      mounted := false;
    }

    /** A dependency changed: React runs the previous cleanup, then the effect again. */
    method Rerun()
      requires mounted && Valid()
      modifies this, window
      ensures mounted && Valid() && fresh(handler)
      ensures old(handler) !in window.keydownListeners
      ensures window.keydownListeners == old(window.keydownListeners) - multiset{old(handler)} + multiset{handler}
      ensures window.bodyOverflow == "hidden"
    {
      Cleanup();
      Setup();
    }

    /** The component unmounts: React runs the last cleanup. */
    method Unmount()
      requires mounted && Valid()
      modifies this, window
      ensures !mounted && handler == old(handler)
      ensures handler !in window.keydownListeners
      ensures window.keydownListeners == old(window.keydownListeners) - multiset{handler}
      ensures window.bodyOverflow == "unset"
    {
      Cleanup();
    }
  }

  /** The listener a viewer, if any, holds registered. */
  function HandlerOf(viewer: Lightbox?): multiset<KeyListener>
    reads viewer
  {
    if viewer == null then multiset{} else multiset{viewer.handler}
  }

  /**
   * One render of a parent that writes `{open && <Lightbox … />}`: the
   * viewer mounts when it appears, re-runs its effect while it stays (the
   * parent recreates its callbacks on every render, so the dependencies
   * always change), and unmounts when it disappears.
   */
  method Reconcile(window: Window, open: bool, current: Lightbox?) returns (next: Lightbox?)
    requires current != null ==> current.window == window && current.mounted && current.Valid()
    modifies window, current
    ensures (next != null) == open
    ensures next != null ==> next.window == window && next.mounted && next.Valid()
    ensures next != null ==> fresh(next.handler)
    ensures next != null && next != current ==> fresh(next)
    ensures window.keydownListeners == old(window.keydownListeners) - old(HandlerOf(current)) + HandlerOf(next)
    ensures current != null ==> old(current.handler) !in window.keydownListeners
    ensures next == null && current != null ==> window.bodyOverflow == "unset"
    ensures next == null && current == null ==> window.bodyOverflow == old(window.bodyOverflow)
  {
    if open {
      if current == null {
        next := new Lightbox.Mount(window);
      } else {
        current.Rerun();
        next := current;
      }
    } else {
      if current != null {
        current.Unmount();
      }
      next := null;
    }
  }

  /** A mount followed by an unmount leaves the listeners as they were and scrolling unlocked. */
  method MountThenUnmount(window: Window)
    modifies window
    ensures window.keydownListeners == old(window.keydownListeners)
    ensures window.bodyOverflow == "unset"
  {
    var viewer := new Lightbox.Mount(window);
    viewer.Unmount();
    assert window.keydownListeners == old(window.keydownListeners) + multiset{viewer.handler} - multiset{viewer.handler};
  }

  /** Mount, any number of dependency changes, unmount: still no listener is left behind. */
  method MountRerunsUnmount(window: Window, reruns: nat)
    modifies window
    ensures window.keydownListeners == old(window.keydownListeners)
    ensures window.bodyOverflow == "unset"
  {
    var viewer := new Lightbox.Mount(window);
    var i := 0;
    while i < reruns
      invariant 0 <= i <= reruns
      invariant viewer.window == window && viewer.mounted && viewer.Valid()
      invariant window.keydownListeners == old(window.keydownListeners) + multiset{viewer.handler}
    {
      viewer.Rerun();
      i := i + 1;
    }
    viewer.Unmount();
  }
}
