# Photo portfolio: catalog pipeline and lightbox, modelled in Dafny

This project models the logic core of a static photo-portfolio site written in
TypeScript/React:

- **Base-path resolution** (`lib/paths.ts`): asset paths get the deployment's base
  path in front unless they are external (`http…`) or already prefixed.
- **Catalog transformation** (`lib/data-loader.ts`): the photo catalog is filtered
  by exact display tag in catalog order; collection records become collections
  holding the photos tagged `topics.<id>`, numbered from 1, with resolved paths.
- **Static collections** (`lib/collections.ts`): four fixed collections and the
  lookup of one by id (first match, or nothing).
- **Lightbox** (`components/lightbox.tsx`): key dispatch (Escape, ArrowRight,
  ArrowLeft), previous/next button visibility, the `n / total` counter, and the
  effect that registers a keydown listener and locks body scrolling while the
  viewer is mounted, undoing both in its cleanup.
- **Viewer state of the two pages** (`components/gallery.tsx`,
  `components/collection-view.tsx`): `lightboxOpen` and `currentPhotoIndex`,
  changed by open, close, next (`(i + 1) % n`) and previous (`(i - 1 + n) % n`),
  and a render step that mounts, re-runs or unmounts the viewer.
- **Metadata preference** (`hooks/use-metadata-toggle.ts`): starts `true`, is
  loaded from storage on mount when a value is stored (`stored === "true"`),
  and is written back as `"true"`/`"false"` under `showPhotoMetadata`.

One module per source file: `Paths`, `DataLoader`, `Collections`, `Lightbox`,
`Gallery`, `CollectionView`, `MetadataToggle`; `Navigation` holds the two index
updaters that both pages define identically; `Wrappers` holds `Option`.

Modelling choices:

- The base path is a parameter `basePath` of every resolving function;
  `Paths.ConfiguredBasePath` models `process.env.NEXT_PUBLIC_BASE_PATH || '/photos'`.
- The two catalogs that `loadPhotos`/`loadCollections` read from JSON files are
  parameters (`allPhotos`, `collectionData`).
- JavaScript's truncating `%` is written out (`Navigation.JsRemainder`); in every
  reachable state its operands are non-negative, where it agrees with Dafny's `%`.
- The window's keydown listeners are a `multiset` of listener objects (each
  effect run creates a new closure, so identity is by object); the body's
  `overflow` style is a string. `Lightbox.Reconcile` is one React render of
  `{lightboxOpen && <Lightbox … />}`: since both pages recreate the three
  callbacks on every render, the effect's dependencies change on every render
  and the effect is cleaned up and run again each time.
- `localStorage` is a `Storage` object holding a `map<string, string>`.

Behaviour of the code worth noting:

- Opening the viewer does not clamp the index; `photos[currentIndex]` needs an
  index in range, which holds because the only caller is a click on the grid.
- The viewer has no `i` key and no metadata panel; `useMetadataToggle` is not
  used by the lightbox shown here, and is modelled on its own.
- Keys wrap around at both ends while the previous/next buttons are hidden at
  the ends; both behaviours are modelled as they are
  (`Navigation.ButtonsClampKeysWrap` relates them).
- The preference hook has no guard for unavailable storage.
- Collection pages look collections up in the static list of
  `lib/collections.ts`, not in the output of `getCollections`.

## Model

| member | source | states |
|---|---|---|
| `Paths.ConfiguredBasePath` | lib/paths.ts:2 | An absent or empty setting yields `/photos`; a non-empty one is used as it is; the result is never empty. |
| `Paths.WithBasePath` | lib/paths.ts:9-15 | External and already-prefixed paths come back unchanged; any other path gets exactly the base path in front; the result always starts with the base path or `http` and ends with the input path. |
| `Paths.WithBasePathIdempotent` | lib/paths.ts:11-14 | Resolving a resolved path changes nothing. |
| `Paths.WithBasePathPrefixes` | lib/paths.ts:14 | A path neither external nor prefixed becomes `basePath + path`, which differs from the input. |
| `Paths.EmptyBasePathIsIdentity` | lib/paths.ts:11 | With an empty base path every path is returned unchanged. |
| `Paths.SiblingOfBasePathIsNotResolved` | lib/paths.ts:11 | The prefix test is by characters: `/photos-2024.jpg` is left as it is although it is not under `/photos/`. |
| `Paths.SlashPathIsNotExternal` | lib/paths.ts:11 | A path that starts with `/` is never taken for an external URL. |
| `DataLoader.PhotosForDisplay` | lib/data-loader.ts:54-57 | The result is a subsequence of the catalog, every kept record has the tag, and no record with the tag is dropped. |
| `DataLoader.PhotosForDisplayAppend` | lib/data-loader.ts:56 | Filtering a concatenation is the concatenation of the filtered parts (catalog order is kept). |
| `DataLoader.PhotosForDisplayEmpty` | lib/data-loader.ts:56 | The selection is empty exactly when no record carries the tag. |
| `DataLoader.PhotosForCollection` | lib/data-loader.ts:59-61 | The selection for `topics.<id>`: a subsequence whose records all carry that tag, missing none that does. |
| `DataLoader.ConvertPhotoData` | lib/data-loader.ts:71-79 | The id is `index + 1`; alt, span and metadata are copied; `src` is `withBasePath("/" + file)`, which always starts with the base path. |
| `DataLoader.ConvertPhotos` | lib/data-loader.ts:99 | The map keeps length and order, numbers the photos 1..n and resolves each file. |
| `DataLoader.BuildCollection` | lib/data-loader.ts:93-100 | A collection copies id, title and description, resolves the cover image and holds the converted `topics.<id>` selection. |
| `DataLoader.GetCollections` | lib/data-loader.ts:89-102 | One collection per record, same order, ids, titles and descriptions; covers resolved under the base path; each collection's photos are exactly the conversion of its `topics.<id>` selection, numbered 1..n. |
| `DataLoader.GetWorkPhotos` | lib/data-loader.ts:104-107 | Exactly the conversion of the `work` selection: as many photos as `work`-tagged records, in order, numbered 1..n, all resolved under the base path. |
| `DataLoader.ExampleCatalog` | lib/data-loader.ts:54-102 | Records tagged {work}, {work, topics.x}, {topics.x}: `work` selects the first two; collection `x` holds the last two, numbered 1 and 2. |
| `Collections.FindById` | lib/collections.ts:106 | A found collection has the id and belongs to the list; nothing is found exactly when no element has the id. |
| `Collections.FindByIdIsFirstMatch` | lib/collections.ts:106 | The element found is the first one in list order with that id. |
| `Collections.FindByIdWithUniqueIds` | lib/collections.ts:106 | In a list with unique ids, each element is found by its own id. |
| `Collections.GetCollectionById` | lib/collections.ts:105-107 | Found implies the id matches and the collection is one of the four; absent exactly when no constant collection has the id. |
| `Collections.AllCollectionsUniqueIds` | lib/collections.ts:16-103 | The constant list has four collections with pairwise distinct ids. |
| `Collections.AllCollectionsPhotoIds` | lib/collections.ts:16-103 | In each constant collection the photo ids are 1..n in order, and no collection is empty. |
| `Collections.GetCollectionByIdFindsEach` | lib/collections.ts:105-107 | Looking up the id of any constant collection returns that collection. |
| `Collections.GetCollectionByIdUnknown` | lib/collections.ts:105-107 | Every id other than the four constant ones gives "not found", not an error. |
| `Lightbox.HandleKeyDown` | components/lightbox.tsx:25-29 | Escape calls only close, ArrowRight only next, ArrowLeft only previous, any other key nothing. |
| `Lightbox.ShowPreviousButton` | components/lightbox.tsx:52 | The previous button is shown only when there is a photo before the current one. |
| `Lightbox.ShowNextButton` | components/lightbox.tsx:63 | For a non-negative index, the next button is shown only when there is a photo after the current one. |
| `Lightbox.ButtonTargetsInRange` | components/lightbox.tsx:52-63 | A shown previous/next button leads to an existing photo; with one photo neither is shown. |
| `Lightbox.CounterOf` | components/lightbox.tsx:86 | The counter shows `currentIndex + 1` of the photo count, between 1 and the count for an index in range. |
| `Lightbox.CurrentPhoto` | components/lightbox.tsx:22 | The current photo is an element of the sequence; the index must be in range, as nothing clamps it. |
| `Lightbox.Lightbox.Mount` | components/lightbox.tsx:24-33 | Mounting adds one new listener to the window and sets overflow to `hidden`. |
| `Lightbox.Lightbox.Setup` | components/lightbox.tsx:31-32 | The effect registers a fresh listener exactly once and sets overflow to `hidden`. |
| `Lightbox.Lightbox.Cleanup` | components/lightbox.tsx:34-37 | The cleanup removes that same listener, leaving none of it, and sets overflow to `unset`. |
| `Lightbox.Lightbox.Rerun` | components/lightbox.tsx:24-38 | On a dependency change the old listener is gone and exactly one new one is registered; scrolling stays locked. |
| `Lightbox.Lightbox.Unmount` | components/lightbox.tsx:34-37 | Unmounting removes the listener and unlocks scrolling. |
| `Lightbox.Reconcile` | components/lightbox.tsx:24-38 | A render mounts a viewer exactly when open; the listener multiset changes by removing the previous viewer's listener and adding the new one's. |
| `Lightbox.MountThenUnmount` | components/lightbox.tsx:24-38 | Mount then unmount leaves the window's listeners as they were and overflow `unset`. |
| `Lightbox.MountRerunsUnmount` | components/lightbox.tsx:24-38 | Any number of effect re-runs between mount and unmount still leave no listener behind. |
| `Navigation.JsRemainder` | components/collection-view.tsx:28 | JavaScript `%` on a non-negative dividend is Dafny's `%` and lies in `[0, n)`. |
| `Navigation.NextIndex` | components/collection-view.tsx:27-29 | Next stays in `[0, n)`, moves one forward, and wraps from the last photo to the first. |
| `Navigation.PreviousIndex` | components/collection-view.tsx:31-33 | Previous stays in `[0, n)`, moves one back, and wraps from the first photo to the last. |
| `Navigation.NextPreviousInverse` | components/gallery.tsx:60-66 | Previous after next, and next after previous, restore the index. |
| `Navigation.NextTimes` | components/collection-view.tsx:27-29 | Repeated next presses stay in `[0, n)`. |
| `Navigation.NextTimesShift` | components/collection-view.tsx:27-29 | `k <= n` presses of next move `k` places forward, wrapping once past the end. |
| `Navigation.NextTimesFullCycle` | components/collection-view.tsx:27-29 | `n` presses of next return to the starting photo. |
| `Navigation.ButtonsClampKeysWrap` | components/lightbox.tsx:52-63 | The next button is shown exactly when the next key does not wrap, and likewise for previous; at the ends the keys wrap. |
| `Gallery.GalleryFilesAreRooted` | components/gallery.tsx:11-41 | No gallery file is taken for an external URL. |
| `Gallery.GalleryPhotos` | components/gallery.tsx:8-45 | Six photos with ids 1..6 in order, each resolved under the base path. |
| `Gallery.SixPhotoNavigation` | components/gallery.tsx:60-66 | With six photos next is `(i + 1) mod 6`, previous is `(i + 5) mod 6`, and six presses of next are the identity. |
| `Gallery.Gallery.constructor` | components/gallery.tsx:48-49 | The gallery starts closed at index 0 with no viewer mounted. |
| `Gallery.Gallery.OpenLightbox` | components/gallery.tsx:51-54 | Opening sets the index to the clicked position and opens the viewer. |
| `Gallery.Gallery.CloseLightbox` | components/gallery.tsx:56-58 | Closing clears the open flag and keeps the index. |
| `Gallery.Gallery.NextPhoto` | components/gallery.tsx:60-62 | The index becomes `(i + 1) mod 6` and stays in range. |
| `Gallery.Gallery.PreviousPhoto` | components/gallery.tsx:64-66 | The index becomes `(i - 1 + 6) mod 6` and stays in range. |
| `Gallery.Gallery.PressKey` | components/gallery.tsx:94-97 | Escape closes keeping the index, ArrowRight/ArrowLeft move with wrap-around, other keys change nothing. |
| `Gallery.Gallery.Render` | components/gallery.tsx:91-99 | After a render a viewer is mounted exactly while open and its listener is registered once; closing a mounted viewer removes its listener and unlocks scrolling; with no viewer before or after, the body overflow is untouched. |
| `Gallery.OpenThenEscape` | components/gallery.tsx:51-99 | Open, render, Escape, render: the viewer is gone, the window's listeners are as before, overflow is `unset`, the index is kept. |
| `CollectionView.CollectionView.constructor` | components/collection-view.tsx:15-16 | A collection page starts closed at index 0 with no viewer mounted. |
| `CollectionView.CollectionView.OpenLightbox` | components/collection-view.tsx:18-21 | Opening sets the index to the clicked position and opens the viewer. |
| `CollectionView.CollectionView.CloseLightbox` | components/collection-view.tsx:23-25 | Closing clears the open flag and keeps the index. |
| `CollectionView.CollectionView.NextPhoto` | components/collection-view.tsx:27-29 | The index moves forward modulo the photo count and stays in `[0, n)`. |
| `CollectionView.CollectionView.PreviousPhoto` | components/collection-view.tsx:31-33 | The index moves back modulo the photo count and stays in `[0, n)`. |
| `CollectionView.CollectionView.PressKey` | components/collection-view.tsx:73-77 | Escape closes keeping the index, ArrowRight/ArrowLeft move with wrap-around, other keys change nothing. |
| `CollectionView.CollectionView.Render` | components/collection-view.tsx:70-78 | After a render a viewer is mounted exactly while open and then shows an existing photo; closing a mounted viewer removes its listener and unlocks scrolling; with no viewer before or after, the body overflow is untouched. |
| `MetadataToggle.BoolToString` | hooks/use-metadata-toggle.ts:17 | `String(value)` is `"true"` exactly for true and `"false"` exactly for false. |
| `MetadataToggle.LoadedPreference` | hooks/use-metadata-toggle.ts:8-11 | With nothing stored the value is kept; otherwise it is whether the stored string is exactly `"true"`. |
| `MetadataToggle.Stored` | hooks/use-metadata-toggle.ts:17 | The write sets `showPhotoMetadata` to the written form and leaves every other key as it was. |
| `MetadataToggle.StoreThenLoad` | hooks/use-metadata-toggle.ts:8-17 | Loading after a write yields the written value. |
| `MetadataToggle.StoreIdempotent` | hooks/use-metadata-toggle.ts:15-18 | Writing the same value twice equals writing it once. |
| `MetadataToggle.OtherStringsLoadFalse` | hooks/use-metadata-toggle.ts:10 | Any stored string other than `"true"` loads as false. |
| `MetadataToggle.MetadataToggle.constructor` | hooks/use-metadata-toggle.ts:4 | The preference starts `true`. |
| `MetadataToggle.MetadataToggle.LoadOnMount` | hooks/use-metadata-toggle.ts:7-12 | The mount effect replaces the value only when a string is stored. |
| `MetadataToggle.MetadataToggle.ToggleMetadata` | hooks/use-metadata-toggle.ts:15-18 | The state becomes the value and only the `showPhotoMetadata` entry of the store changes. |
| `MetadataToggle.ToggleThenRemount` | hooks/use-metadata-toggle.ts:4-18 | The next hook to mount over the same storage starts from the value written last. |

## Left out

- `loadPhotos` and `loadCollections` (lib/data-loader.ts:40-52): file reading and JSON parsing with an unchecked cast; the loaded catalogs are parameters, and a malformed file is not modelled.
- Reading `process.env` (lib/paths.ts:2): `Paths.ConfiguredBasePath` takes the variable's value as a parameter.
- `useBasePath` (lib/paths.ts:20-22): it only returns `basePath` and `withBasePath` together.
- React scheduling: state updates, effects and renders are explicit method calls in the order React performs them; batching and timing are not modelled.
- Image and link rendering (`next/image`, `next/link`), CSS classes, and the `|| "/placeholder.svg"` fallbacks of an empty `src`.
- `span` and `PhotoMetadata` values are carried as opaque optional data.
- The `localStorage` API itself, including a store the browser refuses to open (the source has no guard for it).
- Gallery.Gallery.OpenLightbox: requires the index to be a grid position, because the grid click (components/gallery.tsx:73-76) is its only caller; likewise `CollectionView.CollectionView.OpenLightbox`.
- CollectionView.CollectionView.NextPhoto: requires a non-empty collection; the source would compute `NaN`, but only a mounted viewer calls it, and one is mounted only after a photo was clicked; likewise `PreviousPhoto`.
- Gallery.Gallery.PressKey: requires a mounted viewer, since only its registered listener receives keys; likewise `CollectionView.CollectionView.PressKey`.
- components/contact.tsx, collections-grid.tsx, about.tsx, hero.tsx, footer.tsx, the app pages and layout, and next.config.mjs: markup and configuration without logic of their own.
