# Image handler layer store

This project models the layer store and controller of the composition page's
`ImageHandler` (`Source/Begin/TheFacePlace/TheFacePlace/Scripts/ImageHandler.js`).
The handler keeps a list `sources` of layers in paint order, later layers on
top. The first layer ever inserted is the background, and at most one layer
is a background at any time. It also keeps
an error flag `sourcesError` that never resets, and two public flags,
`isStarted` and `isChanged`.

- **Geometry** (`geometry.dfy`) covers `Math.round`, the aspect-ratio fill-in
  of a missing width or height, and the centring offset of the background.
- **Layers** (`layers.dfy`) holds the values and pure logic: the options
  objects, `getParam`, the layer record `addImageOnLoad` builds, and the three
  ways `sources` changes (append on load, remove by name, drain down to the
  background). It also holds the lemmas about them.
- **Handler** (`handler.dfy`) holds the class `ImageHandler`. Its fields are
  the closure's state. Its methods are the public and inner functions of
  the source, with the index loops of `removeImage`, `isImageExists` and
  `existBackground`. The recursive callback drain of `removeAllImages`
  becomes a loop.

The class also carries a ghost flag `bgSeen`, which records whether any layer
was ever inserted. Its invariant says that until then `sources` is empty and
every pending load is a background load. So the first layer ever inserted is
the background, and every public `addImage` before that returns false and
inserts nothing, however the load events interleave.

Browser image loading becomes explicit events. The inner `addImage` records a
`LoadRequest` in the field `pending`, which stands for the `Image` object and
its `onload` closure. `OnLoad(k, size)` and `OnError(k)` finish the `k`-th
request, so requests may finish in any order.

`img.complete` becomes the parameter `cached`. When it is given, the onload
closure runs at once and the request stays pending, because the browser's load
event can still fire. A second run right after the first changes nothing
(`InsertedTwice`). If the layer was removed before the load event fires, that
event inserts it again (`OnLoad`'s contract).

The rendering surface is an oracle whose answers are parameters:
- `RemoveImage(selected)` receives the name the surface reports as selected.
- `RemoveAllImages(replies)` receives the surface's successive answers to its
  removal requests.

Behaviour of the code worth knowing, modelled as the code has it:
- **Halting is checked only when a load is requested** (line 181). A load
  requested before the first failure still inserts its layer when it
  completes, so "later adds are ignored" holds only for later requests.
- **The public `addImage` sets `isChanged` at request time** (line 80). This
  happens even if the name later proves to be a duplicate or the session has
  halted.
- **`addBackground` sets `isStarted` at once** (line 54), even if the load
  then fails or never starts.
- **The background need not be first.** Nothing keeps it at index 0: if the
  surface ever reports the background as the selected layer, a new
  background goes to the end. What is kept is that at most one layer is a
  background, because every background is named "background" and names are
  distinct (`AtMostOneBackground`).
- **The round trip is exact only one way.** Deriving the longer side from
  the shorter one and back is exact (`HeightThenWidth`, `WidthThenHeight`).
  The other way round it can be off by one pixel (`WideImageOffByOne`) or
  by far more (`WideImageDrifts`).
- **`removeAllImages` can throw.** When `sources` is empty, or becomes empty
  because it holds no background, the read `sources[-1].isBackground` throws
  a TypeError. The model reports this as the outcome `EmptySources`.

## Model

| member | source | states |
|---|---|---|
| Geometry.JsRound | Source/Begin/TheFacePlace/TheFacePlace/Scripts/ImageHandler.js:274 | Math.round gives the integer r with r - 1/2 <= v < r + 1/2 |
| Geometry.RoundRatioIsJsRound | Source/Begin/TheFacePlace/TheFacePlace/Scripts/ImageHandler.js:274 | the integer formula (2*num*t + den) / (2*den) equals Math.round of the real quotient num/den*t |
| Geometry.ProportionalHeight | Source/Begin/TheFacePlace/TheFacePlace/Scripts/ImageHandler.js:277-279 | round(ih/iw*w) is the nearest integer to ih*w/iw, with a half rounded up, stated without division |
| Geometry.ProportionalWidth | Source/Begin/TheFacePlace/TheFacePlace/Scripts/ImageHandler.js:273-275 | round(iw/ih*h) is the nearest integer to iw*h/ih, with a half rounded up |
| Geometry.HeightThenWidth | Source/Begin/TheFacePlace/TheFacePlace/Scripts/ImageHandler.js:273-279 | for an image at least as tall as wide, deriving the height from w and the width back from it gives w exactly |
| Geometry.WidthThenHeight | Source/Begin/TheFacePlace/TheFacePlace/Scripts/ImageHandler.js:273-279 | for an image at least as wide as tall, deriving the width from h and the height back gives h exactly |
| Geometry.WideImageDrifts | Source/Begin/TheFacePlace/TheFacePlace/Scripts/ImageHandler.js:273-279 | a 100x1 image at width 50 gets height 1, and height 1 gives width 100, so the other round trip is not within one pixel |
| Geometry.WideImageOffByOne | Source/Begin/TheFacePlace/TheFacePlace/Scripts/ImageHandler.js:273-279 | a 3x2 image at width 1 gets height 1, and height 1 gives width 2, so that round trip can miss by exactly one pixel |
| Geometry.CentredOffset | Source/Begin/TheFacePlace/TheFacePlace/Scripts/ImageHandler.js:185-186 | (container - image)/2 leaves equal margins before and after the image |
| Layers.GetParam | Source/Begin/TheFacePlace/TheFacePlace/Scripts/ImageHandler.js:290-292 | a defined property is returned as it is (null stays null); an undefined one gives the default, or null when there is none; the result is null exactly when the property is null, or undefined with no default |
| Layers.BackgroundOptions | Source/Begin/TheFacePlace/TheFacePlace/Scripts/ImageHandler.js:45-50 | the background's options: named "background", not draggable, not resizable, flagged as background, with no position or size |
| Layers.OverlayOptions | Source/Begin/TheFacePlace/TheFacePlace/Scripts/ImageHandler.js:73-76 | the caller's placement with the given name written in and the flags set to draggable, resizable, not a background |
| Layers.Centred | Source/Begin/TheFacePlace/TheFacePlace/Scripts/ImageHandler.js:183-188 | with a container, x and y become the centring offsets of the loaded image; without one the options are kept; the name, size and flags are never touched |
| Layers.MakeLayer | Source/Begin/TheFacePlace/TheFacePlace/Scripts/ImageHandler.js:210-228 | every field is the option read with getParam (null default, false for the flags); if exactly one of w and h is given, the other is its aspect-ratio rounding; if both or neither are given, they are stored as given |
| Layers.Loaded | Source/Begin/TheFacePlace/TheFacePlace/Scripts/ImageHandler.js:182-191 | the layer a finished load builds keeps the request's name and image; with centring, x and y are the centring offsets; options from either public entry point give a well-shaped layer |
| Layers.Inserted | Source/Begin/TheFacePlace/TheFacePlace/Scripts/ImageHandler.js:209-231 | addImageOnLoad's effect: the layer's name is in the result; the list is unchanged exactly when the name was taken; otherwise the earlier layers are kept and one layer is added |
| Layers.RemoveFirst | Source/Begin/TheFacePlace/TheFacePlace/Scripts/ImageHandler.js:96-104 | removing by name shortens the list by one exactly when some layer has the name |
| Layers.Drain | Source/Begin/TheFacePlace/TheFacePlace/Scripts/ImageHandler.js:238-251 | remove-all leaves a prefix of the list; it fails exactly when the list ends empty, and when it stops normally the last layer is the background |
| Layers.AtMostOneBackground | Source/Begin/TheFacePlace/TheFacePlace/Scripts/ImageHandler.js:44-52 | in a well-formed store two background layers are the same layer |
| Layers.InsertedFresh | Source/Begin/TheFacePlace/TheFacePlace/Scripts/ImageHandler.js:209-231 | a fresh name appends exactly one layer at the end and keeps the earlier layers in order |
| Layers.InsertedDuplicate | Source/Begin/TheFacePlace/TheFacePlace/Scripts/ImageHandler.js:209 | a taken name leaves `sources` exactly unchanged |
| Layers.InsertedTwice | Source/Begin/TheFacePlace/TheFacePlace/Scripts/ImageHandler.js:199-203 | running addImageOnLoad twice for one load (the img.complete call, then the load event) gives the same `sources` as running it once |
| Layers.InsertedWellFormed | Source/Begin/TheFacePlace/TheFacePlace/Scripts/ImageHandler.js:253-261 | inserting a well-shaped layer keeps names distinct and every layer well shaped |
| Layers.BackgroundCentredAndFixed | Source/Begin/TheFacePlace/TheFacePlace/Scripts/ImageHandler.js:45-52 | the background is named "background", centred in the container, not draggable, not resizable, flagged as background, and has no width or height set |
| Layers.OverlayMovable | Source/Begin/TheFacePlace/TheFacePlace/Scripts/ImageHandler.js:73-76 | an overlay keeps the caller's x and y (null when not given), is draggable and resizable, and is not a background |
| Layers.RemoveFirstAt | Source/Begin/TheFacePlace/TheFacePlace/Scripts/ImageHandler.js:96-98 | when i is the first index with the name, removing by name is splicing out index i |
| Layers.RemoveFirstAbsent | Source/Begin/TheFacePlace/TheFacePlace/Scripts/ImageHandler.js:95-105 | with no layer of the name, nothing is removed |
| Layers.RemoveFirstWellFormed | Source/Begin/TheFacePlace/TheFacePlace/Scripts/ImageHandler.js:96-104 | removing by name keeps the store well formed, and no layer of that name is left |
| Layers.DrainKeepsBackground | Source/Begin/TheFacePlace/TheFacePlace/Scripts/ImageHandler.js:241 | a background layer at any index survives remove-all, and remove-all then cannot hit the empty list |
| Layers.DrainToBackground | Source/Begin/TheFacePlace/TheFacePlace/Scripts/ImageHandler.js:238-251 | with the background first and every deletion confirmed, n - 1 replies leave the background alone; with fewer replies it is still waiting, with one layer removed per reply |
| Layers.DrainStalls | Source/Begin/TheFacePlace/TheFacePlace/Scripts/ImageHandler.js:242-248 | a surface that keeps answering null leaves the list as it is and the routine still waiting, however many answers come |
| Layers.DrainWithoutBackground | Source/Begin/TheFacePlace/TheFacePlace/Scripts/ImageHandler.js:239-241 | with no background and every deletion confirmed, remove-all empties the list and then fails on `sources[-1]` |
| Handler.ImageHandler.constructor | Source/Begin/TheFacePlace/TheFacePlace/Scripts/ImageHandler.js:12-36 | a new handler has no layers (line 12), no pending loads, and sourcesError, isStarted and isChanged all false (lines 13, 35-36); the filter table in between is not modelled |
| Handler.ImageHandler.AddBackground | Source/Begin/TheFacePlace/TheFacePlace/Scripts/ImageHandler.js:44-56 | requests a centred background load, unless halted, and sets isStarted and isChanged whatever becomes of the load |
| Handler.ImageHandler.AddImage | Source/Begin/TheFacePlace/TheFacePlace/Scripts/ImageHandler.js:70-86 | returns true exactly when `sources` holds a background, so always false before the first layer is inserted; on false nothing changes (sources, pending loads, isChanged, sourcesError); on true an overlay load is requested and isChanged is set |
| Handler.ImageHandler.LoadImage | Source/Begin/TheFacePlace/TheFacePlace/Scripts/ImageHandler.js:180-205 | once sourcesError is set, nothing changes; otherwise one pending request is added, and a cached image is inserted at once |
| Handler.ImageHandler.RunOnload | Source/Begin/TheFacePlace/TheFacePlace/Scripts/ImageHandler.js:182-191 | the onload closure inserts the centred layer of the request |
| Handler.ImageHandler.OnLoad | Source/Begin/TheFacePlace/TheFacePlace/Scripts/ImageHandler.js:199 | the load event finishes its request and inserts its layer, even after another load has failed |
| Handler.ImageHandler.OnError | Source/Begin/TheFacePlace/TheFacePlace/Scripts/ImageHandler.js:194-196 | the error event finishes its request and sets sourcesError, which no method clears |
| Handler.ImageHandler.AddImageOnLoad | Source/Begin/TheFacePlace/TheFacePlace/Scripts/ImageHandler.js:207-236 | `sources` becomes the insertion of the built layer; the store stays well formed; before any layer exists the layer inserted is the background |
| Handler.ImageHandler.RemoveImage | Source/Begin/TheFacePlace/TheFacePlace/Scripts/ImageHandler.js:91-106 | with a selected name, the first layer of that name is removed and isChanged is set exactly when there was one; with null, nothing changes |
| Handler.ImageHandler.RemoveAllImages | Source/Begin/TheFacePlace/TheFacePlace/Scripts/ImageHandler.js:111-115 | sets isChanged unconditionally, then `sources` and the outcome are those of the drain |
| Handler.ImageHandler.RemoveTopLayers | Source/Begin/TheFacePlace/TheFacePlace/Scripts/ImageHandler.js:238-251 | the loop's final `sources` and outcome are those of Drain for the same replies |
| Handler.ImageHandler.FitBackground | Source/Begin/TheFacePlace/TheFacePlace/Scripts/ImageHandler.js:120-124 | sets isChanged and keeps the store's invariant |
| Handler.ImageHandler.IsImageExists | Source/Begin/TheFacePlace/TheFacePlace/Scripts/ImageHandler.js:253-261 | returns true exactly when some layer has the name |
| Handler.ImageHandler.ExistBackground | Source/Begin/TheFacePlace/TheFacePlace/Scripts/ImageHandler.js:263-271 | returns true exactly when some layer's isBackground is true |

## Left out

- The rendering surface (Kinetic) is a library outside this model: its set-up (lines 6-10), `addKineticImage` (lines 281-288), `fitUnfitImageByGroup`, `toDataURL` and `undo` (lines 123, 129-131, 174-176). None of them changes the store. The surface's answers to removals are parameters.
- Saving and loading pictures (`savePic`, `getImage`, lines 136-169) use IndexedDB, `alert` and jQuery. The empty-name guard of `savePic` is not modelled.
- `preDefinedFilters` and `imageDataNoFilter` (lines 17, 22-33) are unused by the core.
- `alert` in the error handler (line 197) is not modelled.
- Browser timing is not modelled. Only the order of load events is: any pending request may finish next.
- `removeAllImages`'s callbacks are taken to arrive before any other operation. Each callback splices the index it saved, `sources.length - 1` (lines 239, 245). A layer appended meanwhile lands above that index and is drained on the next pass. But a `removeImage` that splices out a layer below it shifts the list: with `[bg, a, b]` and index 2, removing `a` leaves `[bg, b]`, and `splice(2, 1)` then removes nothing, or removes a layer `c` pushed in the meantime instead of `b`.
- JavaScript numbers are modelled as exact integers (widths, heights, container size) and reals (positions). Floating-point rounding of `ih/iw*w` before `Math.round` is not modelled.
- Images of width or height zero are not modelled: the intrinsic size is a positive integer. The NaN and Infinity such an image produces are not modelled.
- `img.complete` is also true for a broken image. That case, where `onload` runs with a zero size, is not modelled.
- A public `addImage` call with `options` undefined, once a background exists, throws a TypeError at line 73 when it writes `options.name`. The model's `Placement` is always a record, so that path is not modelled.
- Aliasing of the caller's options object is not modelled. The public `addImage` writes name and flags into that object, and the onload closure reads it later.
- A missing rendering surface (`ihkinetic` undefined) is not modelled.
- `Face.js` (`getUrlParam`, `backToNewGame`) is page plumbing and is not part of this model.
